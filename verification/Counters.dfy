/** The file counters of a session against the messages and the events of a run. */
module Counters {
  import opened Text
  import opened Management
  import opened Engine
  import opened Runs
  import Framing

  // ---------- Type lines ----------

  predicate IsTypeLine(line: Line, t: MessageType) {
    StepOf(line) == Good(TypeIs(t))
  }

  /** The `Type: t` lines up to where the message stops. */
  function Tally(lines: seq<Line>, t: MessageType): nat
    decreases |lines|
  {
    if lines == [] || !StepOf(lines[0]).Good? then 0
    else (if IsTypeLine(lines[0], t) then 1 else 0) + Tally(lines[1..], t)
  }

  /** All Type lines up to where the message stops. */
  function TypeLines(lines: seq<Line>): nat
    decreases |lines|
  {
    if lines == [] || !StepOf(lines[0]).Good? then 0
    else (if StepOf(lines[0]).effect.TypeIs? then 1 else 0) + TypeLines(lines[1..])
  }

  predicate SingleType(msg: string) {
    TypeLines(LinesOf(msg)) <= 1
  }

  function Total(msgs: seq<string>, t: MessageType): nat {
    if msgs == [] then 0 else Tally(LinesOf(msgs[0]), t) + Total(msgs[1..], t)
  }

  lemma TypeLineCounts(s: Stats, e: Effect)
    ensures var r := ApplyStats(s, e);
            && r.filesComplete == s.filesComplete + (if e == TypeIs(STOP) || e == TypeIs(SKIP) then 1 else 0)
            && r.filesSkipped == s.filesSkipped + (if e == TypeIs(SKIP) then 1 else 0)
            && r.filesFailed == s.filesFailed + (if e == TypeIs(FILEERROR) then 1 else 0)
  {
  }

  lemma {:induction false} FoldCounts(d: Draft, lines: seq<Line>)
    ensures var r := FoldLines(d, lines).0.stats;
            && r.filesComplete == d.stats.filesComplete + Tally(lines, STOP) + Tally(lines, SKIP)
            && r.filesSkipped == d.stats.filesSkipped + Tally(lines, SKIP)
            && r.filesFailed == d.stats.filesFailed + Tally(lines, FILEERROR)
    decreases |lines|
  {
    hide StepOf;
    hide ApplyStats;
    hide ApplyFile;
    if lines != [] && StepOf(lines[0]).Good? {
      TypeLineCounts(d.stats, StepOf(lines[0]).effect);
      FoldCounts(Apply(d, StepOf(lines[0]).effect), lines[1..]);
    }
  }

  /** Conservation of the counters over every run, errors included: each counts
      the Type lines read, so none ever decreases and skipped files are among the
      complete ones. */
  lemma {:induction false} CountersCountLines(st: Session, msgs: seq<string>)
    ensures var r, s := Run(st, msgs).core.stats, st.core.stats;
            && r.filesComplete == s.filesComplete + Total(msgs, STOP) + Total(msgs, SKIP)
            && r.filesSkipped == s.filesSkipped + Total(msgs, SKIP)
            && r.filesFailed == s.filesFailed + Total(msgs, FILEERROR)
    decreases |msgs|
  {
    hide StepCore;
    hide LinesOf;
    hide Tally;
    hide FoldLines;
    if msgs != [] {
      StepView(st.core, st.stream, st.started, msgs[0]);
      FoldCounts(DraftOf(st.core), LinesOf(msgs[0]));
      CountersCountLines(Process(st, msgs[0]), msgs[1..]);
    }
  }

  /** The counters of any prefix of a run bound those of the run from below. */
  lemma CountersMonotone(st: Session, a: seq<string>, b: seq<string>)
    ensures var p, r := Run(st, a).core.stats, Run(st, a + b).core.stats;
            p.filesComplete <= r.filesComplete && p.filesSkipped <= r.filesSkipped && p.filesFailed <= r.filesFailed
    ensures Fresh(st) ==> var r := Run(st, a).core.stats; r.filesSkipped <= r.filesComplete
  {
    hide Run;
    Framing.RunAppend(st, a, b);
    CountersCountLines(Run(st, a), b);
    CountersCountLines(st, a);
  }

  // ---------- Counters against events ----------

  function CountEvents(events: seq<Event>, t: EventType): nat {
    if events == [] then 0
    else CountEvents(events[..|events| - 1], t) + (if events[|events| - 1].eventType == t then 1 else 0)
  }

  lemma CountEventsSnoc(events: seq<Event>, e: Event, t: EventType)
    ensures CountEvents(events + [e], t) == CountEvents(events, t) + (if e.eventType == t then 1 else 0)
  {
    assert (events + [e])[..|events|] == events;
  }

  lemma {:induction false} NoTypeLines(d: Draft, lines: seq<Line>, t: MessageType)
    requires TypeLines(lines) == 0
    ensures Tally(lines, t) == 0
    ensures FoldLines(d, lines).0.last == d.last && FoldLines(d, lines).0.file.state == d.file.state
    decreases |lines|
  {
    hide StepOf;
    hide ApplyStats;
    if lines != [] && StepOf(lines[0]).Good? {
      NoTypeLines(Apply(d, StepOf(lines[0]).effect), lines[1..], t);
    }
  }

  /** The file state a message with the given Type reports. */
  function ReportedState(t: Option<MessageType>): FileState {
    match t
    case None => NoFileState
    case Some(t) => FileStateOfType(t, NoFileState)
  }

  /** A message with at most one Type line counts exactly its type, and reports
      the file state of its type. */
  lemma {:induction false} SingleTypeFold(d: Draft, lines: seq<Line>, t: MessageType)
    requires TypeLines(lines) <= 1 && d.last.None? && d.file.state == NoFileState
    ensures var r := FoldLines(d, lines).0;
            && Tally(lines, t) == (if r.last == Some(t) then 1 else 0)
            && r.file.state == ReportedState(r.last)
    decreases |lines|
  {
    hide StepOf;
    hide ApplyStats;
    if lines != [] && StepOf(lines[0]).Good? {
      var e := StepOf(lines[0]).effect;
      if e.TypeIs? {
        NoTypeLines(Apply(d, e), lines[1..], t);
      } else {
        SingleTypeFold(Apply(d, e), lines[1..], t);
      }
    }
  }

  lemma SingleTypeMessage(msg: string, t: MessageType)
    requires SingleType(msg)
    ensures Tally(LinesOf(msg), t) == (if LastType(msg) == Some(t) then 1 else 0)
    ensures MessageFile(msg).state == ReportedState(LastType(msg))
  {
    hide LinesOf;
    hide FoldLines;
    hide Tally;
    hide TypeLines;
    SingleTypeFold(Draft(NO_STATS, 0, false, NO_FILE, None), LinesOf(msg), t);
  }

  /** The file types and their events. */
  function FileEvent(t: MessageType): EventType
    requires t == STOP || t == SKIP || t == FILEERROR
  {
    match t
    case STOP => FileStopEvent
    case SKIP => FileSkipEvent
    case FILEERROR => FileErrorEvent
  }

  lemma EventOfFileType(last: Option<MessageType>, newFile: bool, t: MessageType)
    requires t == STOP || t == SKIP || t == FILEERROR
    ensures EventTypeOf(last, newFile) == Some(FileEvent(t)) <==> last == Some(t)
  {
  }

  /** In a run of single-Type messages, each accepted STOP, SKIP or FILEERROR is one event;
      without errors the events and the lines are equally many. */
  lemma {:induction false} EventsCountLines(st: Session, msgs: seq<string>, t: MessageType)
    requires t == STOP || t == SKIP || t == FILEERROR
    requires forall i :: 0 <= i < |msgs| ==> SingleType(msgs[i])
    ensures var n := CountEvents(Run(st, msgs).core.events, FileEvent(t)) - CountEvents(st.core.events, FileEvent(t));
            n <= Total(msgs, t) && (Framing.AllAccepted(st, msgs) ==> n == Total(msgs, t))
    decreases |msgs|
  {
    hide StepCore;
    hide SingleType;
    hide LinesOf;
    hide Tally;
    hide LastType;
    hide CountEvents;
    hide EventTypeOf;
    hide FileEvent;
    if msgs != [] {
      var c, msg := st.core, msgs[0];
      var next := Process(st, msg);
      SingleTypeMessage(msg, t);
      if StepCore(c, st.stream, st.started, msg).1 == Accepted {
        AcceptedView(c, st.stream, st.started, msg);
        EventOfFileType(LastType(msg), IsNewFile(c.files, MessageFile(msg)), t);
        CountEventsSnoc(c.events, next.core.events[|c.events|], FileEvent(t));
      } else {
        RefusedView(c, st.stream, st.started, msg);
      }
      EventsCountLines(next, msgs[1..], t);
    }
  }

  /** In error-free single-Type runs the counters are the numbers of events. */
  lemma CountersAreEvents(st: Session, blobs: seq<string>)
    requires Fresh(st)
    requires forall i :: 0 <= i < |Messages(Concat(blobs))| ==> SingleType(Messages(Concat(blobs))[i])
    requires Framing.AllAccepted(st, Messages(Concat(blobs)))
    ensures var s, events := ReceiveAll(st, blobs).core.stats, ReceiveAll(st, blobs).core.events;
            && s.filesComplete - s.filesSkipped == CountEvents(events, FileStopEvent)
            && s.filesSkipped == CountEvents(events, FileSkipEvent)
            && s.filesFailed == CountEvents(events, FileErrorEvent)
  {
    hide Run;
    hide ReceiveAll;
    hide Receive;
    hide Messages;
    hide Total;
    hide SingleType;
    hide Framing.AllAccepted;
    hide Framing.AllButLast;
    var msgs := Messages(Concat(blobs));
    assert st.buffer + Concat(blobs) == Concat(blobs);
    Framing.AllAcceptedButLast(st, msgs);
    Framing.FragmentationInvariance(st, blobs);
    CountersCountLines(st, msgs);
    EventsCountLines(st, msgs, STOP);
    EventsCountLines(st, msgs, SKIP);
    EventsCountLines(st, msgs, FILEERROR);
  }
}
