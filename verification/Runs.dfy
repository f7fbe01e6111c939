/** What every run of the engine keeps: the completion latch, the events against
    the session state, and the file counters. */
module Runs {
  import opened Text
  import opened Management
  import opened Engine
  import Framing

  // ---------- What a message says, independently of the session ----------

  const NO_STATS := Stats(NoState, FairPolicy, false, false, 0, 0, 0, 0, "", map[], map[])

  function MessageFold(msg: string): (Draft, End) {
    FoldLines(Draft(NO_STATS, 0, false, NO_FILE, None), LinesOf(msg))
  }

  /** The file record a message carries. */
  function MessageFile(msg: string): FileRecord {
    MessageFold(msg).0.file
  }

  /** Its last Type. */
  function LastType(msg: string): Option<MessageType> {
    MessageFold(msg).0.last
  }

  function MessageEnd(msg: string): End {
    MessageFold(msg).1
  }

  lemma {:induction false} FoldIndependent(d1: Draft, d2: Draft, lines: seq<Line>)
    requires d1.file == d2.file && d1.last == d2.last
    ensures var (r1, e1) := FoldLines(d1, lines);
            var (r2, e2) := FoldLines(d2, lines);
            r1.file == r2.file && r1.last == r2.last && e1 == e2
    decreases |lines|
  {
    hide StepOf;
    hide ApplyFile;
    hide ApplyStats;
    if lines != [] && StepOf(lines[0]).Good? {
      var e := StepOf(lines[0]).effect;
      FoldIndependent(Apply(d1, e), Apply(d2, e), lines[1..]);
    }
  }

  /** The draft a session folds a message into. */
  function DraftAfter(c: Core, msg: string): Draft {
    FoldLines(DraftOf(c), LinesOf(msg)).0
  }

  lemma DraftView(c: Core, msg: string)
    ensures var (d, end) := FoldLines(DraftOf(c), LinesOf(msg));
            d.file == MessageFile(msg) && d.last == LastType(msg) && end == MessageEnd(msg)
  {
    hide FoldLines;
    hide LinesOf;
    FoldIndependent(DraftOf(c), Draft(NO_STATS, 0, false, NO_FILE, None), LinesOf(msg));
  }

  /** The result of one message, in terms of what the message says. */
  lemma StepView(c: Core, stream: bool, started: bool, msg: string)
    ensures var (r, o) := StepCore(c, stream, started, msg);
            var d := DraftAfter(c, msg);
            && r.stats == d.stats
            && d.file == MessageFile(msg) && d.last == LastType(msg)
            && (MessageEnd(msg) == Clean ==> (r, o) == Conclude(c, stream, started, d))
            && (MessageEnd(msg) != Clean ==> o != Accepted && r == WithDraft(c, d))
            && (o == Accepted ==> MessageEnd(msg) == Clean)
  {
    hide FoldLines;
    hide LinesOf;
    hide EventTypeOf;
    hide MergeFiles;
    hide IsNewFile;
    hide Snapshot;
    DraftView(c, msg);
  }

  /** What an accepted message does. */
  lemma AcceptedView(c: Core, stream: bool, started: bool, msg: string)
    requires StepCore(c, stream, started, msg).1 == Accepted
    ensures var r := StepCore(c, stream, started, msg).0;
            var m := MessageFile(msg);
            var eventType := EventTypeOf(LastType(msg), IsNewFile(c.files, m));
            && MessageEnd(msg) == Clean && LastType(msg).Some? && eventType.Some?
            && r.events == c.events + [Event(eventType.value, r.stats, Snapshot(c.files, m))]
            && r.files == DropFinished(MergeFiles(c.files, m), Snapshot(c.files, m))
            && r.latch == (if FinishedState(r.stats.state) then Trip(c.latch) else c.latch)
            && r.stats == DraftAfter(c, msg).stats
  {
    hide MergeFiles;
    hide IsNewFile;
    hide Snapshot;
    hide FoldLines;
    StepView(c, stream, started, msg);
  }

  /** What a message that is not accepted leaves alone. */
  lemma RefusedView(c: Core, stream: bool, started: bool, msg: string)
    requires StepCore(c, stream, started, msg).1 != Accepted
    ensures var r := StepCore(c, stream, started, msg).0;
            && r.events == c.events && r.latch == c.latch && r.workers == c.workers
            && r.stats == DraftAfter(c, msg).stats
            && r.files == (if MessageEnd(msg) == Clean then MergeFiles(c.files, MessageFile(msg)) else c.files)
  {
    hide MergeFiles;
    hide IsNewFile;
    hide Snapshot;
    hide FoldLines;
    StepView(c, stream, started, msg);
  }

  // ---------- Which messages are accepted ----------

  /** The outcome of a message, from its bytes and the kind of the session alone. */
  function Verdict(stream: bool, started: bool, msg: string): Outcome {
    match MessageEnd(msg)
    case BadLine => Rejected
    case OutOfRange => Panicked
    case Clean =>
      match LastType(msg)
      case None | Some(START) | Some(QUERY) => Rejected
      case Some(SESSION) => if stream && !started then Panicked else Accepted
      case _ => Accepted
  }

  lemma OutcomeIsVerdict(c: Core, stream: bool, started: bool, msg: string)
    ensures StepCore(c, stream, started, msg).1 == Verdict(stream, started, msg)
  {
    hide FoldLines;
    hide LinesOf;
    hide MergeFiles;
    hide IsNewFile;
    hide Deliver;
    hide MessageFold;
    DraftView(c, msg);
  }

  /** Which messages of a run err can be read off their bytes: a message is accepted if
      and only if all its lines are good and its last Type is one that carries an
      event, SESSION only if a stream session has its connection. */
  lemma {:induction false} AcceptedExactly(st: Session, msgs: seq<string>)
    ensures Framing.AllAccepted(st, msgs) <==>
              forall i :: 0 <= i < |msgs| ==> Verdict(st.stream, st.started, msgs[i]) == Accepted
    decreases |msgs|
  {
    hide StepCore;
    hide Verdict;
    if msgs != [] {
      var next := Process(st, msgs[0]);
      OutcomeIsVerdict(st.core, st.stream, st.started, msgs[0]);
      AcceptedExactly(next, msgs[1..]);
      assert forall i :: 0 < i < |msgs| ==> msgs[i] == msgs[1..][i - 1];
    }
  }

  // ---------- Stream workers ----------

  /** Accepted SESSION messages. */
  function SessionStarts(stream: bool, started: bool, msgs: seq<string>): nat {
    if msgs == [] then 0
    else (if Verdict(stream, started, msgs[0]) == Accepted && LastType(msgs[0]) == Some(SESSION) then 1 else 0)
         + SessionStarts(stream, started, msgs[1..])
  }

  lemma WorkersStep(c: Core, stream: bool, started: bool, msg: string)
    ensures var (r, o) := StepCore(c, stream, started, msg);
            r.workers == if stream && o == Accepted && LastType(msg) == Some(SESSION)
                         then c.workers + [r.chunkSize] else c.workers
  {
    hide FoldLines;
    hide LinesOf;
    hide MergeFiles;
    hide IsNewFile;
    hide Snapshot;
    hide MessageFold;
    hide FinishedState;
    hide DropFinished;
    DraftView(c, msg);
  }

  /** A stream session starts one worker for each accepted SESSION message, other
      sessions start none. */
  lemma {:induction false} WorkersAreSessions(st: Session, msgs: seq<string>)
    ensures |Run(st, msgs).core.workers|
         == |st.core.workers| + (if st.stream then SessionStarts(st.stream, st.started, msgs) else 0)
    decreases |msgs|
  {
    hide StepCore;
    hide Verdict;
    hide LastType;
    if msgs != [] {
      WorkersStep(st.core, st.stream, st.started, msgs[0]);
      OutcomeIsVerdict(st.core, st.stream, st.started, msgs[0]);
      WorkersAreSessions(Process(st, msgs[0]), msgs[1..]);
    }
  }

  // ---------- The session state after a message ----------

  lemma {:induction false} FoldState(d: Draft, lines: seq<Line>)
    requires d.last.Some? ==> d.stats.state == StateOfType(d.last.value)
    ensures var r := FoldLines(d, lines).0; r.last.Some? ==> r.stats.state == StateOfType(r.last.value)
    decreases |lines|
  {
    hide StepOf;
    hide StateOfType;
    hide ApplyFile;
    if lines != [] && StepOf(lines[0]).Good? {
      FoldState(Apply(d, StepOf(lines[0]).effect), lines[1..]);
    }
  }

  lemma StateAfter(c: Core, msg: string)
    requires LastType(msg).Some?
    ensures DraftAfter(c, msg).stats.state == StateOfType(LastType(msg).value)
  {
    hide FoldLines;
    hide LinesOf;
    DraftView(c, msg);
    FoldState(DraftOf(c), LinesOf(msg));
  }

  // ---------- The completion latch ----------

  predicate IsFinal(t: Option<MessageType>) {
    t == Some(DONE) || t == Some(ERROR)
  }

  /** Some accepted message had DONE or ERROR as its last Type. */
  predicate SawFinal(processed: seq<string>, outcomes: seq<Outcome>)
    requires |processed| == |outcomes|
  {
    exists i :: 0 <= i < |processed| && outcomes[i] == Accepted && IsFinal(LastType(processed[i]))
  }

  /** The session state an event of each type goes with. */
  function StateOfEvent(t: EventType): SessionState {
    match t
    case ConnectingEvent => Connecting
    case SessionStartEvent => Started
    case SessionErrorEvent => Failed
    case SessionStopEvent => Finished
    case _ => Transferring
  }

  predicate EventMatches(e: Event) {
    e.session.state == StateOfEvent(e.eventType)
  }

  ghost predicate LatchCore(c: Core, final: bool) {
    && c.latch.complete == final
    && c.latch.closes == (if final then 1 else 0)
    && (forall i :: 0 <= i < |c.events| ==> EventMatches(c.events[i]))
  }

  ghost predicate LatchInv(st: Session) {
    |st.processed| == |st.outcomes| && LatchCore(st.core, SawFinal(st.processed, st.outcomes))
  }

  lemma SawFinalSnoc(ps: seq<string>, os: seq<Outcome>, p: string, o: Outcome)
    requires |ps| == |os|
    ensures SawFinal(ps + [p], os + [o]) <==> SawFinal(ps, os) || (o == Accepted && IsFinal(LastType(p)))
  {
    hide LastType;
    hide IsFinal;
    var qs, rs := ps + [p], os + [o];
    if SawFinal(ps, os) {
      var i :| 0 <= i < |ps| && os[i] == Accepted && IsFinal(LastType(ps[i]));
      assert rs[i] == Accepted && IsFinal(LastType(qs[i]));
    }
    if o == Accepted && IsFinal(LastType(p)) {
      assert rs[|ps|] == Accepted && IsFinal(LastType(qs[|ps|]));
    }
    if SawFinal(qs, rs) {
      var i :| 0 <= i < |qs| && rs[i] == Accepted && IsFinal(LastType(qs[i]));
      assert i < |ps| ==> os[i] == Accepted && IsFinal(LastType(ps[i]));
    }
  }

  lemma EventMatchesState(t: MessageType, newFile: bool)
    requires EventTypeOf(Some(t), newFile).Some?
    ensures StateOfEvent(EventTypeOf(Some(t), newFile).value) == StateOfType(t)
    ensures FinishedState(StateOfType(t)) <==> IsFinal(Some(t))
  {
  }

  lemma LatchAccepted(c: Core, stream: bool, started: bool, msg: string, final: bool)
    requires LatchCore(c, final) && StepCore(c, stream, started, msg).1 == Accepted
    ensures LatchCore(StepCore(c, stream, started, msg).0, final || IsFinal(LastType(msg)))
  {
    hide StepCore;
    hide LastType;
    hide MessageFile;
    hide FinishedState;
    hide IsFinal;
    hide EventTypeOf;
    hide StateOfEvent;
    hide StateOfType;
    hide Snapshot;
    hide IsNewFile;
    hide DraftAfter;
    hide DropFinished;
    hide MergeFiles;
    AcceptedView(c, stream, started, msg);
    StateAfter(c, msg);
    EventMatchesState(LastType(msg).value, IsNewFile(c.files, MessageFile(msg)));
  }

  lemma LatchStep(st: Session, msg: string)
    requires LatchInv(st)
    ensures LatchInv(Process(st, msg))
  {
    hide StepCore;
    hide LastType;
    hide SawFinal;
    hide IsFinal;
    hide EventMatches;
    hide MessageFile;
    hide MergeFiles;
    hide DraftAfter;
    var (r, o) := StepCore(st.core, st.stream, st.started, msg);
    SawFinalSnoc(st.processed, st.outcomes, msg, o);
    if o == Accepted {
      LatchAccepted(st.core, st.stream, st.started, msg, SawFinal(st.processed, st.outcomes));
    } else {
      RefusedView(st.core, st.stream, st.started, msg);
    }
  }

  /** Over every run, errors included: the complete channel is closed at most once
      and exactly when an accepted message ended in DONE or ERROR, and every event
      agrees with the session state in its snapshot. */
  lemma {:induction false} LatchRun(st: Session, msgs: seq<string>)
    requires LatchInv(st)
    ensures LatchInv(Run(st, msgs))
    decreases |msgs|
  {
    hide Process;
    hide LatchInv;
    if msgs != [] {
      LatchStep(st, msgs[0]);
      LatchRun(Process(st, msgs[0]), msgs[1..]);
    }
  }

  /** The latch never reopens. */
  lemma {:induction false} CompleteStays(st: Session, msgs: seq<string>)
    requires st.core.latch.complete
    ensures Run(st, msgs).core.latch.complete
    decreases |msgs|
  {
    hide StepCore;
    if msgs != [] {
      if StepCore(st.core, st.stream, st.started, msgs[0]).1 == Accepted {
        AcceptedView(st.core, st.stream, st.started, msgs[0]);
      } else {
        RefusedView(st.core, st.stream, st.started, msgs[0]);
      }
      CompleteStays(Process(st, msgs[0]), msgs[1..]);
    }
  }

  /** The same over bytes: any stream, cut in any way. */
  lemma CompletionLatch(st: Session, blobs: seq<string>)
    requires Fresh(st)
    ensures var r := ReceiveAll(st, blobs);
            && |r.processed| == |r.outcomes|
            && (r.core.latch.complete <==> SawFinal(r.processed, r.outcomes))
            && r.core.latch.closes == (if r.core.latch.complete then 1 else 0)
            && (forall i :: 0 <= i < |r.core.events| ==> EventMatches(r.core.events[i]))
  {
    hide Run;
    hide ReceiveAll;
    Framing.ProcessedIsPrefix(st, blobs);
    LatchRun(st, ReceiveAll(st, blobs).processed);
  }
}
