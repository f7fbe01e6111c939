/** What ascp reports with each type of message, and what a listener and the file map
    see of it. */
module Reports {
  import opened Text
  import opened Management
  import opened Engine
  import opened Runs
  import opened Counters
  import opened FileMap
  import Framing
  import LineEffects
  import Printing

  /** The event and the session state that go with a message type.  `isNew` says that
      the message names a file without an entry. */
  predicate Announces(t: MessageType, isNew: bool, e: EventType, s: SessionState) {
    match t
    case INIT => e == ConnectingEvent && s == Connecting
    case SESSION => e == SessionStartEvent && s == Started
    case NOTIFICATION => e == RateModificationEvent && s == Transferring
    case STATS => (if isNew then e == FileStartEvent else e == ProgressEvent) && s == Transferring
    case STOP => e == FileStopEvent && s == Transferring
    case SKIP => e == FileSkipEvent && s == Transferring
    case FILEERROR => e == FileErrorEvent && s == Transferring
    case ERROR => e == SessionErrorEvent && s == Failed
    case DONE => e == SessionStopEvent && s == Finished
    case START | QUERY => false
  }

  lemma TypeAnnounces(t: MessageType, isNew: bool)
    requires EventTypeOf(Some(t), isNew).Some?
    ensures Announces(t, isNew, EventTypeOf(Some(t), isNew).value, StateOfType(t))
  {
  }

  /** An accepted message appends one event, of the kind of its last Type; a STATS message
      is a File Start if and only if it names a file that is not in the map. */
  lemma MessageAnnounces(st: Session, msg: string)
    requires LastAccepted(Process(st, msg))
    ensures var r, name := Process(st, msg).core, MessageFile(msg).name;
            && |r.events| == |st.core.events| + 1 && st.core.events == r.events[..|st.core.events|]
            && LastType(msg).Some?
            && Announces(LastType(msg).value, name != "" && name !in st.core.files,
                         r.events[|st.core.events|].eventType, r.stats.state)
            && r.events[|st.core.events|].session == r.stats
  {
    hide StepCore;
    hide MessageFile;
    hide MessageEnd;
    hide LastType;
    hide EventTypeOf;
    hide StateOfType;
    hide Announces;
    hide DraftAfter;
    hide MergeFiles;
    hide DropFinished;
    hide Snapshot;
    hide FinishedState;
    var c := st.core;
    AcceptedView(c, st.stream, st.started, msg);
    StateAfter(c, msg);
    TypeAnnounces(LastType(msg).value, IsNewFile(c.files, MessageFile(msg)));
  }

  /** What an accepted message with one Type does to the entry of its file: STOP, SKIP
      and FILEERROR end it, every other type leaves it in the map. */
  lemma MessageEndsFile(st: Session, msg: string)
    requires LastAccepted(Process(st, msg)) && SingleType(msg)
    requires MessageFile(msg).name != "" && WellNamed(st.core.files)
    ensures var r, name, t := Process(st, msg).core, MessageFile(msg).name, LastType(msg);
            && (name in r.files <==> t != Some(STOP) && t != Some(SKIP) && t != Some(FILEERROR))
            && (forall other :: other != name ==>
                  (other in r.files <==> other in st.core.files)
                  && (other in r.files ==> r.files[other] == st.core.files[other]))
            && var file := r.events[|r.events| - 1].file;
               file.Some? && file.value.name == name
               && file.value.state == (match t
                                       case Some(STOP) => FileFinished
                                       case Some(SKIP) => FileSkipped
                                       case Some(FILEERROR) => FileFailed
                                       case Some(STATS) => FileTransferring
                                       case _ => NoFileState)
  {
    hide StepCore;
    hide SingleType;
    hide MessageFile;
    hide MessageEnd;
    hide LastType;
    hide EventTypeOf;
    hide FinishedState;
    hide DraftAfter;
    hide Merged;
    hide Tally;
    var c, m := st.core, MessageFile(msg);
    AcceptedView(c, st.stream, st.started, msg);
    SingleTypeMessage(msg, STOP);
    MergedState(c.files, m);
  }

  // ---------- Over whole runs ----------

  /** The kind of the event of message `p`, after the messages `ps`: a STATS message is
      a File Start if and only if nothing has been merged for its file since it was
      last ended, or ever. */
  ghost predicate AnnouncesHistory(e: Event, ps: seq<string>, os: seq<Outcome>, p: string)
    requires |ps| == |os|
  {
    var name := MessageFile(p).name;
    && LastType(p).Some?
    && Announces(LastType(p).value, name != "" && MergedSince(ps, os, name) == [], e.eventType, e.session.state)
  }

  /** Each accepted message has one event, in order, of that kind. */
  ghost predicate EventsAnnounce(ps: seq<string>, os: seq<Outcome>, events: seq<Event>)
    requires |ps| == |os|
    decreases |ps|
  {
    if ps == [] then events == []
    else
      var n := |ps| - 1;
      if os[n] != Accepted then EventsAnnounce(ps[..n], os[..n], events)
      else
        && events != []
        && AnnouncesHistory(events[|events| - 1], ps[..n], os[..n], ps[n])
        && EventsAnnounce(ps[..n], os[..n], events[..|events| - 1])
  }

  lemma AnnounceSnoc(ps: seq<string>, os: seq<Outcome>, events: seq<Event>, p: string, e: Event)
    requires |ps| == |os| && EventsAnnounce(ps, os, events) && AnnouncesHistory(e, ps, os, p)
    ensures EventsAnnounce(ps + [p], os + [Accepted], events + [e])
  {
    hide AnnouncesHistory;
    assert (ps + [p])[..|ps|] == ps && (os + [Accepted])[..|os|] == os && (events + [e])[..|events|] == events;
  }

  lemma SilentSnoc(ps: seq<string>, os: seq<Outcome>, events: seq<Event>, p: string, o: Outcome)
    requires |ps| == |os| && EventsAnnounce(ps, os, events) && o != Accepted
    ensures EventsAnnounce(ps + [p], os + [o], events)
  {
    hide AnnouncesHistory;
    assert (ps + [p])[..|ps|] == ps && (os + [o])[..|os|] == os;
  }

  /** A file is in the map exactly if something has been merged for it. */
  lemma MappedIsMerged(st: Session, name: string)
    requires HistoryInv(st) && name != ""
    ensures name in st.core.files <==> MergedSince(st.processed, st.outcomes, name) != []
  {
    hide MergedSince;
  }

  lemma AnnounceStep(st: Session, msg: string)
    requires HistoryInv(st) && EventsAnnounce(st.processed, st.outcomes, st.core.events)
    ensures var r := Process(st, msg);
            |r.processed| == |r.outcomes| && EventsAnnounce(r.processed, r.outcomes, r.core.events)
  {
    hide StepCore;
    hide MessageFile;
    hide LastType;
    hide MergedSince;
    hide HistoryInv;
    hide Announces;
    hide EventsAnnounce;
    SameLogs(st);
    var c, m := st.core, MessageFile(msg);
    var o := StepCore(c, st.stream, st.started, msg).1;
    if o == Accepted {
      MessageAnnounces(st, msg);
      var r := Process(st, msg).core;
      var e := r.events[|c.events|];
      if m.name != "" {
        MappedIsMerged(st, m.name);
      }
      assert r.events == c.events + [e];
      AnnounceSnoc(st.processed, st.outcomes, c.events, msg, e);
    } else {
      RefusedEvents(c, st.stream, st.started, msg);
      SilentSnoc(st.processed, st.outcomes, c.events, msg, o);
    }
  }

  lemma RefusedEvents(c: Core, stream: bool, started: bool, msg: string)
    requires StepCore(c, stream, started, msg).1 != Accepted
    ensures StepCore(c, stream, started, msg).0.events == c.events
  {
    hide StepCore;
    RefusedView(c, stream, started, msg);
  }

  lemma {:induction false} AnnounceRun(st: Session, msgs: seq<string>)
    requires HistoryInv(st) && EventsAnnounce(st.processed, st.outcomes, st.core.events)
    ensures var r := Run(st, msgs);
            |r.processed| == |r.outcomes| && EventsAnnounce(r.processed, r.outcomes, r.core.events)
    decreases |msgs|
  {
    hide Process;
    hide HistoryInv;
    hide EventsAnnounce;
    if msgs != [] {
      HistoryStep(st, msgs[0]);
      AnnounceStep(st, msgs[0]);
      AnnounceRun(Process(st, msgs[0]), msgs[1..]);
    } else {
      SameLogs(st);
    }
  }

  /** After any stream, cut anywhere and with any errors: the event of each accepted
      message is of the kind of its last Type, and the first STATS message about a
      file, and the first after each end of it, is its File Start event. */
  lemma EveryReportAnnounced(st: Session, blobs: seq<string>)
    requires Fresh(st)
    ensures var r := ReceiveAll(st, blobs);
            |r.processed| == |r.outcomes| && EventsAnnounce(r.processed, r.outcomes, r.core.events)
  {
    hide Run;
    hide ReceiveAll;
    Framing.ProcessedIsPrefix(st, blobs);
    AnnounceRun(st, ReceiveAll(st, blobs).processed);
  }

  // ---------- From the bytes to the listener ----------

  /** A progress report as ascp prints it. */
  function ProgressReport(version: nat, name: string, written: int): Printing.Message {
    Printing.Message(version, [("Type", "STATS"), ("File", name), ("Written", PrintInt(written))])
  }

  lemma ReportLines(version: nat, name: string, written: int)
    requires OneLine(name)
    ensures LinesOf(Printing.MessageText(ProgressReport(version, name, written)))
         == [Header, KeyValue("Type", "STATS"), KeyValue("File", name), KeyValue("Written", PrintInt(written))]
  {
    hide LinesOf;
    hide Printing.MessageText;
    hide PrintInt;
    var m := ProgressReport(version, name, written);
    assert ':' !in "Type" && ':' !in "File" && ':' !in "Written";
    assert OneLine("Type") && OneLine("STATS") && OneLine("File") && OneLine("Written");
    Printing.ReadMessage(m);
    ReportExpected(m, version, name, PrintInt(written));
  }

  lemma ReportExpected(m: Printing.Message, version: nat, name: string, written: string)
    requires m == Printing.Message(version, [("Type", "STATS"), ("File", name), ("Written", written)])
    ensures Printing.Expected(m)
         == [Header, KeyValue("Type", "STATS"), KeyValue("File", name), KeyValue("Written", written)]
  {
  }

  lemma FoldOne(d: Draft, line: Line, rest: seq<Line>)
    ensures StepOf(line).Good? ==> FoldLines(d, [line] + rest) == FoldLines(Apply(d, StepOf(line).effect), rest)
    ensures FoldLines(d, []) == (d, Clean)
  {
    hide StepOf;
    hide Apply;
    assert ([line] + rest)[1..] == rest;
  }

  lemma ReportFold(d: Draft, name: string, written: int)
    requires LineEffects.InInt64(written)
    ensures var lines := [Header, KeyValue("Type", "STATS"), KeyValue("File", name),
                          KeyValue("Written", PrintInt(written))];
            FoldLines(d, lines)
            == (Apply(Apply(Apply(d, TypeIs(STATS)), FileNameIs(name)), FileNumberIs(WrittenBytes, written)), Clean)
  {
    hide FoldLines;
    hide Apply;
    hide PrintInt;
    hide ParseInt;
    hide FieldOf;
    hide TypeOf;
    var a, b, c := KeyValue("Type", "STATS"), KeyValue("File", name), KeyValue("Written", PrintInt(written));
    assert [Header, a, b, c] == [Header] + [a, b, c];
    assert [a, b, c] == [a] + [b, c];
    assert [b, c] == [b] + [c];
    assert [c] == [c] + [];
    TypeKeys();
    ChunkSizeKeys();
    StartByteKeys();
    TypeOfName(STATS);
    ParsePrint(written);
    FoldOne(d, Header, [a, b, c]);
    ApplyNothingHere(d);
    FoldOne(d, a, [b, c]);
    var d1 := Apply(d, TypeIs(STATS));
    FoldOne(d1, b, [c]);
    var d2 := Apply(d1, FileNameIs(name));
    FoldOne(d2, c, []);
    FoldOne(Apply(d2, FileNumberIs(WrittenBytes, written)), c, []);
  }

  lemma ApplyNothingHere(d: Draft)
    ensures Apply(d, Nothing) == d
  {
  }

  lemma ReportDraft(d: Draft, name: string, written: int)
    ensures var r := Apply(Apply(Apply(d, TypeIs(STATS)), FileNameIs(name)), FileNumberIs(WrittenBytes, written));
            && r.last == Some(STATS) && r.stats == d.stats.(state := Transferring)
            && r.chunkSize == d.chunkSize && r.isRemote == d.isRemote
            && r.file == d.file.(state := FileTransferring, name := name, writtenBytes := written)
  {
  }

  /** A printed progress report about a file, on any session: the listener gets one event,
      File Start if the file is new and Progress otherwise, with the bytes written as
      printed, and the file is in the map with them. */
  lemma ReportReachesListener(st: Session, version: nat, name: string, written: int)
    requires OneLine(name) && name != "" && written != 0 && LineEffects.InInt64(written)
    ensures var r := Process(st, Printing.MessageText(ProgressReport(version, name, written)));
            && LastAccepted(r) && |r.core.events| == |st.core.events| + 1
            && var e := r.core.events[|st.core.events|];
               && e.eventType == (if name in st.core.files then ProgressEvent else FileStartEvent)
               && e.session == st.core.stats.(state := Transferring)
               && e.file.Some? && e.file.value.writtenBytes == written && e.file.value.state == FileTransferring
               && name in r.core.files && r.core.files[name] == e.file.value
  {
    hide LinesOf;
    hide FoldLines;
    hide Apply;
    hide Printing.MessageText;
    hide PrintInt;
    var msg := Printing.MessageText(ProgressReport(version, name, written));
    ReportLines(version, name, written);
    var d := DraftOf(st.core);
    ReportFold(d, name, written);
    ReportDraft(d, name, written);
  }
}
