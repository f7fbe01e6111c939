/** The per-file map of a session over whole runs: it agrees with the history of
    messages, and a file's Start events are separated by its end. */
module FileMap {
  import opened Text
  import opened Management
  import opened Engine
  import opened Runs
  import opened Counters
  import Framing

  // ---------- The map as a fold over history ----------

  /** The records merged for `name` since its entry was created: a message counts
      when its lines are read to the end and name the file; an accepted message
      reporting a terminal state ends the entry. */
  function MergedSince(processed: seq<string>, outcomes: seq<Outcome>, name: string): seq<FileRecord>
    requires |processed| == |outcomes|
  {
    if processed == [] then []
    else
      var n := |processed| - 1;
      var before := MergedSince(processed[..n], outcomes[..n], name);
      var m := MessageFile(processed[n]);
      if MessageEnd(processed[n]) != Clean || m.name != name then before
      else if outcomes[n] == Accepted && Terminal(m.state) then []
      else before + [m]
  }

  /** All reports after position `k` are zero. */
  predicate ZeroAfter(reports: seq<int>, k: int) {
    forall j :: 0 <= j < |reports| && k < j ==> reports[j] == 0
  }

  /** The last non-zero report, or zero. */
  function LastNonZero(reports: seq<int>): (r: int)
    ensures r == 0 ==> ZeroAfter(reports, -1)
    ensures r != 0 ==> exists k :: 0 <= k < |reports| && reports[k] == r && ZeroAfter(reports, k)
  {
    if reports == [] then 0
    else
      var n := |reports| - 1;
      if reports[n] != 0 then
        assert ZeroAfter(reports, n);
        reports[n]
      else
        ZeroFurther(reports);
        LastNonZero(reports[..n])
  }

  lemma ZeroFurther(reports: seq<int>)
    requires reports != [] && reports[|reports| - 1] == 0
    ensures forall k :: ZeroAfter(reports[..|reports| - 1], k) ==> ZeroAfter(reports, k)
  {
    var n := |reports| - 1;
    forall k | ZeroAfter(reports[..n], k) ensures ZeroAfter(reports, k) {
      assert forall j :: 0 <= j < n ==> reports[..n][j] == reports[j];
    }
  }

  function Reports(records: seq<FileRecord>, field: FileNumber): (r: seq<int>)
    ensures |r| == |records|
    ensures forall i :: 0 <= i < |r| ==> r[i] == NumberOf(records[i], field)
  {
    seq(|records|, i requires 0 <= i < |records| => NumberOf(records[i], field))
  }

  function NumberOf(r: FileRecord, field: FileNumber): int {
    match field
    case ContiguousBytes => r.contiguousBytes
    case SizeBytes => r.sizeBytes
    case StartByte => r.startByte
    case EndByte => r.endByte
    case WrittenBytes => r.writtenBytes
  }

  /** The field of a number is the one its line writes, and no other line writes it. */
  lemma NumberReadBack(r: FileRecord, f: FileNumber, n: int, g: FileNumber)
    ensures NumberOf(SetFileNumber(r, f, n), g) == if g == f then n else NumberOf(r, g)
  {
  }

  /** The entry that stands for a non-empty list of merged records. */
  ghost predicate Summarises(entry: FileRecord, name: string, records: seq<FileRecord>) {
    && records != []
    && entry.name == name
    && entry.errorDescription == records[0].errorDescription
    && (var last := records[|records| - 1];
        entry.state == last.state && entry.errorCode == last.errorCode
        && entry.checksum == last.checksum && entry.checksumType == last.checksumType)
    && (forall field :: NumberOf(entry, field) == LastNonZero(Reports(records, field)))
  }

  ghost predicate HistoryInv(st: Session) {
    && |st.processed| == |st.outcomes|
    && "" !in st.core.files
    && (forall name :: name in st.core.files ==>
          Summarises(st.core.files[name], name, MergedSince(st.processed, st.outcomes, name)))
    && (forall name :: name != "" && name !in st.core.files ==>
          MergedSince(st.processed, st.outcomes, name) == [])
  }

  lemma SummariseFirst(m: FileRecord)
    ensures Summarises(m, m.name, [m])
  {
    forall field ensures NumberOf(m, field) == LastNonZero(Reports([m], field)) {
      var reports := Reports([m], field);
      assert reports[0] == NumberOf(m, field);
      assert reports[..0] == [];
    }
  }

  lemma SummariseNext(entry: FileRecord, records: seq<FileRecord>, m: FileRecord)
    requires Summarises(entry, m.name, records)
    ensures Summarises(MergeRecord(entry, m), m.name, records + [m])
  {
    var r, all := MergeRecord(entry, m), records + [m];
    forall field ensures NumberOf(r, field) == LastNonZero(Reports(all, field)) {
      assert Reports(all, field)[..|records|] == Reports(records, field);
      assert Reports(all, field)[|records|] == NumberOf(m, field);
      assert NumberOf(r, field) == Keep(NumberOf(m, field), NumberOf(entry, field));
    }
  }

  lemma MergedSinceSnoc(ps: seq<string>, os: seq<Outcome>, p: string, o: Outcome, name: string)
    requires |ps| == |os|
    ensures var m, before := MessageFile(p), MergedSince(ps, os, name);
            MergedSince(ps + [p], os + [o], name) ==
            if MessageEnd(p) != Clean || m.name != name then before
            else if o == Accepted && Terminal(m.state) then []
            else before + [m]
  {
    hide MessageFile;
    hide MessageEnd;
    hide Terminal;
    assert (ps + [p])[..|ps|] == ps && (os + [o])[..|os|] == os;
  }

  /** Every entry is kept under its own name. */
  predicate WellNamed(files: Files) {
    forall name :: name in files ==> files[name].name == name
  }

  /** The file map after a message, in terms of what the message says. */
  lemma FilesAfter(st: Session, msg: string)
    requires WellNamed(st.core.files)
    ensures var c, r := st.core, Process(st, msg);
            var o, m := r.outcomes[|st.outcomes|], MessageFile(msg);
            && r.processed == st.processed + [msg] && r.outcomes == st.outcomes + [o]
            && r.core.files == (
              if MessageEnd(msg) != Clean || m.name == "" then c.files
              else if o == Accepted && Terminal(m.state) then c.files - {m.name}
              else c.files[m.name := Merged(c.files, m)])
  {
    hide StepCore;
    hide MessageFile;
    hide MessageEnd;
    hide LastType;
    hide Terminal;
    hide Merged;
    hide FinishedState;
    hide EventTypeOf;
    hide IsNewFile;
    hide Trip;
    hide DraftAfter;
    var c := st.core;
    var o, m := StepCore(c, st.stream, st.started, msg).1, MessageFile(msg);
    MergedState(c.files, m);
    if o == Accepted {
      AcceptedView(c, st.stream, st.started, msg);
      assert c.files[m.name := Merged(c.files, m)] - {m.name} == c.files - {m.name};
    } else {
      RefusedView(c, st.stream, st.started, msg);
    }
  }

  lemma MergedState(files: Files, m: FileRecord)
    requires WellNamed(files)
    ensures Merged(files, m).state == m.state
    ensures m.name !in files ==> Merged(files, m) == m
    ensures Merged(files, m).name == m.name
  {
  }

  lemma HistoryStep(st: Session, msg: string)
    requires HistoryInv(st)
    ensures HistoryInv(Process(st, msg))
  {
    hide Process;
    hide MessageFile;
    hide MessageEnd;
    hide Terminal;
    hide Summarises;
    hide MergedSince;
    var r := Process(st, msg);
    var m := MessageFile(msg);
    WellNamedHistory(st);
    FilesAfter(st, msg);
    var o := r.outcomes[|st.outcomes|];
    forall name: string
      ensures name in r.core.files ==> Summarises(r.core.files[name], name, MergedSince(r.processed, r.outcomes, name))
      ensures name != "" && name !in r.core.files ==> MergedSince(r.processed, r.outcomes, name) == []
    {
      MergedSinceSnoc(st.processed, st.outcomes, msg, o, name);
      if name == m.name && name != "" {
        SummariseMerge(st.core.files, m, MergedSince(st.processed, st.outcomes, name));
      }
    }
  }

  lemma WellNamedHistory(st: Session)
    requires HistoryInv(st)
    ensures WellNamed(st.core.files)
  {
    hide MergedSince;
  }

  lemma SummariseMerge(files: Files, m: FileRecord, records: seq<FileRecord>)
    requires m.name in files ==> Summarises(files[m.name], m.name, records)
    requires m.name !in files ==> records == []
    ensures Summarises(Merged(files, m), m.name, records + [m])
  {
    hide Summarises;
    hide MergeRecord;
    if m.name in files {
      SummariseNext(files[m.name], records, m);
    } else {
      SummariseFirst(m);
      assert [] + [m] == [m];
    }
  }

  lemma {:induction false} HistoryRun(st: Session, msgs: seq<string>)
    requires HistoryInv(st)
    ensures HistoryInv(Run(st, msgs))
    decreases |msgs|
  {
    hide Process;
    hide HistoryInv;
    if msgs != [] {
      HistoryStep(st, msgs[0]);
      HistoryRun(Process(st, msgs[0]), msgs[1..]);
    }
  }

  /** After any stream, cut anywhere and with any errors, the map holds exactly the
      files whose merged list is not empty, and each entry is the summary of its
      list: last non-zero byte counts, latest code, state and checksum, and the
      description of the message that created it. */
  lemma FileMapAgreesWithHistory(st: Session, blobs: seq<string>)
    requires Fresh(st)
    ensures HistoryInv(ReceiveAll(st, blobs))
  {
    hide Run;
    hide ReceiveAll;
    Framing.ProcessedIsPrefix(st, blobs);
    HistoryRun(st, ReceiveAll(st, blobs).processed);
  }

  // ---------- What events carry ----------

  /** The file record of the event of message `p`, after the messages `ps`: the summary of
      the records merged for its file up to and with that message. */
  ghost predicate CarriesSummary(e: Event, ps: seq<string>, os: seq<Outcome>, p: string)
    requires |ps| == |os|
  {
    var m := MessageFile(p);
    if m.name == "" then e.file == None
    else e.file.Some? && Summarises(e.file.value, m.name, MergedSince(ps, os, m.name) + [m])
  }

  /** Each accepted message has one event, in order, and each event carries such a summary. */
  ghost predicate EventsCarrySummaries(ps: seq<string>, os: seq<Outcome>, events: seq<Event>)
    requires |ps| == |os|
    decreases |ps|
  {
    if ps == [] then events == []
    else
      var n := |ps| - 1;
      if os[n] != Accepted then EventsCarrySummaries(ps[..n], os[..n], events)
      else
        && events != []
        && CarriesSummary(events[|events| - 1], ps[..n], os[..n], ps[n])
        && EventsCarrySummaries(ps[..n], os[..n], events[..|events| - 1])
  }

  lemma CarriesSnoc(ps: seq<string>, os: seq<Outcome>, events: seq<Event>, p: string, e: Event)
    requires |ps| == |os| && EventsCarrySummaries(ps, os, events) && CarriesSummary(e, ps, os, p)
    ensures EventsCarrySummaries(ps + [p], os + [Accepted], events + [e])
  {
    hide CarriesSummary;
    assert (ps + [p])[..|ps|] == ps && (os + [Accepted])[..|os|] == os && (events + [e])[..|events|] == events;
  }

  lemma SkipsSnoc(ps: seq<string>, os: seq<Outcome>, events: seq<Event>, p: string, o: Outcome)
    requires |ps| == |os| && EventsCarrySummaries(ps, os, events) && o != Accepted
    ensures EventsCarrySummaries(ps + [p], os + [o], events)
  {
    hide CarriesSummary;
    assert (ps + [p])[..|ps|] == ps && (os + [o])[..|os|] == os;
  }

  lemma EventsStep(st: Session, msg: string)
    requires HistoryInv(st) && EventsCarrySummaries(st.processed, st.outcomes, st.core.events)
    ensures var r := Process(st, msg);
            |r.processed| == |r.outcomes| && EventsCarrySummaries(r.processed, r.outcomes, r.core.events)
  {
    hide StepCore;
    hide MessageFile;
    hide Summarises;
    hide MergedSince;
    hide EventsCarrySummaries;
    hide Merged;
    var c, m := st.core, MessageFile(msg);
    var o := StepCore(c, st.stream, st.started, msg).1;
    if o == Accepted {
      AcceptedView(c, st.stream, st.started, msg);
      var e := Process(st, msg).core.events[|c.events|];
      if m.name != "" {
        SummariseMerge(c.files, m, MergedSince(st.processed, st.outcomes, m.name));
      }
      CarriesSnoc(st.processed, st.outcomes, c.events, msg, e);
    } else {
      RefusedView(c, st.stream, st.started, msg);
      SkipsSnoc(st.processed, st.outcomes, c.events, msg, o);
    }
  }

  lemma {:induction false} EventsRun(st: Session, msgs: seq<string>)
    requires HistoryInv(st) && EventsCarrySummaries(st.processed, st.outcomes, st.core.events)
    ensures var r := Run(st, msgs);
            |r.processed| == |r.outcomes| && EventsCarrySummaries(r.processed, r.outcomes, r.core.events)
    decreases |msgs|
  {
    hide Process;
    hide HistoryInv;
    hide EventsCarrySummaries;
    if msgs != [] {
      HistoryStep(st, msgs[0]);
      EventsStep(st, msgs[0]);
      SameLogs(Process(st, msgs[0]));
      EventsRun(Process(st, msgs[0]), msgs[1..]);
    } else {
      SameLogs(st);
    }
  }

  lemma SameLogs(st: Session)
    requires HistoryInv(st)
    ensures |st.processed| == |st.outcomes|
  {
  }

  /** After any stream, cut anywhere and with any errors, there is one event for each
      accepted message, and its file record is the summary of all records merged for
      the file up to and with that message, also when the file ends with it. */
  lemma EventsAgreeWithHistory(st: Session, blobs: seq<string>)
    requires Fresh(st)
    ensures var r := ReceiveAll(st, blobs);
            |r.processed| == |r.outcomes| && EventsCarrySummaries(r.processed, r.outcomes, r.core.events)
  {
    hide Run;
    hide ReceiveAll;
    Framing.ProcessedIsPrefix(st, blobs);
    EventsRun(st, ReceiveAll(st, blobs).processed);
  }

  // ---------- The life of a file ----------

  predicate EndsFile(e: Event, name: string) {
    e.file.Some? && e.file.value.name == name
    && (e.eventType == FileStopEvent || e.eventType == FileErrorEvent || e.eventType == FileSkipEvent)
  }

  predicate StartsFile(e: Event, name: string) {
    e.eventType == FileStartEvent && e.file.Some? && e.file.value.name == name
  }

  /** Between two Start events of a name there is an end event of that name. */
  ghost predicate Separated(events: seq<Event>) {
    forall name, i, j :: 0 <= i < j < |events| && StartsFile(events[i], name) && StartsFile(events[j], name) ==>
      exists k :: i < k < j && EndsFile(events[k], name)
  }

  /** A file whose Start has not been followed by its end is in the map. */
  ghost predicate OpenIsMapped(files: Files, events: seq<Event>) {
    forall name, i :: 0 <= i < |events| && StartsFile(events[i], name) && name !in files ==>
      exists k :: i < k < |events| && EndsFile(events[k], name)
  }

  ghost predicate LifeInv(files: Files, events: seq<Event>) {
    && (forall name :: name in files ==> files[name].name == name && !Terminal(files[name].state))
    && Separated(events)
    && OpenIsMapped(files, events)
  }

  /** Appending one event. */
  lemma LifeSnoc(files: Files, events: seq<Event>, files': Files, e: Event)
    requires LifeInv(files, events)
    requires forall name :: name in files' ==> files'[name].name == name && !Terminal(files'[name].state)
    requires forall name :: StartsFile(e, name) ==> name !in files && name in files'
    requires forall name :: name in files && name !in files' ==> EndsFile(e, name)
    ensures LifeInv(files', events + [e])
  {
    hide StartsFile;
    hide EndsFile;
    hide Terminal;
    var all := events + [e];
    forall name, i | 0 <= i < |events| && StartsFile(all[i], name) && (name !in files' || StartsFile(e, name))
      ensures exists k :: i < k < |all| && EndsFile(all[k], name) && (StartsFile(e, name) ==> k < |events|)
    {
      assert all[i] == events[i];
      if name in files {
        assert all[|events|] == e;
      } else {
        var k :| i < k < |events| && EndsFile(events[k], name);
        assert all[k] == events[k];
      }
    }
    forall name, i, j | 0 <= i < j < |all| && StartsFile(all[i], name) && StartsFile(all[j], name)
      ensures exists k :: i < k < j && EndsFile(all[k], name)
    {
      if j < |events| {
        var k :| i < k < j && EndsFile(events[k], name);
        assert all[k] == events[k];
      }
    }
  }

  lemma TerminalReport(t: MessageType, newFile: bool)
    ensures Terminal(ReportedState(Some(t))) ==>
              EventTypeOf(Some(t), newFile).Some? &&
              EventTypeOf(Some(t), newFile).value in {FileStopEvent, FileErrorEvent, FileSkipEvent}
    ensures EventTypeOf(Some(t), newFile) == Some(FileStartEvent) ==> newFile && !Terminal(ReportedState(Some(t)))
  {
  }

  lemma LifeStep(st: Session, msg: string)
    requires SingleType(msg)
    requires LifeInv(st.core.files, st.core.events)
    ensures var r := Process(st, msg).core; LifeInv(r.files, r.events)
  {
    hide StepCore;
    hide SingleType;
    hide LifeInv;
    if StepCore(st.core, st.stream, st.started, msg).1 == Accepted {
      LifeAccepted(st.core, st.stream, st.started, msg);
    } else {
      LifeRefused(st.core, st.stream, st.started, msg);
    }
  }

  lemma LifeAccepted(c: Core, stream: bool, started: bool, msg: string)
    requires SingleType(msg)
    requires LifeInv(c.files, c.events)
    requires StepCore(c, stream, started, msg).1 == Accepted
    ensures var r := StepCore(c, stream, started, msg).0; LifeInv(r.files, r.events)
  {
    hide StepCore;
    hide SingleType;
    hide MessageFile;
    hide MessageEnd;
    hide LastType;
    hide FinishedState;
    hide EventTypeOf;
    hide ReportedState;
    hide Separated;
    hide OpenIsMapped;
    hide Tally;
    hide Merged;
    hide Trip;
    hide Terminal;
    var m := MessageFile(msg);
    var r := StepCore(c, stream, started, msg).0;
    SingleTypeMessage(msg, DONE);
    MergedState(c.files, m);
    AcceptedView(c, stream, started, msg);
    TerminalReport(LastType(msg).value, IsNewFile(c.files, m));
    LifeSnoc(c.files, c.events, r.files, r.events[|c.events|]);
  }

  lemma LifeRefused(c: Core, stream: bool, started: bool, msg: string)
    requires SingleType(msg)
    requires LifeInv(c.files, c.events)
    requires StepCore(c, stream, started, msg).1 != Accepted
    ensures var r := StepCore(c, stream, started, msg).0; LifeInv(r.files, r.events)
  {
    hide StepCore;
    hide SingleType;
    hide MessageFile;
    hide MessageEnd;
    hide Separated;
    hide OpenIsMapped;
    hide Merged;
    hide Terminal;
    MergedState(c.files, MessageFile(msg));
    RefusedView(c, stream, started, msg);
    if MessageEnd(msg) == Clean {
      RefusedNotTerminal(c, stream, started, msg);
    }
    LifeKept(c.files, c.events, StepCore(c, stream, started, msg).0.files);
  }

  lemma LifeKept(files: Files, events: seq<Event>, files': Files)
    requires LifeInv(files, events) && files.Keys <= files'.Keys
    requires forall name :: name in files' ==> files'[name].name == name && !Terminal(files'[name].state)
    ensures LifeInv(files', events)
  {
    hide Terminal;
    hide StartsFile;
    hide EndsFile;
    hide Separated;
  }

  /** A single-Type message that is read to its end but carries no event reports no
      terminal state. */
  lemma RefusedNotTerminal(c: Core, stream: bool, started: bool, msg: string)
    requires SingleType(msg)
    requires StepCore(c, stream, started, msg).1 != Accepted && MessageEnd(msg) == Clean
    ensures !Terminal(MessageFile(msg).state)
  {
    hide FoldLines;
    hide SingleType;
    hide LinesOf;
    hide MergeFiles;
    hide Tally;
    hide Snapshot;
    SingleTypeMessage(msg, DONE);
    StepView(c, stream, started, msg);
  }

  lemma {:induction false} LifeRun(st: Session, msgs: seq<string>)
    requires forall i :: 0 <= i < |msgs| ==> SingleType(msgs[i])
    requires LifeInv(st.core.files, st.core.events)
    ensures var r := Run(st, msgs).core; LifeInv(r.files, r.events)
    decreases |msgs|
  {
    hide Process;
    hide LifeInv;
    hide SingleType;
    if msgs != [] {
      LifeStep(st, msgs[0]);
      LifeRun(Process(st, msgs[0]), msgs[1..]);
    }
  }

  /** Over any stream of single-Type messages, errors included: no file in a terminal
      state is in the map, and two File Start events of a name are separated by a
      File Stop, File Error or File Skip event of that name. */
  lemma FileLifecycle(st: Session, blobs: seq<string>)
    requires Fresh(st)
    requires forall i :: 0 <= i < |Messages(Concat(blobs))| ==> SingleType(Messages(Concat(blobs))[i])
    ensures var r := ReceiveAll(st, blobs).core;
            && (forall name :: name in r.files ==> !Terminal(r.files[name].state))
            && Separated(r.events)
  {
    hide Run;
    hide ReceiveAll;
    hide SingleType;
    hide Messages;
    Framing.ProcessedIsPrefix(st, blobs);
    var done := ReceiveAll(st, blobs).processed;
    assert forall i :: 0 <= i < |done| ==> done[i] == Messages(Concat(blobs))[i];
    LifeRun(st, done);
  }
}
