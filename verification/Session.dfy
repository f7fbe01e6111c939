/** The transfer session as an object: a message buffer, statistics, a map of
    mutable file records, and the management connection.  Each method is proved
    against the functions of `Engine` and `Commands`. */
module TransferSession {
  import opened Text
  import opened Management
  import opened Engine
  import opened LineEffects
  import opened Commands
  import opened Connection
  import Frames

  /** A mutable record about one file. */
  class FileStatistics {
    var name: string
    var state: FileState
    var errorCode: int
    var errorDescription: string
    var contiguousBytes: int
    var sizeBytes: int
    var startByte: int
    var endByte: int
    var writtenBytes: int
    var checksumType: string
    var checksum: string

    ghost function Value(): FileRecord
      reads this
    {
      FileRecord(name, state, errorCode, errorDescription, contiguousBytes, sizeBytes, startByte, endByte,
                 writtenBytes, checksumType, checksum)
    }

    constructor ()
      ensures Value() == NO_FILE
    {
      name, state, errorCode, errorDescription := "", NoFileState, 0, "";
      contiguousBytes, sizeBytes, startByte, endByte, writtenBytes := 0, 0, 0, 0, 0;
      checksumType, checksum := "", "";
    }

    /** A struct copy. */
    constructor Copy(from: FileStatistics)
      ensures Value() == from.Value()
    {
      name, state, errorCode, errorDescription := from.name, from.state, from.errorCode, from.errorDescription;
      contiguousBytes, sizeBytes, startByte := from.contiguousBytes, from.sizeBytes, from.startByte;
      endByte, writtenBytes := from.endByte, from.writtenBytes;
      checksumType, checksum := from.checksumType, from.checksum;
    }

    method SetNumber(f: FileNumber, n: int)
      modifies this
      ensures Value() == SetFileNumber(old(Value()), f, n)
    {
      match f
      case ContiguousBytes => contiguousBytes := n;
      case SizeBytes => sizeBytes := n;
      case StartByte => startByte := n;
      case EndByte => endByte := n;
      case WrittenBytes => writtenBytes := n;
    }

    /** The branch of mergeFileStats for an existing entry. */
    method Merge(m: FileStatistics)
      requires m != this
      modifies this
      ensures Value() == MergeRecord(old(Value()), m.Value())
    {
      errorCode := m.errorCode;
      state := m.state;
      checksumType := m.checksumType;
      checksum := m.checksum;
      MergeNumbers(m);
    }

    /** Zero means that the message does not report the number. */
    method MergeNumbers(m: FileStatistics)
      requires m != this
      modifies this`contiguousBytes, this`sizeBytes, this`startByte, this`endByte, this`writtenBytes
      ensures contiguousBytes == Keep(m.contiguousBytes, old(contiguousBytes))
      ensures sizeBytes == Keep(m.sizeBytes, old(sizeBytes))
      ensures startByte == Keep(m.startByte, old(startByte))
      ensures endByte == Keep(m.endByte, old(endByte))
      ensures writtenBytes == Keep(m.writtenBytes, old(writtenBytes))
    {
      if m.contiguousBytes != 0 { contiguousBytes := m.contiguousBytes; }
      if m.sizeBytes != 0 { sizeBytes := m.sizeBytes; }
      if m.startByte != 0 { startByte := m.startByte; }
      if m.endByte != 0 { endByte := m.endByte; }
      if m.writtenBytes != 0 { writtenBytes := m.writtenBytes; }
    }
  }

  /** The event of notifyStreamErr.  Its file record is an object that others may still change. */
  datatype LiveEvent = LiveEvent(eventType: EventType, session: Stats, file: FileStatistics)

  /** The file map after notifyStreamErr. */
  function Described(files: Files, dest: string, description: string): Files {
    if dest in files then files[dest := files[dest].(errorDescription := description)] else files
  }

  class LiveSession {
    const persistent: bool
    const stream: bool
    var msgBuffer: string
    var stats: Stats
    var chunkSize: int
    var isRemote: bool
    var fileStats: map<string, FileStatistics>
    var locked: bool
    var complete: bool
    var mgmtConn: Conn?

    // The history of the session.
    ghost var closes: nat
    ghost var completions: nat
    ghost var workers: seq<int>
    ghost var processed: seq<string>
    ghost var outcomes: seq<Outcome>
    ghost var events: seq<Event>
    ghost var snapshots: seq<FileStatistics?>   // the file object of each event
    ghost var streamErrors: seq<LiveEvent>      // the events of notifyStreamErr
    ghost var sent: seq<Frames.Frame>

    ghost function FileView(): Files
      reads this, fileStats.Values
    {
      map name | name in fileStats :: fileStats[name].Value()
    }

    ghost function AbsCore(): Core
      reads this, fileStats.Values
    {
      Core(stats, chunkSize, isRemote, FileView(), Latch(complete, closes, completions), workers, events)
    }

    ghost function Abs(): Engine.Session
      reads this, fileStats.Values
    {
      Engine.Session(persistent, stream, mgmtConn != null, locked, msgBuffer, AbsCore(), processed, outcomes, sent)
    }

    /** Entries are distinct objects, kept under their own names. */
    ghost predicate ValidFiles()
      reads this, fileStats.Values
    {
      && (forall m, n :: m in fileStats && n in fileStats && fileStats[m] == fileStats[n] ==> m == n)
      && WellNamed()
    }

    ghost predicate WellNamed()
      reads this, fileStats.Values
    {
      forall n :: n in fileStats ==> fileStats[n].name == n
    }

    /** The file object of each event is a copy of its own, apart from the live
        entries, and still holds the record it was emitted with. */
    ghost predicate ValidSnapshots()
      reads this, fileStats.Values, snapshots
    {
      && |snapshots| == |events|
      && (forall i :: 0 <= i < |snapshots| ==>
            match events[i].file
            case None => snapshots[i] == null
            case Some(r) => snapshots[i] != null && snapshots[i] !in fileStats.Values && snapshots[i].Value() == r)
    }

    ghost predicate Valid()
      reads this, fileStats.Values, snapshots
    {
      ValidFiles() && ValidSnapshots()
    }

    constructor (persistent: bool, stream: bool, stats: Stats, chunkSize: int)
      requires stats.filesComplete == stats.filesSkipped == stats.filesFailed == 0
      ensures Valid() && Fresh(Abs()) && Abs().core.stats == stats && Abs().core.chunkSize == chunkSize
      ensures this.persistent == persistent && this.stream == stream
    {
      this.persistent, this.stream := persistent, stream;
      this.stats, this.chunkSize := stats, chunkSize;
      msgBuffer, isRemote, fileStats := "", false, map[];
      locked, complete, mgmtConn := false, false, null;
      closes, completions, workers := 0, 0, [];
      processed, outcomes, events, snapshots, sent, streamErrors := [], [], [], [], [], [];
      new;
      assert FileView() == map[];
    }

    /** The session part of the draft a message is folded into. */
    ghost predicate DraftIs(d: Draft, file: FileStatistics)
      reads this, file
    {
      stats == d.stats && chunkSize == d.chunkSize && isRemote == d.isRemote && file.Value() == d.file
    }

    /** One key and its value.  The message's own record is `file`. */
    method UpdateStatsFromMsg(key: string, val: string, file: FileStatistics, ghost d: Draft) returns (ok: bool)
      requires DraftIs(d, file)
      modifies this`stats, this`chunkSize, this`isRemote, file
      ensures ok <==> Decode(FieldOf(key), val).Some?
      ensures ok ==> DraftIs(Apply(d, Decode(FieldOf(key), val).value), file)
      ensures !ok ==> DraftIs(d, file)
      ensures LineTook(old(stats), stats, chunkSize, isRemote, file.Value(), key, val, ok)
    {
      hide FieldOf;
      hide Decode;
      hide StateOfType;
      hide FileStateOfType;
      hide LineTook;
      LineTakes(d, key, val);
      match Decode(FieldOf(key), val)
      case None => return false;
      case Some(e) => Perform(e, file, d); return true;
    }

    /** A Type line: session state, file counters and file state. */
    method RecordType(t: MessageType, file: FileStatistics)
      modifies this`stats, file
      ensures stats == CountType(old(stats), t)
      ensures file.Value() == ApplyFile(old(file.Value()), TypeIs(t))
    {
      stats := stats.(state := StateOfType(t));
      if t == STOP || t == SKIP { stats := stats.(filesComplete := stats.filesComplete + 1); }
      if t == SKIP { stats := stats.(filesSkipped := stats.filesSkipped + 1); }
      if t == FILEERROR { stats := stats.(filesFailed := stats.filesFailed + 1); }
      file.state := FileStateOfType(t, file.state);
    }

    method Perform(e: Effect, file: FileStatistics, ghost d: Draft)
      requires DraftIs(d, file)
      modifies this`stats, this`chunkSize, this`isRemote, file
      ensures DraftIs(Apply(d, e), file)
    {
      hide CountType;
      hide FileStateOfType;
      hide SetFileNumber;
      match e
      case Nothing =>
      case TypeIs(t) => RecordType(t, file);
      case PolicyIs(p) => stats := stats.(policy := p);
      case CodeIs(n) => stats := stats.(errorCode := n); file.errorCode := n;
      case DescriptionIs(s) => stats := stats.(errorDescription := s); file.errorDescription := s;
      case RemoteIs(b) => stats := stats.(remote := b); isRemote := b;
      case EncryptionIs(b) => stats := stats.(encryption := b);
      case ChunkSizeIs(n) => chunkSize := n;
      case NumberIs(f, n) => stats := stats.(numbers := stats.numbers[f := n]);
      case TextIs(f, s) => stats := stats.(texts := stats.texts[f := s]);
      case FileNameIs(s) => file.name := s;
      case FileNumberIs(f, n) => file.SetNumber(f, n);
      case FileChecksumIs(s) => file.checksum := s;
      case FileChecksumTypeIs(s) => file.checksumType := s;
    }

    /** Merges the record of a message; returns a copy of the merged entry, or null
        when the message names no file, and whether the entry is new. */
    method MergeFileStats(m: FileStatistics) returns (copy: FileStatistics?, created: bool)
      requires ValidFiles() && m !in fileStats.Values
      modifies this`fileStats, fileStats.Values
      ensures ValidFiles() && fileStats.Values <= old(fileStats.Values) + {m}
      ensures forall n :: n in old(fileStats) ==> n in fileStats && fileStats[n] == old(fileStats)[n]
      ensures FileView() == MergeFiles(old(FileView()), old(m.Value()))
      ensures created == IsNewFile(old(FileView()), old(m.Value()))
      ensures match Snapshot(old(FileView()), old(m.Value()))
              case None => copy == null
              case Some(r) => copy != null && fresh(copy) && copy.Value() == r
    {
      if m.name == "" {
        return null, false;
      }
      if m.name in fileStats {
        copy := MergeExisting(m);
        created := false;
      } else {
        fileStats := fileStats[m.name := m];
        assert FileView() == old(FileView())[m.name := m.Value()];
        copy := new FileStatistics.Copy(m);
        created := true;
      }
    }

    /** The branch for a file with an entry. */
    method MergeExisting(m: FileStatistics) returns (copy: FileStatistics)
      requires ValidFiles() && m !in fileStats.Values && m.name in fileStats
      modifies fileStats[m.name]
      ensures ValidFiles() && fresh(copy)
      ensures copy.Value() == MergeRecord(old(FileView())[m.name], m.Value())
      ensures FileView() == old(FileView())[m.name := copy.Value()]
    {
      ghost var before := FileView();
      var existing := fileStats[m.name];
      existing.Merge(m);
      assert FileView() == before[m.name := MergeRecord(before[m.name], m.Value())];
      copy := new FileStatistics.Copy(existing);
    }

    /** One line: a key and value, the FASPMGR line, or an error. */
    method HandleLine(line: string, msgTypeSoFar: string, file: FileStatistics, ghost d: Draft)
      returns (msgType: string, ok: bool)
      requires DraftIs(d, file) && TypeOf(msgTypeSoFar) == d.last
      requires ReadLine(line) != Crash
      modifies this`stats, this`chunkSize, this`isRemote, file
      ensures match StepOf(ReadLine(line))
              case Good(e) => ok && DraftIs(Apply(d, e), file) && TypeOf(msgType) == Apply(d, e).last
              case _ => !ok && DraftIs(d, file)
    {
      hide LineTook;
      hide TypeOf;
      hide ApplyStats;
      hide ApplyFile;
      hide FieldOf;
      hide Decode;
      hide Contains;
      msgType := msgTypeSoFar;
      var index := Index(line, ':');
      if index != -1 {
        var key, val := line[..index], line[index + 2..];
        if key == "Type" {
          msgType := val;
        }
        ok := UpdateStatsFromMsg(key, val, file, d);
        TypeEffect(key, val);
      } else {
        ok := Contains(line, "FASPMGR");
        ApplyNothing(d);
      }
    }

    /** The line loop of processSingleMessage. */
    method ReadMessage(message: string) returns (file: FileStatistics, msgType: string, ok: bool)
      requires FoldLines(DraftOf(AbsCore()), LinesOf(message)).1 != OutOfRange
      modifies this`stats, this`chunkSize, this`isRemote
      ensures fresh(file)
      ensures var (d, end) := FoldLines(DraftOf(old(AbsCore())), LinesOf(message));
              DraftIs(d, file) && ok == (end == Clean) && (ok ==> TypeOf(msgType) == d.last)
    {
      hide FoldLines;
      hide TypeOf;
      hide Apply;
      hide StepOf;
      hide ReadLine;
      msgType := "";
      file := new FileStatistics();
      var msgLines := Split(message);
      ghost var lines := LinesOf(message);
      ghost var d := DraftOf(AbsCore());
      ghost var result := FoldLines(d, lines);
      NoType();
      assert lines[0..] == lines;
      for i := 0 to |msgLines|
        invariant fresh(file) && DraftIs(d, file) && TypeOf(msgType) == d.last
        invariant FoldLines(d, lines[i..]) == result
      {
        FoldNext(d, lines, i);
        CrashStep(lines[i]);
        msgType, ok := HandleLine(msgLines[i], msgType, file, d);
        if !ok {
          return;
        }
        d := Apply(d, StepOf(lines[i]).effect);
      }
      FoldDone(d, lines);
      ok := true;
    }

    /** close(sess.complete): closing a closed channel panics. */
    method CloseComplete()
      requires Valid() && !complete
      modifies this`complete, this`closes
      ensures Valid() && FileView() == old(FileView())
      ensures complete && closes == old(closes) + 1
    {
      complete := true;
      closes := closes + 1;
    }

    ghost function RecordOf(file: FileStatistics?): Option<FileRecord>
      reads file
    {
      if file == null then None else Some(file.Value())
    }

    /** Hands an event with its own copy of the file record to the listeners. */
    method Emit(eventType: EventType, file: FileStatistics?)
      requires Valid()
      requires file != null ==> file !in fileStats.Values
      modifies this`events, this`snapshots
      ensures Valid() && FileView() == old(FileView())
      ensures events == old(events) + [Event(eventType, stats, RecordOf(file))] && snapshots == old(snapshots) + [file]
    {
      events := events + [Event(eventType, stats, RecordOf(file))];
      snapshots := snapshots + [file];
    }

    /** Forgets the entry of a file that has reached a terminal state. */
    method DropFile(file: FileStatistics?)
      requires Valid()
      modifies this`fileStats
      ensures Valid() && fileStats.Values <= old(fileStats.Values)
      ensures forall n :: n in fileStats ==> n in old(fileStats) && fileStats[n] == old(fileStats)[n]
      ensures FileView() == DropFinished(old(FileView()), RecordOf(file))
    {
      if file != null && Terminal(file.state) {
        ghost var before := FileView();
        fileStats := fileStats - {file.name};
        assert FileView() == before - {file.name};
      }
    }

    /** A SESSION message starts a stream worker with the current chunk size. */
    method StartWorker(eventType: EventType)
      requires Valid()
      requires eventType == SessionStartEvent && stream ==> mgmtConn != null   // the worker is nil before
      modifies this`workers
      ensures Valid() && FileView() == old(FileView())
      ensures workers == if eventType == SessionStartEvent && stream then old(workers) + [chunkSize] else old(workers)
    {
      if eventType == SessionStartEvent && stream {
        workers := workers + [chunkSize];
      }
    }

    /** The call of onComplete. */
    ghost method NotifyComplete()
      requires Valid()
      modifies this`completions
      ensures Valid() && FileView() == old(FileView()) && completions == old(completions) + 1
    {
      completions := completions + 1;
    }

    method LatchCompletion()
      requires Valid()
      modifies this`complete, this`closes, this`completions
      ensures Valid() && FileView() == old(FileView())
      ensures Latch(complete, closes, completions) == (
                var l := Latch(old(complete), old(closes), old(completions));
                if FinishedState(stats.state) then Trip(l) else l)
    {
      hide FileView;
      hide ValidFiles;
      hide ValidSnapshots;
      if FinishedState(stats.state) {
        NotifyComplete();
        if !complete {
          CloseComplete();
        }
      }
    }

    /** What an accepted message leads to: the stream worker is started on SESSION,
        listeners get the event, a finished file is dropped, completion is latched. */
    method DeliverEvent(eventType: EventType, file: FileStatistics?)
      requires Valid()
      requires eventType == SessionStartEvent && stream ==> mgmtConn != null
      requires file != null ==> file !in fileStats.Values
      modifies this`workers, this`events, this`snapshots, this`fileStats, this`complete, this`closes, this`completions
      ensures Valid() && fileStats.Values <= old(fileStats.Values)
      ensures forall n :: n in fileStats ==> n in old(fileStats) && fileStats[n] == old(fileStats)[n]
      ensures AbsCore() == Deliver(old(AbsCore()), stream, eventType, RecordOf(file))
      ensures snapshots == old(snapshots) + [file]
    {
      hide FinishedState;
      hide DropFinished;
      hide Trip;
      hide FileView;
      hide ValidFiles;
      hide ValidSnapshots;
      StartWorker(eventType);
      Emit(eventType, file);
      DropFile(file);
      LatchCompletion();
    }

    ghost method Log(message: string, o: Outcome)
      requires Valid()
      modifies this`processed, this`outcomes
      ensures Valid() && FileView() == old(FileView())
      ensures processed == old(processed) + [message] && outcomes == old(outcomes) + [o]
    {
      processed := processed + [message];
      outcomes := outcomes + [o];
    }

    /** MergeFileStats in terms of the whole session. */
    method MergeIntoSession(m: FileStatistics) returns (copy: FileStatistics?, created: bool)
      requires Valid() && m !in fileStats.Values && m !in snapshots
      modifies this`fileStats, fileStats.Values
      ensures Valid() && fileStats.Values <= old(fileStats.Values) + {m}
      ensures forall n :: n in old(fileStats) ==> n in fileStats && fileStats[n] == old(fileStats)[n]
      ensures AbsCore() == old(AbsCore()).(files := MergeFiles(old(FileView()), old(m.Value())))
      ensures created == IsNewFile(old(FileView()), old(m.Value()))
      ensures RecordOf(copy) == Snapshot(old(FileView()), old(m.Value()))
      ensures copy != null ==> fresh(copy) && copy !in fileStats.Values
    {
      hide MergeFiles;
      hide IsNewFile;
      hide Snapshot;
      hide ValidFiles;
      copy, created := MergeFileStats(m);
    }

    /** The rest of processSingleMessage, for a message read to its end. */
    method FinishMessage(message: string, file: FileStatistics, msgType: string, ghost before: Core, ghost d: Draft)
      returns (ok: bool)
      requires Valid() && file !in fileStats.Values && file !in snapshots
      requires AbsCore() == WithDraft(before, d) && file.Value() == d.file && TypeOf(msgType) == d.last
      requires Conclude(before, stream, mgmtConn != null, d).1 != Panicked
      modifies this`fileStats, fileStats.Values
      modifies this`workers, this`events, this`snapshots, this`complete, this`closes, this`completions
      ensures Valid() && fileStats.Values <= old(fileStats.Values) + {file}
      ensures old(snapshots) <= snapshots
      ensures forall n :: n in old(fileStats) && n in fileStats ==> fileStats[n] == old(fileStats)[n]
      ensures (AbsCore(), if ok then Accepted else Rejected) == Conclude(before, stream, mgmtConn != null, d)
    {
      hide TypeOf;
      hide MergeFiles;
      hide IsNewFile;
      hide Snapshot;
      hide Deliver;
      hide EventTypeOf;
      hide ValidFiles;
      hide ValidSnapshots;
      var copy, created := MergeIntoSession(file);
      match EventTypeOf(TypeOf(msgType), created)
      case None =>
        ok := false;
      case Some(eventType) =>
        DeliverEvent(eventType, copy);
        ok := true;
    }

    /** Reading the lines of a message touches no file entry. */
    method ReadIntoSession(message: string) returns (file: FileStatistics, msgType: string, ok: bool)
      requires Valid()
      requires FoldLines(DraftOf(AbsCore()), LinesOf(message)).1 != OutOfRange
      modifies this`stats, this`chunkSize, this`isRemote
      ensures Valid() && fresh(file)
      ensures var (d, end) := FoldLines(DraftOf(old(AbsCore())), LinesOf(message));
              AbsCore() == WithDraft(old(AbsCore()), d) && file.Value() == d.file
              && ok == (end == Clean) && (ok ==> TypeOf(msgType) == d.last)
    {
      hide FoldLines;
      hide LinesOf;
      hide TypeOf;
      file, msgType, ok := ReadMessage(message);
      assert FileView() == old(FileView());
    }

    /** processSingleMessage, in terms of what it changes. */
    method ProcessCore(message: string) returns (ok: bool)
      requires Valid()
      requires StepCore(AbsCore(), stream, mgmtConn != null, message).1 != Panicked
      modifies this`stats, this`chunkSize, this`isRemote, this`fileStats, fileStats.Values
      modifies this`workers, this`events, this`snapshots, this`complete, this`closes, this`completions
      ensures Valid() && fresh(fileStats.Values - old(fileStats.Values))
      ensures old(snapshots) <= snapshots
      ensures forall n :: n in old(fileStats) && n in fileStats ==> fileStats[n] == old(fileStats)[n]
      ensures (AbsCore(), if ok then Accepted else Rejected) ==
              StepCore(old(AbsCore()), stream, mgmtConn != null, message)
    {
      hide FoldLines;
      hide LinesOf;
      hide TypeOf;
      hide Conclude;
      hide AbsCore;
      hide ValidFiles;
      hide ValidSnapshots;
      ghost var before := AbsCore();
      var file, msgType, good := ReadIntoSession(message);
      if good {
        ok := FinishMessage(message, file, msgType, before, FoldLines(DraftOf(before), LinesOf(message)).0);
      } else {
        ok := false;
      }
    }

    /** processSingleMessage */
    method ProcessSingleMessage(message: string) returns (ok: bool)
      requires Valid()
      requires StepCore(AbsCore(), stream, mgmtConn != null, message).1 != Panicked
      modifies this, fileStats.Values
      ensures Valid() && mgmtConn == old(mgmtConn)
      ensures fresh(fileStats.Values - old(fileStats.Values)) && old(snapshots) <= snapshots
      ensures streamErrors == old(streamErrors)
      ensures forall n :: n in old(fileStats) && n in fileStats ==> fileStats[n] == old(fileStats)[n]
      ensures Abs() == Process(old(Abs()), message)
      ensures ok == LastAccepted(Abs())
    {
      hide StepCore;
      hide FileView;
      hide ValidFiles;
      hide ValidSnapshots;
      ok := ProcessCore(message);
      Log(message, if ok then Accepted else Rejected);
    }

    /** One message off the front of the buffer. */
    method NextMessage(index: nat) returns (ok: bool)
      requires Valid() && IndexBlank(msgBuffer) == index && DrainSafe(Abs())
      modifies this, fileStats.Values
      ensures Valid() && mgmtConn == old(mgmtConn) && |msgBuffer| < |old(msgBuffer)|
      ensures fresh(fileStats.Values - old(fileStats.Values)) && old(snapshots) <= snapshots
      ensures streamErrors == old(streamErrors)
      ensures Abs() == Process(old(Abs()).(buffer := old(msgBuffer)[index + 2..]), old(msgBuffer)[..index])
      ensures ok == LastAccepted(Abs())
    {
      hide StepCore;
      hide AbsCore;
      hide ValidFiles;
      hide ValidSnapshots;
      var currMsg := msgBuffer[..index];
      TakeMessage(index);
      ok := ProcessSingleMessage(currMsg);
    }

    method TakeMessage(index: nat)
      requires Valid() && index + 2 <= |msgBuffer|
      modifies this`msgBuffer
      ensures Valid() && Abs() == old(Abs()).(buffer := old(msgBuffer)[index + 2..])
    {
      assert FileView() == old(FileView()) by {
        assert forall n :: n in fileStats ==> fileStats[n].Value() == old(fileStats[n].Value());
      }
      msgBuffer := msgBuffer[index + 2..];
    }

    /** The loop of receiveManagementBlob. */
    method DrainBuffer() returns (ok: bool)
      requires Valid() && DrainSafe(Abs())
      modifies this, fileStats.Values
      ensures Valid() && mgmtConn == old(mgmtConn)
      ensures fresh(fileStats.Values - old(fileStats.Values)) && old(snapshots) <= snapshots
      ensures streamErrors == old(streamErrors)
      ensures Abs() == Drain(old(Abs())) && ok == DrainOk(old(Abs()))
    {
      hide Process;
      hide Drain;
      hide DrainOk;
      hide DrainSafe;
      hide AbsCore;
      hide ValidFiles;
      hide ValidSnapshots;
      ghost var start := Abs();
      while true
        invariant Valid() && mgmtConn == old(mgmtConn)
        invariant fresh(fileStats.Values - old(fileStats.Values)) && old(snapshots) <= snapshots
        invariant streamErrors == old(streamErrors)
        invariant Drain(Abs()) == Drain(start) && DrainOk(Abs()) == DrainOk(start) && DrainSafe(Abs())
        decreases |msgBuffer|
      {
        var index := IndexBlank(msgBuffer);
        DrainUnfold(Abs());
        if index == -1 {
          return true;
        }
        ok := NextMessage(index);
        if !ok {
          return;
        }
      }
    }

    /** receiveManagementBlob: appends the blob and processes complete messages until
        none is left or one errs.  The file records handed out with earlier events
        keep their values. */
    method ReceiveManagementBlob(blob: string) returns (ok: bool)
      requires Valid() && DrainSafe(Abs().(buffer := msgBuffer + blob))
      modifies this, fileStats.Values
      ensures Valid() && mgmtConn == old(mgmtConn)
      ensures fresh(fileStats.Values - old(fileStats.Values)) && old(snapshots) <= snapshots
      ensures streamErrors == old(streamErrors)
      ensures forall s :: s in old(snapshots) && s != null ==> s.Value() == old(s.Value())
      ensures forall e :: e in old(streamErrors) && e.file !in old(fileStats.Values) ==>
                e.file !in fileStats.Values && e.file.Value() == old(e.file.Value())
      ensures Abs() == Receive(old(Abs()), blob)
      ensures ok == DrainOk(old(Abs()).(buffer := old(msgBuffer) + blob))
    {
      hide Drain;
      hide DrainOk;
      hide DrainSafe;
      hide AbsCore;
      hide ValidFiles;
      hide ValidSnapshots;
      SnapshotsApart();
      AppendBlob(blob);
      ok := DrainBuffer();
    }

    method AppendBlob(blob: string)
      requires Valid()
      modifies this`msgBuffer
      ensures Valid() && Abs() == old(Abs()).(buffer := old(msgBuffer) + blob)
    {
      assert FileView() == old(FileView());
      msgBuffer := msgBuffer + blob;
      assert FileView() == old(FileView());
    }

    method DescribeEntry(name: string, description: string)
      requires Valid() && name in fileStats
      modifies fileStats[name]
      ensures Valid() && fileStats[name].errorDescription == description
      ensures FileView() == old(FileView())[name := old(FileView())[name].(errorDescription := description)]
    {
      ghost var before := FileView();
      var file := fileStats[name];
      file.errorDescription := description;
      assert FileView() == before[name := before[name].(errorDescription := description)];
    }

    method DescribeSession(description: string)
      requires Valid()
      modifies this`stats
      ensures Valid() && FileView() == old(FileView())
      ensures stats == old(stats).(errorDescription := description)
    {
      stats := stats.(errorDescription := description);
    }

    /** notifyStreamErr: the description is written into the live entry, and the File Error
        event carries that entry itself, not a copy; without an entry it carries a
        new record that is not added to the map. */
    method NotifyStreamErr(description: string, dest: string) returns (event: LiveEvent)
      requires Valid()
      modifies this`stats, this`streamErrors, fileStats.Values
      ensures Valid() && stats == old(stats).(errorDescription := description)
      ensures streamErrors == old(streamErrors) + [event]
      ensures event.eventType == FileErrorEvent && event.session == stats
      ensures event.file.name == dest && event.file.errorDescription == description
      ensures FileView() == Described(old(FileView()), dest, description)
      ensures if dest in fileStats then event.file == fileStats[dest]
              else fresh(event.file) && event.file !in fileStats.Values
    {
      hide FileView;
      hide ValidFiles;
      hide ValidSnapshots;
      InView(dest);
      DescribeSession(description);
      var file;
      if dest in fileStats {
        file := fileStats[dest];
        DescribeEntry(dest, description);
        NamedByKey(dest);
      } else {
        file := new FileStatistics();
        file.name := dest;
        file.errorDescription := description;
      }
      event := LiveEvent(FileErrorEvent, stats, file);
      RecordStreamError(event);
    }

    /** What becomes of the record of such an event when the next message is processed: a
        live entry goes on changing as long as it is kept, an unstored record stays
        as it is. */
    method NotifyThenProcess(description: string, dest: string, message: string) returns (event: LiveEvent)
      requires Valid()
      requires StepCore(AbsCore().(stats := stats.(errorDescription := description),
                                   files := Described(FileView(), dest, description)),
                        stream, mgmtConn != null, message).1 != Panicked
      modifies this, fileStats.Values
      ensures Valid() && event in streamErrors
      ensures dest in old(fileStats) && dest in fileStats ==> event.file.Value() == FileView()[dest]
      ensures dest in old(fileStats) ==>
                FileView() == StepCore(old(AbsCore()).(stats := old(stats).(errorDescription := description),
                                                       files := Described(old(FileView()), dest, description)),
                                       stream, mgmtConn != null, message).0.files
      ensures dest !in old(fileStats) ==>
                event.file !in fileStats.Values
                && event.file.name == dest && event.file.errorDescription == description
    {
      hide StepCore;
      hide FileView;
      hide ValidFiles;
      hide ValidSnapshots;
      event := NotifyStreamErr(description, dest);
      var ok := ProcessSingleMessage(message);
      ViewOf(dest);
    }

    ghost method RecordStreamError(event: LiveEvent)
      requires Valid()
      modifies this`streamErrors
      ensures Valid() && FileView() == old(FileView()) && streamErrors == old(streamErrors) + [event]
    {
      streamErrors := streamErrors + [event];
    }

    lemma NamedByKey(name: string)
      requires Valid() && name in fileStats
      ensures fileStats[name].name == name
    {
    }

    lemma ViewOf(name: string)
      ensures name in fileStats ==> name in FileView() && FileView()[name] == fileStats[name].Value()
    {
    }

    lemma InView(name: string)
      ensures name in FileView() <==> name in fileStats
    {
    }

    /** The objects handed out with events are not entries of the map. */
    lemma SnapshotsApart()
      requires Valid()
      ensures forall s :: s in snapshots && s != null ==> s !in fileStats.Values
    {
    }

    /** setManagementConn: the connection is taken once; later ones are refused. */
    method SetManagementConn(conn: Conn) returns (ok: bool)
      requires Valid()
      modifies this`mgmtConn
      ensures Valid() && Abs() == Connect(old(Abs()))
      ensures ok == (old(mgmtConn) == null) && mgmtConn == (if ok then conn else old(mgmtConn))
    {
      ghost var before := FileView();
      if mgmtConn != null {
        return false;
      }
      mgmtConn := conn;
      assert FileView() == before;
      return true;
    }

    /** sendManagementMessage */
    method SendManagementMessage(message: string) returns (ok: bool)
      requires mgmtConn != null
      modifies mgmtConn
      ensures Appended(old(mgmtConn.wire), mgmtConn.wire, message, ok)
      ensures mgmtConn.failures == old(mgmtConn.failures) + CountIf(!ok)
    {
      ghost var before := mgmtConn.wire;
      var bytesWritten := 0;
      while bytesWritten < |message|
        invariant 0 <= bytesWritten <= |message|
        invariant mgmtConn.wire == before + message[..bytesWritten] && mgmtConn.failures == old(mgmtConn.failures)
        decreases |message| - bytesWritten
      {
        var n, good := mgmtConn.Write(message[bytesWritten..]);
        Advance(before, message, bytesWritten, n);
        if !good {
          assert mgmtConn.wire == before + message[..bytesWritten + n];
          return false;
        }
        bytesWritten := bytesWritten + n;
      }
      assert message[..bytesWritten] == message;
      return true;
    }

    /** What a call writes: nothing when refused, and its frame, or part of it when
        a write of the connection fails, otherwise. */
    twostate predicate Wrote(before: Engine.Session, c: Command, r: Result)
      reads this, mgmtConn
    {
      mgmtConn == old(mgmtConn) &&
      match Check(before, c)
      case Some(why) => r == RefusedCall(why) && (mgmtConn != null ==> unchanged(mgmtConn))
      case None =>
        && mgmtConn != null && (r == Sent || r == WriteFailed)
        && Appended(old(mgmtConn.wire), mgmtConn.wire, Frames.Encode(FrameOf(before, c)), r == Sent)
        && mgmtConn.failures == old(mgmtConn.failures) + CountIf(r == WriteFailed)
    }

    /** Notes the frame of a call, and locks the session for a Linger frame. */
    method RecordFrame(ghost frame: Frames.Frame, lock: bool, ghost c: Command)
      requires Valid() && Check(Abs(), c).None? && frame == FrameOf(Abs(), c) && lock == c.Lock?
      modifies this`sent, this`locked
      ensures Valid() && Abs() == Issue(old(Abs()), c)
    {
      ghost var before := FileView();
      locked := locked || lock;
      sent := sent + [frame];
      assert FileView() == before;
    }

    /** Logs and sends the message of a call that passed its checks. */
    method SendCommand(message: string, lock: bool, ghost frame: Frames.Frame, ghost c: Command) returns (r: Result)
      requires Valid() && Check(Abs(), c).None? && frame == FrameOf(Abs(), c) && lock == c.Lock?
      requires message == Frames.Encode(frame)
      modifies this`sent, this`locked, mgmtConn
      ensures Valid() && Abs() == Issue(old(Abs()), c)
      ensures Wrote(old(Abs()), c, r)
    {
      hide Frames.Encode;
      hide Issue;
      hide FrameOf;
      hide ValidFiles;
      hide ValidSnapshots;
      assert mgmtConn != null;
      RecordFrame(frame, lock, c);
      hide Check;
      hide FileView;
      var ok := SendManagementMessage(message);
      r := if ok then Sent else WriteFailed;
    }

    method AddFileSource(source: string, dest: string, startByte: int, endByte: int) returns (r: Result)
      requires Valid()
      modifies this`sent, this`locked, mgmtConn
      ensures var c := Command.AddFileSource(source, dest, startByte, endByte);
              Valid() && Abs() == Issue(old(Abs()), c) && Wrote(old(Abs()), c, r)
    {
      hide Frames.Encode;
      if !persistent { return RefusedCall(NonPersistent); }
      if mgmtConn == null { return RefusedCall(NotStarted); }
      if locked { return RefusedCall(AlreadyLocked); }
      if complete { return RefusedCall(AlreadyComplete); }
      var message := StartMessage(source, dest, startByte, endByte);
      r := SendCommand(message, false, Frames.Start(source, dest, startByte, endByte),
                       Command.AddFileSource(source, dest, startByte, endByte));
    }

    method SetRate(target: int, min: int, policy: Option<Policy>) returns (r: Result)
      requires Valid()
      modifies this`sent, this`locked, mgmtConn
      ensures var c := Command.SetRate(target, min, policy);
              Valid() && Abs() == Issue(old(Abs()), c) && Wrote(old(Abs()), c, r)
    {
      hide Frames.Encode;
      if mgmtConn == null { return RefusedCall(NotStarted); }
      if locked { return RefusedCall(AlreadyLocked); }
      if complete { return RefusedCall(AlreadyComplete); }
      if policy.None? { return RefusedCall(BadPolicy); }
      var message := "FASPMGR 2\nType: RATE\nRate: " + PrintInt(target) + "\nMinRate: " + PrintInt(min)
                     + "\nAdaptive: " + Frames.ModeText(ModeOf(policy.value)) + "\n\n";
      Frames.RateTextIs(target, min, ModeOf(policy.value));
      r := SendCommand(message, false, Frames.Rate(target, min, ModeOf(policy.value)),
                       Command.SetRate(target, min, policy));
    }

    method CancelTransfer() returns (r: Result)
      requires Valid()
      modifies this`sent, this`locked, mgmtConn
      ensures var c := Command.CancelTransfer;
              Valid() && Abs() == Issue(old(Abs()), c) && Wrote(old(Abs()), c, r)
    {
      hide Frames.Encode;
      if mgmtConn == null { return RefusedCall(NotStarted); }
      if complete { return RefusedCall(AlreadyComplete); }
      Frames.DoneText();
      if persistent {
        r := SendCommand("FASPMGR 2\nType: DONE\n\n", false, Frames.Done, Command.CancelTransfer);
      } else {
        r := SendCommand("FASPMGR 2\nType: CANCEL\n\n", false, Frames.Cancel, Command.CancelTransfer);
      }
    }

    /** lock: the session is locked even when the Linger frame cannot be written. */
    method LockSession() returns (r: Result)
      requires Valid()
      modifies this`sent, this`locked, mgmtConn
      ensures var c := Command.Lock;
              Valid() && Abs() == Issue(old(Abs()), c) && Wrote(old(Abs()), c, r)
    {
      hide Frames.Encode;
      if !persistent && !stream { return RefusedCall(NotLockable); }
      if mgmtConn == null { return RefusedCall(NotStarted); }
      if locked { return RefusedCall(AlreadyLocked); }
      if complete { return RefusedCall(AlreadyComplete); }
      Frames.LingerText();
      r := SendCommand("FASPMGR 2\nType: DONE\nOperation: Linger\n\n", true, Frames.Linger, Command.Lock);
    }
  }

  /** The START message, with a byte range only if one of its ends is given. */
  method StartMessage(source: string, dest: string, startByte: int, endByte: int) returns (message: string)
    ensures message == Frames.Encode(Frames.Start(source, dest, startByte, endByte))
  {
    hide Frames.Encode;
    hide PrintInt;
    message := "FASPMGR 2\nType: START\nSource: " + source + "\nDestination: " + dest;
    ghost var head := message;
    ghost var range := "";
    if startByte != 0 || endByte != 0 {
      var left, right := "", "";
      if startByte != 0 {
        left := PrintInt(startByte);
      }
      if endByte != 0 {
        right := PrintInt(endByte);
      }
      range := "\nFileBytes: " + (left + ":" + right);
      message := message + "\nFileBytes: " + (left + ":" + right);
      Assoc(head, "\nFileBytes: ", left + ":" + right);
    } else {
      assert head + "" == head;
    }
    message := message + "\n\n";
    Frames.StartText(source, dest, startByte, endByte);
  }

  /** One turn of the loop of receiveManagementBlob. */
  lemma DrainUnfold(st: Engine.Session)
    ensures var i := IndexBlank(st.buffer);
            if i == -1 then Drain(st) == st && DrainOk(st)
            else
              var next := Process(st.(buffer := st.buffer[i + 2..]), st.buffer[..i]);
              && Drain(st) == (if LastAccepted(next) then Drain(next) else next)
              && DrainOk(st) == (LastAccepted(next) && DrainOk(next))
              && (DrainSafe(st) && LastAccepted(next) ==> DrainSafe(next))
  {
    hide Process;
    hide IndexBlank;
  }

  lemma CrashStep(line: Line)
    ensures line == Crash <==> StepOf(line) == Crashed
  {
    hide FieldOf;
    hide Decode;
  }

  lemma NoType()
    ensures TypeOf("") == None
  {
  }

  /** One step of the fold over lines. */
  lemma FoldNext(d: Draft, lines: seq<Line>, i: nat)
    requires i < |lines|
    ensures FoldLines(d, lines[i..]) ==
            match StepOf(lines[i])
            case Good(e) => FoldLines(Apply(d, e), lines[i + 1..])
            case Refused => (d, BadLine)
            case Crashed => (d, OutOfRange)
  {
    hide StepOf;
    hide Apply;
    assert lines[i..][0] == lines[i] && lines[i..][1..] == lines[i + 1..];
  }

  lemma FoldDone(d: Draft, lines: seq<Line>)
    ensures FoldLines(d, lines[|lines|..]) == (d, Clean)
  {
  }

  lemma ApplyNothing(d: Draft)
    ensures Apply(d, Nothing) == d
  {
  }

  /** Only the key Type sets the message type. */
  lemma TypeEffect(key: string, val: string)
    ensures key == "Type" ==> (Decode(FieldOf(key), val).Some? <==> TypeOf(val).Some?)
    ensures key == "Type" && TypeOf(val).Some? ==> Decode(FieldOf(key), val) == Some(TypeIs(TypeOf(val).value))
    ensures key != "Type" && Decode(FieldOf(key), val).Some? ==> !Decode(FieldOf(key), val).value.TypeIs?
  {
    hide TypeOf;
    hide FileFieldOf;
    hide PolicyOf;
    hide ParseInt64;
    hide ParseNumber;
    KeyOfField(key);
  }
}
