/** The inbound session engine as functions on a session value: how one message
    is folded into the statistics, how files are merged, which event comes out,
    and how a byte stream is consumed message by message. */
module Engine {
  import opened Text
  import opened Management
  import Frames

  datatype SessionState =
    | NoState | Submitted | Authenticating | Connecting | Started | Transferring | Finished | Failed

  datatype FileState = NoFileState | FileFailed | FileFinished | FileTransferring | FileSkipped

  predicate Terminal(s: FileState) {
    s == FileSkipped || s == FileFailed || s == FileFinished
  }

  datatype Stats = Stats(
    state: SessionState, policy: Policy, encryption: bool, remote: bool,
    filesComplete: nat, filesSkipped: nat, filesFailed: nat,
    errorCode: int, errorDescription: string,
    numbers: map<SessionNumber, int>, texts: map<SessionText, string>)

  datatype FileRecord = FileRecord(
    name: string, state: FileState, errorCode: int, errorDescription: string,
    contiguousBytes: int, sizeBytes: int, startByte: int, endByte: int, writtenBytes: int,
    checksumType: string, checksum: string)

  const NO_FILE := FileRecord("", NoFileState, 0, "", 0, 0, 0, 0, 0, "", "")

  /** What the lines of a message write: session fields, the message's own file
      record, and its last Type. */
  datatype Draft = Draft(stats: Stats, chunkSize: int, isRemote: bool, file: FileRecord, last: Option<MessageType>)

  // ---------- One line ----------

  function StateOfType(t: MessageType): SessionState {
    match t
    case DONE => Finished
    case ERROR => Failed
    case INIT => Connecting
    case QUERY => Authenticating
    case SESSION => Started
    case STOP | SKIP | FILEERROR | STATS | START | NOTIFICATION => Transferring
  }

  function FileStateOfType(t: MessageType, before: FileState): FileState {
    match t
    case STOP => FileFinished
    case SKIP => FileSkipped
    case FILEERROR => FileFailed
    case STATS => FileTransferring
    case _ => before
  }

  function CountType(s: Stats, t: MessageType): Stats {
    s.(state := StateOfType(t),
       filesComplete := s.filesComplete + (if t == STOP || t == SKIP then 1 else 0),
       filesSkipped := s.filesSkipped + (if t == SKIP then 1 else 0),
       filesFailed := s.filesFailed + (if t == FILEERROR then 1 else 0))
  }

  function ApplyStats(s: Stats, e: Effect): Stats {
    match e
    case TypeIs(t) => CountType(s, t)
    case PolicyIs(p) => s.(policy := p)
    case CodeIs(n) => s.(errorCode := n)
    case DescriptionIs(text) => s.(errorDescription := text)
    case RemoteIs(b) => s.(remote := b)
    case EncryptionIs(b) => s.(encryption := b)
    case NumberIs(f, n) => s.(numbers := s.numbers[f := n])
    case TextIs(f, text) => s.(texts := s.texts[f := text])
    case _ => s
  }

  function SetFileNumber(r: FileRecord, f: FileNumber, n: int): FileRecord {
    match f
    case ContiguousBytes => r.(contiguousBytes := n)
    case SizeBytes => r.(sizeBytes := n)
    case StartByte => r.(startByte := n)
    case EndByte => r.(endByte := n)
    case WrittenBytes => r.(writtenBytes := n)
  }

  function ApplyFile(r: FileRecord, e: Effect): FileRecord {
    match e
    case TypeIs(t) => r.(state := FileStateOfType(t, r.state))
    case CodeIs(n) => r.(errorCode := n)
    case DescriptionIs(text) => r.(errorDescription := text)
    case FileNameIs(text) => r.(name := text)
    case FileNumberIs(f, n) => SetFileNumber(r, f, n)
    case FileChecksumIs(text) => r.(checksum := text)
    case FileChecksumTypeIs(text) => r.(checksumType := text)
    case _ => r
  }

  /** updateStatsFromMsg, and the message type kept by its caller. */
  function Apply(d: Draft, e: Effect): Draft {
    Draft(ApplyStats(d.stats, e),
          if e.ChunkSizeIs? then e.n else d.chunkSize,
          if e.RemoteIs? then e.b else d.isRemote,
          ApplyFile(d.file, e),
          if e.TypeIs? then Some(e.t) else d.last)
  }

  // ---------- The lines of a message ----------

  /** Why the lines of a message end. */
  datatype End = Clean | BadLine | OutOfRange

  function FoldLines(d: Draft, lines: seq<Line>): (Draft, End)
    decreases |lines|
  {
    if lines == [] then (d, Clean)
    else
      match StepOf(lines[0])
      case Good(e) => FoldLines(Apply(d, e), lines[1..])
      case Refused => (d, BadLine)
      case Crashed => (d, OutOfRange)
  }

  function LinesOf(msg: string): seq<Line> {
    ReadLines(Split(msg))
  }

  // ---------- Files ----------

  function Keep(report: int, before: int): int {
    if report != 0 then report else before
  }

  /** An existing entry after a message about the same file.  The description of
      an existing entry is not merged. */
  function MergeRecord(before: FileRecord, m: FileRecord): FileRecord {
    before.(errorCode := m.errorCode, state := m.state, checksumType := m.checksumType, checksum := m.checksum,
         contiguousBytes := Keep(m.contiguousBytes, before.contiguousBytes),
         sizeBytes := Keep(m.sizeBytes, before.sizeBytes),
         startByte := Keep(m.startByte, before.startByte),
         endByte := Keep(m.endByte, before.endByte),
         writtenBytes := Keep(m.writtenBytes, before.writtenBytes))
  }

  type Files = map<string, FileRecord>

  function Merged(files: Files, m: FileRecord): FileRecord {
    if m.name in files then MergeRecord(files[m.name], m) else m
  }

  function MergeFiles(files: Files, m: FileRecord): Files {
    if m.name == "" then files else files[m.name := Merged(files, m)]
  }

  // ---------- Events ----------

  datatype EventType =
    | ConnectingEvent | SessionStartEvent | RateModificationEvent | FileStartEvent | ProgressEvent
    | FileStopEvent | FileErrorEvent | SessionErrorEvent | SessionStopEvent | FileSkipEvent

  /** getTransferEventType; None for the types that carry no event and for no Type line. */
  function EventTypeOf(last: Option<MessageType>, newFile: bool): Option<EventType> {
    match last
    case None => None
    case Some(t) =>
      match t
      case INIT => Some(ConnectingEvent)
      case SESSION => Some(SessionStartEvent)
      case NOTIFICATION => Some(RateModificationEvent)
      case STATS => Some(if newFile then FileStartEvent else ProgressEvent)
      case STOP => Some(FileStopEvent)
      case FILEERROR => Some(FileErrorEvent)
      case ERROR => Some(SessionErrorEvent)
      case DONE => Some(SessionStopEvent)
      case SKIP => Some(FileSkipEvent)
      case START | QUERY => None
  }

  datatype Event = Event(eventType: EventType, session: Stats, file: Option<FileRecord>)

  // ---------- The session ----------

  /** How the processing of one message ended.  Panicked stands for a run-time
      panic: an out-of-range slice, or a nil stream worker. */
  datatype Outcome = Accepted | Rejected | Panicked

  /** The completion latch: the `complete` channel and the onComplete callback. */
  datatype Latch = Latch(
    complete: bool,
    closes: nat,         // how often the channel was closed
    completions: nat)    // how often onComplete was called

  /** What messages change. */
  datatype Core = Core(
    stats: Stats, chunkSize: int, isRemote: bool, files: Files, latch: Latch,
    workers: seq<int>,   // chunk size of each stream worker start
    events: seq<Event>)

  datatype Session = Session(
    persistent: bool, stream: bool, started: bool, locked: bool,
    buffer: string, core: Core,
    processed: seq<string>, outcomes: seq<Outcome>,
    sent: seq<Frames.Frame>)     // commands handed to sendManagementMessage

  function DraftOf(c: Core): Draft {
    Draft(c.stats, c.chunkSize, c.isRemote, NO_FILE, None)
  }

  predicate FinishedState(s: SessionState) {
    s == Finished || s == Failed
  }

  /** The session after the lines of a message are folded in. */
  function WithDraft(c: Core, d: Draft): Core {
    c.(stats := d.stats, chunkSize := d.chunkSize, isRemote := d.isRemote)
  }

  /** The channel is closed on the first completion only; the callback is called on each. */
  function Trip(l: Latch): Latch {
    Latch(true, if l.complete then l.closes else l.closes + 1, l.completions + 1)
  }

  function DropFinished(files: Files, file: Option<FileRecord>): Files {
    if file.Some? && Terminal(file.value.state) then files - {file.value.name} else files
  }

  /** The end of an accepted message: emit the event, drop a finished file, latch completion. */
  function Deliver(c: Core, stream: bool, eventType: EventType, file: Option<FileRecord>): Core {
    c.(workers := if eventType == SessionStartEvent && stream then c.workers + [c.chunkSize] else c.workers,
       events := c.events + [Event(eventType, c.stats, file)],
       files := DropFinished(c.files, file),
       latch := if FinishedState(c.stats.state) then Trip(c.latch) else c.latch)
  }

  /** What mergeFileStats returns: the merged record, unless the message names no file. */
  function Snapshot(files: Files, m: FileRecord): Option<FileRecord> {
    if m.name == "" then None else Some(Merged(files, m))
  }

  predicate IsNewFile(files: Files, m: FileRecord) {
    m.name != "" && m.name !in files
  }

  /** The part of processSingleMessage after its line loop. */
  function Conclude(c: Core, stream: bool, started: bool, d: Draft): (Core, Outcome) {
    var merged := WithDraft(c, d).(files := MergeFiles(c.files, d.file));
    match EventTypeOf(d.last, IsNewFile(c.files, d.file))
    case None => (merged, Rejected)
    case Some(eventType) =>
      if eventType == SessionStartEvent && stream && !started then (merged, Panicked)
      else (Deliver(merged, stream, eventType, Snapshot(c.files, d.file)), Accepted)
  }

  function StepCore(c: Core, stream: bool, started: bool, msg: string): (Core, Outcome) {
    var (d, end) := FoldLines(DraftOf(c), LinesOf(msg));
    match end
    case BadLine => (WithDraft(c, d), Rejected)
    case OutOfRange => (WithDraft(c, d), Panicked)
    case Clean => Conclude(c, stream, started, d)
  }

  /** processSingleMessage */
  function Process(st: Session, msg: string): (r: Session)
    ensures r.buffer == st.buffer && r.outcomes != []
  {
    var (c, o) := StepCore(st.core, st.stream, st.started, msg);
    st.(core := c, processed := st.processed + [msg], outcomes := st.outcomes + [o])
  }

  predicate LastAccepted(st: Session)
    requires st.outcomes != []
  {
    st.outcomes[|st.outcomes| - 1] == Accepted
  }

  /** Messages processed one after the other, whatever their outcome. */
  function Run(st: Session, msgs: seq<string>): Session
    decreases |msgs|
  {
    if msgs == [] then st else Run(Process(st, msgs[0]), msgs[1..])
  }

  // ---------- The stream ----------

  /** The loop of receiveManagementBlob: it stops at the first message that errs. */
  function Drain(st: Session): Session
    decreases |st.buffer|
  {
    var i := IndexBlank(st.buffer);
    if i == -1 then st
    else
      var next := Process(st.(buffer := st.buffer[i + 2..]), st.buffer[..i]);
      if LastAccepted(next) then Drain(next) else next
  }

  /** Whether the call returns without an error. */
  predicate DrainOk(st: Session)
    decreases |st.buffer|
  {
    var i := IndexBlank(st.buffer);
    i == -1 ||
    var next := Process(st.(buffer := st.buffer[i + 2..]), st.buffer[..i]);
    LastAccepted(next) && DrainOk(next)
  }

  /** No message that Drain processes panics. */
  predicate DrainSafe(st: Session)
    decreases |st.buffer|
  {
    var i := IndexBlank(st.buffer);
    i == -1 ||
    var next := Process(st.(buffer := st.buffer[i + 2..]), st.buffer[..i]);
    next.outcomes[|next.outcomes| - 1] != Panicked && (LastAccepted(next) ==> DrainSafe(next))
  }

  function Receive(st: Session, blob: string): Session {
    Drain(st.(buffer := st.buffer + blob))
  }

  function ReceiveAll(st: Session, blobs: seq<string>): Session
    decreases |blobs|
  {
    if blobs == [] then st else ReceiveAll(Receive(st, blobs[0]), blobs[1..])
  }

  // ---------- A new session ----------

  /** Where every run starts: nothing received, counted or sent yet. */
  predicate Fresh(st: Session) {
    && st.buffer == "" && !st.started && !st.locked
    && st.processed == [] && st.outcomes == [] && st.sent == []
    && FreshCore(st.core)
  }

  predicate FreshCore(c: Core) {
    && c.files == map[] && c.latch == Latch(false, 0, 0) && c.workers == [] && c.events == []
    && c.stats.filesComplete == 0 && c.stats.filesSkipped == 0 && c.stats.filesFailed == 0
  }
}
