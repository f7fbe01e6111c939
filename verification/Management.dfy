/** One line of a management message: the table from key to the field it writes,
    and the decoded effect of the line. */
module Management {
  import opened Text

  datatype MessageType = INIT | QUERY | SESSION | NOTIFICATION | STATS | START | STOP | SKIP | FILEERROR | ERROR | DONE

  datatype Policy = FairPolicy | FixedPolicy | LowPolicy | HighPolicy

  datatype SessionNumber =
    | MeasuredLinkRateKbps | DelayMs | ElapsedUSec | TotalWrittenBytes | TotalLostBytes | MinRateKbps
    | SourcePathsScanAttempted | SourcePathsScanExcluded | SourcePathsScanFailed | SourcePathsScanIrregular
    | Pmtu | UdpPort | PreCalcTotalBytes | PreCalcTotalFiles | TargetRateKbps | BandwidthCapKbps
    | TotalTransferredBytes | TransfersAttempted | TransfersFailed | TransfersPassed | TransfersSkipped | TcpPort

  datatype SessionText =
    | Cookie | DestPath | Direction | Host | ManifestFilePath | AscpSessionId | SourcePaths | Token | User
    | ServerNodeId | ServerClusterId | ClientNodeId | ClientClusterId

  datatype FileNumber = ContiguousBytes | SizeBytes | StartByte | EndByte | WrittenBytes

  /** What a key names.  `Unused` covers the keys without effect and unknown keys. */
  datatype Field =
    | TypeField | AdaptiveField | PriorityField | CodeField | DescriptionField
    | RemoteField | EncryptionField | ChunkSizeField
    | NumberField(number: SessionNumber)
    | TextField(text: SessionText)
    | FileNameField | FileNumberField(fileNumber: FileNumber)
    | FileChecksumField | FileChecksumTypeField
    | Unused

  function FieldOf(key: string): Field {
    if key == "Type" then TypeField
    else if key == "Adaptive" then AdaptiveField
    else if key == "Priority" then PriorityField
    else if key == "Code" then CodeField
    else if key == "Description" then DescriptionField
    else if key == "Remote" then RemoteField
    else if key == "Encryption" then EncryptionField
    else if key == "ChunkSize" then ChunkSizeField
    else FileFieldOf(key)
  }

  function FileFieldOf(key: string): Field {
    if key == "File" then FileNameField
    else if key == "FileChecksum" then FileChecksumField
    else if key == "FileChecksumType" then FileChecksumTypeField
    else FileNumberFieldOf(key)
  }

  function FileNumberFieldOf(key: string): Field {
    if key == "Bytescont" then FileNumberField(ContiguousBytes)
    else if key == "Size" then FileNumberField(SizeBytes)
    else if key == "StartByte" then FileNumberField(StartByte)
    else if key == "EndByte" then FileNumberField(EndByte)
    else if key == "Written" then FileNumberField(WrittenBytes)
    else MeasureFieldOf(key)
  }

  function MeasureFieldOf(key: string): Field {
    if key == "BWMeasurement" then NumberField(MeasuredLinkRateKbps)
    else if key == "Delay" then NumberField(DelayMs)
    else if key == "Elapsedusec" then NumberField(ElapsedUSec)
    else if key == "FileBytes" then NumberField(TotalWrittenBytes)
    else if key == "Loss" then NumberField(TotalLostBytes)
    else RateFieldOf(key)
  }

  function RateFieldOf(key: string): Field {
    if key == "MinRate" then NumberField(MinRateKbps)
    else if key == "Port" then NumberField(UdpPort)
    else if key == "Rate" then NumberField(TargetRateKbps)
    else if key == "ServiceLevel" then NumberField(BandwidthCapKbps)
    else if key == "TCPPort" then NumberField(TcpPort)
    else ScanFieldOf(key)
  }

  function ScanFieldOf(key: string): Field {
    if key == "PathScansAttempted" then NumberField(SourcePathsScanAttempted)
    else if key == "PathScansExcluded" then NumberField(SourcePathsScanExcluded)
    else if key == "PathScansFailed" then NumberField(SourcePathsScanFailed)
    else if key == "PathScansIrregular" then NumberField(SourcePathsScanIrregular)
    else if key == "PMTU" then NumberField(Pmtu)
    else CountFieldOf(key)
  }

  function CountFieldOf(key: string): Field {
    if key == "PreTransferBytes" then NumberField(PreCalcTotalBytes)
    else if key == "PreTransferFiles" then NumberField(PreCalcTotalFiles)
    else if key == "TransferBytes" then NumberField(TotalTransferredBytes)
    else TransfersFieldOf(key)
  }

  function TransfersFieldOf(key: string): Field {
    if key == "TransfersAttempted" then NumberField(TransfersAttempted)
    else if key == "TransfersFailed" then NumberField(TransfersFailed)
    else if key == "TransfersPassed" then NumberField(TransfersPassed)
    else if key == "TransfersSkipped" then NumberField(TransfersSkipped)
    else TextFieldOf(key)
  }

  function TextFieldOf(key: string): Field {
    if key == "Cookie" then TextField(Cookie)
    else if key == "Destination" then TextField(DestPath)
    else if key == "Direction" then TextField(Direction)
    else if key == "Host" then TextField(Host)
    else PathFieldOf(key)
  }

  function PathFieldOf(key: string): Field {
    if key == "ManifestFile" then TextField(ManifestFilePath)
    else if key == "Source" then TextField(SourcePaths)
    else if key == "Token" then TextField(Token)
    else if key == "User" then TextField(User)
    else IdFieldOf(key)
  }

  function IdFieldOf(key: string): Field {
    if key == "SessionId" then TextField(AscpSessionId)
    else if key == "ServerNodeId" then TextField(ServerNodeId)
    else if key == "ServerClusterId" then TextField(ServerClusterId)
    else if key == "ClientNodeId" then TextField(ClientNodeId)
    else if key == "ClientClusterId" then TextField(ClientClusterId)
    else Unused
  }

  // The table read backwards: the key of each field.

  function NumberKey(f: SessionNumber): string {
    match f
    case MeasuredLinkRateKbps => "BWMeasurement"
    case DelayMs => "Delay"
    case ElapsedUSec => "Elapsedusec"
    case TotalWrittenBytes => "FileBytes"
    case TotalLostBytes => "Loss"
    case MinRateKbps => "MinRate"
    case SourcePathsScanAttempted => "PathScansAttempted"
    case SourcePathsScanExcluded => "PathScansExcluded"
    case SourcePathsScanFailed => "PathScansFailed"
    case SourcePathsScanIrregular => "PathScansIrregular"
    case Pmtu => "PMTU"
    case UdpPort => "Port"
    case PreCalcTotalBytes => "PreTransferBytes"
    case PreCalcTotalFiles => "PreTransferFiles"
    case TargetRateKbps => "Rate"
    case BandwidthCapKbps => "ServiceLevel"
    case TotalTransferredBytes => "TransferBytes"
    case TransfersAttempted => "TransfersAttempted"
    case TransfersFailed => "TransfersFailed"
    case TransfersPassed => "TransfersPassed"
    case TransfersSkipped => "TransfersSkipped"
    case TcpPort => "TCPPort"
  }

  function TextKey(f: SessionText): string {
    match f
    case Cookie => "Cookie"
    case DestPath => "Destination"
    case Direction => "Direction"
    case Host => "Host"
    case ManifestFilePath => "ManifestFile"
    case AscpSessionId => "SessionId"
    case SourcePaths => "Source"
    case Token => "Token"
    case User => "User"
    case ServerNodeId => "ServerNodeId"
    case ServerClusterId => "ServerClusterId"
    case ClientNodeId => "ClientNodeId"
    case ClientClusterId => "ClientClusterId"
  }

  function FileNumberKey(f: FileNumber): string {
    match f
    case ContiguousBytes => "Bytescont"
    case SizeBytes => "Size"
    case StartByte => "StartByte"
    case EndByte => "EndByte"
    case WrittenBytes => "Written"
  }

  function KeyOf(f: Field): string {
    match f
    case TypeField => "Type"
    case AdaptiveField => "Adaptive"
    case PriorityField => "Priority"
    case CodeField => "Code"
    case DescriptionField => "Description"
    case RemoteField => "Remote"
    case EncryptionField => "Encryption"
    case ChunkSizeField => "ChunkSize"
    case FileNameField => "File"
    case FileChecksumField => "FileChecksum"
    case FileChecksumTypeField => "FileChecksumType"
    case NumberField(n) => NumberKey(n)
    case TextField(t) => TextKey(t)
    case FileNumberField(n) => FileNumberKey(n)
    case Unused => ""
  }

  lemma KeyOfIdField(key: string)
    ensures IdFieldOf(key) != Unused ==> KeyOf(IdFieldOf(key)) == key
  {
  }

  lemma KeyOfPathField(key: string)
    ensures PathFieldOf(key) != Unused ==> KeyOf(PathFieldOf(key)) == key
  {
    hide IdFieldOf;
    KeyOfIdField(key);
  }

  lemma KeyOfTextField(key: string)
    ensures TextFieldOf(key) != Unused ==> KeyOf(TextFieldOf(key)) == key
  {
    hide PathFieldOf;
    KeyOfPathField(key);
  }

  lemma KeyOfTransfersField(key: string)
    ensures TransfersFieldOf(key) != Unused ==> KeyOf(TransfersFieldOf(key)) == key
  {
    hide TextFieldOf;
    KeyOfTextField(key);
  }

  lemma KeyOfCountField(key: string)
    ensures CountFieldOf(key) != Unused ==> KeyOf(CountFieldOf(key)) == key
  {
    hide TransfersFieldOf;
    KeyOfTransfersField(key);
  }

  lemma KeyOfScanField(key: string)
    ensures ScanFieldOf(key) != Unused ==> KeyOf(ScanFieldOf(key)) == key
  {
    hide CountFieldOf;
    KeyOfCountField(key);
  }

  lemma KeyOfRateField(key: string)
    ensures RateFieldOf(key) != Unused ==> KeyOf(RateFieldOf(key)) == key
  {
    hide ScanFieldOf;
    KeyOfScanField(key);
  }

  lemma KeyOfMeasureField(key: string)
    ensures MeasureFieldOf(key) != Unused ==> KeyOf(MeasureFieldOf(key)) == key
  {
    hide RateFieldOf;
    KeyOfRateField(key);
  }

  lemma KeyOfFileNumberField(key: string)
    ensures FileNumberFieldOf(key) != Unused ==> KeyOf(FileNumberFieldOf(key)) == key
  {
    hide MeasureFieldOf;
    KeyOfMeasureField(key);
  }

  lemma KeyOfFileField(key: string)
    ensures FileFieldOf(key) != Unused ==> KeyOf(FileFieldOf(key)) == key
  {
    hide FileNumberFieldOf;
    KeyOfFileNumberField(key);
  }

  lemma KeyOfField(key: string)
    ensures FieldOf(key) != Unused ==> KeyOf(FieldOf(key)) == key
  {
    hide FileFieldOf;
    KeyOfFileField(key);
  }

  // The table with its keys written out.

  lemma TypeKeys()
    ensures FieldOf("Type") == TypeField
    ensures FieldOf("Adaptive") == AdaptiveField
    ensures FieldOf("Priority") == PriorityField
    ensures FieldOf("Code") == CodeField
    ensures FieldOf("Description") == DescriptionField
    ensures FieldOf("Remote") == RemoteField
    ensures FieldOf("Encryption") == EncryptionField
  {
  }

  lemma ChunkSizeKeys()
    ensures FieldOf("ChunkSize") == ChunkSizeField
    ensures FieldOf("File") == FileNameField
    ensures FieldOf("FileChecksum") == FileChecksumField
    ensures FieldOf("FileChecksumType") == FileChecksumTypeField
    ensures FieldOf("Bytescont") == FileNumberField(ContiguousBytes)
    ensures FieldOf("Size") == FileNumberField(SizeBytes)
  {
  }

  lemma StartByteKeys()
    ensures FieldOf("StartByte") == FileNumberField(StartByte)
    ensures FieldOf("EndByte") == FileNumberField(EndByte)
    ensures FieldOf("Written") == FileNumberField(WrittenBytes)
    ensures FieldOf("BWMeasurement") == NumberField(MeasuredLinkRateKbps)
  {
  }

  lemma DelayKeys()
    ensures FieldOf("Delay") == NumberField(DelayMs)
    ensures FieldOf("Elapsedusec") == NumberField(ElapsedUSec)
    ensures FieldOf("FileBytes") == NumberField(TotalWrittenBytes)
  {
  }

  lemma LossKeys()
    ensures FieldOf("Loss") == NumberField(TotalLostBytes)
    ensures FieldOf("MinRate") == NumberField(MinRateKbps)
    ensures FieldOf("Port") == NumberField(UdpPort)
  {
  }

  lemma RateKeys()
    ensures FieldOf("Rate") == NumberField(TargetRateKbps)
    ensures FieldOf("ServiceLevel") == NumberField(BandwidthCapKbps)
  {
  }

  lemma TCPPortKeys()
    ensures FieldOf("TCPPort") == NumberField(TcpPort)
    ensures FieldOf("PathScansAttempted") == NumberField(SourcePathsScanAttempted)
  {
  }

  lemma PathScansExcludedKey()
    ensures FieldOf("PathScansExcluded") == NumberField(SourcePathsScanExcluded)
  {
  }

  lemma PathScansFailedKey()
    ensures FieldOf("PathScansFailed") == NumberField(SourcePathsScanFailed)
  {
  }

  lemma PathScansIrregularKey()
    ensures FieldOf("PathScansIrregular") == NumberField(SourcePathsScanIrregular)
  {
  }

  lemma PMTUKey()
    ensures FieldOf("PMTU") == NumberField(Pmtu)
  {
  }

  lemma PreTransferBytesKey()
    ensures FieldOf("PreTransferBytes") == NumberField(PreCalcTotalBytes)
  {
  }

  lemma PreTransferFilesKey()
    ensures FieldOf("PreTransferFiles") == NumberField(PreCalcTotalFiles)
  {
  }

  lemma TransferBytesKey()
    ensures FieldOf("TransferBytes") == NumberField(TotalTransferredBytes)
  {
  }

  lemma TransfersAttemptedKey()
    ensures FieldOf("TransfersAttempted") == NumberField(TransfersAttempted)
  {
  }

  lemma TransfersFailedKey()
    ensures FieldOf("TransfersFailed") == NumberField(TransfersFailed)
  {
  }

  lemma TransfersPassedKey()
    ensures FieldOf("TransfersPassed") == NumberField(TransfersPassed)
  {
  }

  lemma TransfersSkippedKey()
    ensures FieldOf("TransfersSkipped") == NumberField(TransfersSkipped)
  {
  }

  lemma CookieKey()
    ensures FieldOf("Cookie") == TextField(Cookie)
  {
  }

  lemma DestinationKey()
    ensures FieldOf("Destination") == TextField(DestPath)
  {
  }

  lemma DirectionKey()
    ensures FieldOf("Direction") == TextField(Direction)
  {
  }

  lemma HostKey()
    ensures FieldOf("Host") == TextField(Host)
  {
  }

  lemma ManifestFileKey()
    ensures FieldOf("ManifestFile") == TextField(ManifestFilePath)
  {
  }

  lemma SourceKey()
    ensures FieldOf("Source") == TextField(SourcePaths)
  {
  }

  lemma TokenKey()
    ensures FieldOf("Token") == TextField(Token)
  {
  }

  lemma UserKey()
    ensures FieldOf("User") == TextField(User)
  {
  }

  lemma SessionIdKey()
    ensures FieldOf("SessionId") == TextField(AscpSessionId)
  {
  }

  lemma ServerNodeIdKey()
    ensures FieldOf("ServerNodeId") == TextField(ServerNodeId)
  {
  }

  lemma ServerClusterIdKey()
    ensures FieldOf("ServerClusterId") == TextField(ServerClusterId)
  {
  }

  lemma ClientNodeIdKey()
    ensures FieldOf("ClientNodeId") == TextField(ClientNodeId)
  {
  }

  lemma ClientClusterIdKey()
    ensures FieldOf("ClientClusterId") == TextField(ClientClusterId)
  {
  }

  lemma FieldOfNumberKey(f: SessionNumber)
    ensures FieldOf(NumberKey(f)) == NumberField(f)
  {
    hide FieldOf;
    StartByteKeys();
    DelayKeys();
    LossKeys();
    RateKeys();
    TCPPortKeys();
    PathScansExcludedKey();
    PathScansFailedKey();
    PathScansIrregularKey();
    PMTUKey();
    PreTransferBytesKey();
    PreTransferFilesKey();
    TransferBytesKey();
    TransfersAttemptedKey();
    TransfersFailedKey();
    TransfersPassedKey();
    TransfersSkippedKey();
  }

  lemma FieldOfTextKey(f: SessionText)
    ensures FieldOf(TextKey(f)) == TextField(f)
  {
    hide FieldOf;
    CookieKey();
    DestinationKey();
    DirectionKey();
    HostKey();
    ManifestFileKey();
    SourceKey();
    TokenKey();
    UserKey();
    SessionIdKey();
    ServerNodeIdKey();
    ServerClusterIdKey();
    ClientNodeIdKey();
    ClientClusterIdKey();
  }

  lemma FieldOfFileNumberKey(f: FileNumber)
    ensures FieldOf(FileNumberKey(f)) == FileNumberField(f)
  {
    hide FieldOf;
    ChunkSizeKeys();
    StartByteKeys();
  }

  /** No field is missing from the table: the key of each field writes it. */
  lemma FieldOfKey(f: Field)
    requires f != Unused
    ensures FieldOf(KeyOf(f)) == f
  {
    hide NumberKey;
    hide TextKey;
    hide FileNumberKey;
    match f
    case NumberField(n) => FieldOfNumberKey(n);
    case TextField(t) => FieldOfTextKey(t);
    case FileNumberField(n) => FieldOfFileNumberKey(n);
    case _ =>
  }

  /** A key writes a field if and only if it is the key of that field. */
  lemma KeyTable(key: string, f: Field)
    requires f != Unused
    ensures FieldOf(key) == f <==> key == KeyOf(f)
  {
    hide KeyOf;
    hide FieldOf;
    KeyOfField(key);
    FieldOfKey(f);
  }

  /** Distinct keys write distinct fields. */
  lemma FieldOfInjective(k1: string, k2: string)
    requires FieldOf(k1) == FieldOf(k2) != Unused
    ensures k1 == k2
  {
    KeyOfField(k1);
    KeyOfField(k2);
  }

  /** What one accepted line does. */
  datatype Effect =
    | Nothing
    | TypeIs(t: MessageType)
    | PolicyIs(p: Policy)
    | CodeIs(n: int)
    | DescriptionIs(s: string)
    | RemoteIs(b: bool)
    | EncryptionIs(b: bool)
    | ChunkSizeIs(n: int)
    | NumberIs(number: SessionNumber, n: int)
    | TextIs(text: SessionText, s: string)
    | FileNameIs(s: string)
    | FileNumberIs(fileNumber: FileNumber, n: int)
    | FileChecksumIs(s: string)
    | FileChecksumTypeIs(s: string)

  function TypeOf(val: string): Option<MessageType> {
    if val == "INIT" then Some(INIT)
    else if val == "QUERY" then Some(QUERY)
    else if val == "SESSION" then Some(SESSION)
    else if val == "NOTIFICATION" then Some(NOTIFICATION)
    else if val == "STATS" then Some(STATS)
    else if val == "START" then Some(START)
    else if val == "STOP" then Some(STOP)
    else if val == "SKIP" then Some(SKIP)
    else if val == "FILEERROR" then Some(FILEERROR)
    else if val == "ERROR" then Some(ERROR)
    else if val == "DONE" then Some(DONE)
    else None
  }

  /** The wire name of each type. */
  function TypeName(t: MessageType): string {
    match t
    case INIT => "INIT"
    case QUERY => "QUERY"
    case SESSION => "SESSION"
    case NOTIFICATION => "NOTIFICATION"
    case STATS => "STATS"
    case START => "START"
    case STOP => "STOP"
    case SKIP => "SKIP"
    case FILEERROR => "FILEERROR"
    case ERROR => "ERROR"
    case DONE => "DONE"
  }

  lemma TypeOfName(t: MessageType)
    ensures TypeOf(TypeName(t)) == Some(t)
  {
  }

  lemma NameOfType(val: string)
    requires TypeOf(val).Some?
    ensures TypeName(TypeOf(val).value) == val
  {
  }

  /** A value is read as a type exactly if it is the name of that type. */
  lemma TypeIsItsName(val: string, t: MessageType)
    ensures TypeOf(val) == Some(t) <==> val == TypeName(t)
  {
    hide TypeName;
    hide TypeOf;
    TypeOfName(t);
    if TypeOf(val).Some? {
      NameOfType(val);
    }
  }

  function PolicyOf(val: string): Option<Policy> {
    if val == "Adaptive" then Some(FairPolicy)
    else if val == "Fixed" then Some(FixedPolicy)
    else if val == "Trickle" then Some(LowPolicy)
    else None
  }

  const INT64_MAX: int := 0x7FFF_FFFF_FFFF_FFFF
  const UINT64_MAX: int := 0xFFFF_FFFF_FFFF_FFFF

  /** strconv.Atoi and ParseInt on 64 bits, decimal forms. */
  function ParseInt64(val: string): Option<int> {
    match ParseInt(val)
    case Some(n) => if -INT64_MAX - 1 <= n <= INT64_MAX then Some(n) else None
    case None => None
  }

  /** strconv.ParseUint on 64 bits, decimal form: no sign is accepted. */
  function ParseUint64(val: string): Option<int> {
    match ParseNat(val)
    case Some(n) => if n <= UINT64_MAX then Some(n) else None
    case None => None
  }

  function ParseNumber(f: SessionNumber, val: string): Option<int> {
    match f
    case TotalWrittenBytes | TotalLostBytes | TotalTransferredBytes => ParseUint64(val)
    case _ => ParseInt64(val)
  }

  /** The effect of a key and its value; None when the value is refused. */
  function Decode(field: Field, val: string): Option<Effect> {
    match field
    case TypeField => (match TypeOf(val) case Some(t) => Some(TypeIs(t)) case None => None)
    case AdaptiveField => (match PolicyOf(val) case Some(p) => Some(PolicyIs(p)) case None => None)
    case PriorityField => Some(if val == "1" then PolicyIs(HighPolicy) else Nothing)
    case CodeField => (match ParseInt64(val) case Some(n) => Some(CodeIs(n)) case None => None)
    case DescriptionField => Some(DescriptionIs(val))
    case RemoteField => Some(RemoteIs(val == "Yes"))
    case EncryptionField => Some(EncryptionIs(val == "Yes"))
    case ChunkSizeField => (match ParseInt64(val) case Some(n) => Some(ChunkSizeIs(n)) case None => None)
    case NumberField(f) => (match ParseNumber(f, val) case Some(n) => Some(NumberIs(f, n)) case None => None)
    case TextField(f) => Some(TextIs(f, val))
    case FileNameField => Some(FileNameIs(val))
    case FileNumberField(f) => (match ParseInt64(val) case Some(n) => Some(FileNumberIs(f, n)) case None => None)
    case FileChecksumField => Some(FileChecksumIs(val))
    case FileChecksumTypeField => Some(FileChecksumTypeIs(val))
    case Unused => Some(Nothing)
  }

  /** A line as the parser sees it.  `Crash` is a line whose first colon is its
      last byte, on which the slice `line[index+2:]` is out of range. */
  datatype Line =
    | Header
    | KeyValue(key: string, val: string)
    | Junk
    | Crash

  function ReadLine(line: string): Line {
    var i := Index(line, ':');
    if i == -1 then (if Contains(line, "FASPMGR") then Header else Junk)
    else if i + 2 > |line| then Crash
    else KeyValue(line[..i], line[i + 2..])
  }

  function ReadLines(lines: seq<string>): (r: seq<Line>)
    ensures |r| == |lines|
    ensures forall i :: 0 <= i < |lines| ==> r[i] == ReadLine(lines[i])
  {
    seq(|lines|, i requires 0 <= i < |lines| => ReadLine(lines[i]))
  }

  /** The outcome of one line: an effect, or the reason the message stops there. */
  datatype Step = Good(effect: Effect) | Refused | Crashed

  function StepOf(line: Line): Step {
    match line
    case Header => Good(Nothing)
    case Junk => Refused
    case Crash => Crashed
    case KeyValue(key, val) =>
      match Decode(FieldOf(key), val)
      case Some(e) => Good(e)
      case None => Refused
  }
}
