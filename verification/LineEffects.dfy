/** What one key and value do to the session and to the record of the message, with
    every key written out: which values are taken, and where they are found afterwards. */
module LineEffects {
  import opened Text
  import opened Management
  import opened Engine

  predicate InInt64(n: int) {
    -0x8000_0000_0000_0000 <= n <= 0x7FFF_FFFF_FFFF_FFFF
  }

  predicate InUint64(n: int) {
    0 <= n <= 0xFFFF_FFFF_FFFF_FFFF
  }

  /** A signed number is taken if and only if it is one and fits 64 bits. */
  predicate Signed(val: string, ok: bool, field: int) {
    match ParseInt(val)
    case None => !ok
    case Some(n) => (ok <==> InInt64(n)) && (ok ==> field == n)
  }

  /** The same for an unsigned one, which has no sign. */
  predicate Unsigned(val: string, ok: bool, field: int) {
    match ParseNat(val)
    case None => !ok
    case Some(n) => (ok <==> InUint64(n)) && (ok ==> field == n)
  }

  /** A printed number is taken if and only if it is in bounds, and then as it is. */
  lemma PrintedNumber(n: int, ok: bool, field: int)
    ensures Signed(PrintInt(n), ok, field) ==> (ok <==> InInt64(n)) && (ok ==> field == n)
    ensures Unsigned(PrintInt(n), ok, field) ==> (ok <==> InUint64(n)) && (ok ==> field == n)
  {
    hide PrintInt;
    hide ParseInt;
    hide ParseNat;
    ParsePrint(n);
    if n < 0 {
      NegativeIsSigned(n);
    } else {
      PrintedNat(n);
    }
  }

  lemma PrintedNat(n: nat)
    ensures ParseNat(PrintInt(n)) == Some(n)
  {
    DigitsValuePrint(n);
  }

  function NumberOr0(numbers: map<SessionNumber, int>, f: SessionNumber): int {
    if f in numbers then numbers[f] else 0
  }

  predicate FileNumbersTook(r: FileRecord, key: string, val: string, ok: bool) {
    && (key == "Bytescont" ==> Signed(val, ok, r.contiguousBytes))
    && (key == "Size" ==> Signed(val, ok, r.sizeBytes))
    && (key == "StartByte" ==> Signed(val, ok, r.startByte))
    && (key == "EndByte" ==> Signed(val, ok, r.endByte))
    && (key == "Written" ==> Signed(val, ok, r.writtenBytes))
  }

  predicate MeasuresTook(s: Stats, key: string, val: string, ok: bool) {
    && (key == "BWMeasurement" ==> Signed(val, ok, NumberOr0(s.numbers, MeasuredLinkRateKbps)))
    && (key == "Delay" ==> Signed(val, ok, NumberOr0(s.numbers, DelayMs)))
    && (key == "Elapsedusec" ==> Signed(val, ok, NumberOr0(s.numbers, ElapsedUSec)))
    && (key == "FileBytes" ==> Unsigned(val, ok, NumberOr0(s.numbers, TotalWrittenBytes)))
    && (key == "Loss" ==> Unsigned(val, ok, NumberOr0(s.numbers, TotalLostBytes)))
  }

  predicate RatesTook(s: Stats, key: string, val: string, ok: bool) {
    && (key == "MinRate" ==> Signed(val, ok, NumberOr0(s.numbers, MinRateKbps)))
    && (key == "Port" ==> Signed(val, ok, NumberOr0(s.numbers, UdpPort)))
    && (key == "Rate" ==> Signed(val, ok, NumberOr0(s.numbers, TargetRateKbps)))
    && (key == "ServiceLevel" ==> Signed(val, ok, NumberOr0(s.numbers, BandwidthCapKbps)))
    && (key == "TCPPort" ==> Signed(val, ok, NumberOr0(s.numbers, TcpPort)))
  }

  predicate ScansTook(s: Stats, key: string, val: string, ok: bool) {
    && (key == "PathScansAttempted" ==> Signed(val, ok, NumberOr0(s.numbers, SourcePathsScanAttempted)))
    && (key == "PathScansExcluded" ==> Signed(val, ok, NumberOr0(s.numbers, SourcePathsScanExcluded)))
    && (key == "PathScansFailed" ==> Signed(val, ok, NumberOr0(s.numbers, SourcePathsScanFailed)))
    && (key == "PathScansIrregular" ==> Signed(val, ok, NumberOr0(s.numbers, SourcePathsScanIrregular)))
    && (key == "PMTU" ==> Signed(val, ok, NumberOr0(s.numbers, Pmtu)))
  }

  predicate TotalsTook(s: Stats, key: string, val: string, ok: bool) {
    && (key == "PreTransferBytes" ==> Signed(val, ok, NumberOr0(s.numbers, PreCalcTotalBytes)))
    && (key == "PreTransferFiles" ==> Signed(val, ok, NumberOr0(s.numbers, PreCalcTotalFiles)))
    && (key == "TransferBytes" ==> Unsigned(val, ok, NumberOr0(s.numbers, TotalTransferredBytes)))
  }

  predicate TransfersTook(s: Stats, key: string, val: string, ok: bool) {
    && (key == "TransfersAttempted" ==> Signed(val, ok, NumberOr0(s.numbers, TransfersAttempted)))
    && (key == "TransfersFailed" ==> Signed(val, ok, NumberOr0(s.numbers, TransfersFailed)))
    && (key == "TransfersPassed" ==> Signed(val, ok, NumberOr0(s.numbers, TransfersPassed)))
    && (key == "TransfersSkipped" ==> Signed(val, ok, NumberOr0(s.numbers, TransfersSkipped)))
  }

  predicate HasText(s: Stats, f: SessionText, val: string) {
    f in s.texts && s.texts[f] == val
  }

  predicate TextsTook(s: Stats, key: string, val: string, ok: bool) {
    && (key == "Cookie" ==> ok && HasText(s, Cookie, val))
    && (key == "Destination" ==> ok && HasText(s, DestPath, val))
    && (key == "Direction" ==> ok && HasText(s, Direction, val))
    && (key == "Host" ==> ok && HasText(s, Host, val))
    && (key == "ManifestFile" ==> ok && HasText(s, ManifestFilePath, val))
    && (key == "Source" ==> ok && HasText(s, SourcePaths, val))
    && (key == "Token" ==> ok && HasText(s, Token, val))
    && (key == "User" ==> ok && HasText(s, User, val))
  }

  predicate IdsTook(s: Stats, key: string, val: string, ok: bool) {
    && (key == "SessionId" ==> ok && HasText(s, AscpSessionId, val))
    && (key == "ServerNodeId" ==> ok && HasText(s, ServerNodeId, val))
    && (key == "ServerClusterId" ==> ok && HasText(s, ServerClusterId, val))
    && (key == "ClientNodeId" ==> ok && HasText(s, ClientNodeId, val))
    && (key == "ClientClusterId" ==> ok && HasText(s, ClientClusterId, val))
  }

  predicate FileTextsTook(r: FileRecord, key: string, val: string, ok: bool) {
    && (key == "File" ==> ok && r.name == val)
    && (key == "FileChecksum" ==> ok && r.checksum == val)
    && (key == "FileChecksumType" ==> ok && r.checksumType == val)
  }

  /** The keys that write several fields, flags and the policy. */
  predicate OthersTook(s: Stats, chunkSize: int, isRemote: bool, r: FileRecord, key: string, val: string, ok: bool) {
    && (key == "Code" ==> Signed(val, ok, s.errorCode) && Signed(val, ok, r.errorCode))
    && (key == "Description" ==> ok && s.errorDescription == val && r.errorDescription == val)
    && (key == "Remote" ==> ok && s.remote == isRemote == (val == "Yes"))
    && (key == "Encryption" ==> ok && s.encryption == (val == "Yes"))
    && (key == "ChunkSize" ==> Signed(val, ok, chunkSize))
    && (key == "Priority" ==> ok && (val == "1" ==> s.policy == HighPolicy))
    && (key == "Adaptive" ==> (ok <==> val == "Adaptive" || val == "Fixed" || val == "Trickle"))
    && (key == "Adaptive" && val == "Adaptive" ==> s.policy == FairPolicy)
    && (key == "Adaptive" && val == "Fixed" ==> s.policy == FixedPolicy)
    && (key == "Adaptive" && val == "Trickle" ==> s.policy == LowPolicy)
  }

  /** Session and file after a Type line, against the session before. */
  predicate TypeTook(before: Stats, s: Stats, r: FileRecord, val: string) {
    && (val == "INIT" ==> s.state == Connecting)
    && (val == "QUERY" ==> s.state == Authenticating)
    && (val == "SESSION" ==> s.state == Started)
    && (val == "DONE" ==> s.state == Finished)
    && (val == "ERROR" ==> s.state == Failed)
    && (val in ["NOTIFICATION", "STATS", "START", "STOP", "SKIP", "FILEERROR"] ==> s.state == Transferring)
    && (val == "STATS" ==> r.state == FileTransferring)
    && (val == "STOP" ==> r.state == FileFinished)
    && (val == "SKIP" ==> r.state == FileSkipped)
    && (val == "FILEERROR" ==> r.state == FileFailed)
    && s.filesComplete == before.filesComplete + (if val == "STOP" || val == "SKIP" then 1 else 0)
    && s.filesSkipped == before.filesSkipped + (if val == "SKIP" then 1 else 0)
    && s.filesFailed == before.filesFailed + (if val == "FILEERROR" then 1 else 0)
  }

  predicate IsTypeName(val: string) {
    val in ["INIT", "QUERY", "SESSION", "NOTIFICATION", "STATS", "START", "STOP", "SKIP", "FILEERROR", "ERROR", "DONE"]
  }

  /** A line applied to a draft, and whether its value is taken. */
  function LineResult(d: Draft, key: string, val: string): (Draft, bool) {
    match Decode(FieldOf(key), val)
    case Some(e) => (Apply(d, e), true)
    case None => (d, false)
  }

  lemma FileNumbersTaken(d: Draft, key: string, val: string)
    ensures var (r, ok) := LineResult(d, key, val); FileNumbersTook(r.file, key, val, ok)
  {
    hide FieldOf;
    hide ParseInt;
    hide ParseNat;
    hide TypeOf;
    hide CountType;
    hide FileStateOfType;
    ChunkSizeKeys();
    StartByteKeys();
  }

  lemma NatNotNegative(val: string)
    ensures ParseNat(val).Some? ==> ParseNat(val).value >= 0
  {
  }

  lemma MeasuresTaken(d: Draft, key: string, val: string)
    ensures var (r, ok) := LineResult(d, key, val); MeasuresTook(r.stats, key, val, ok)
  {
    hide FieldOf;
    hide ParseInt;
    hide ParseNat;
    hide TypeOf;
    hide CountType;
    hide FileStateOfType;
    StartByteKeys();
    DelayKeys();
    LossKeys();
    NatNotNegative(val);
  }

  lemma RatesTaken(d: Draft, key: string, val: string)
    ensures var (r, ok) := LineResult(d, key, val); RatesTook(r.stats, key, val, ok)
  {
    hide FieldOf;
    hide ParseInt;
    hide ParseNat;
    hide TypeOf;
    hide CountType;
    hide FileStateOfType;
    LossKeys();
    RateKeys();
    TCPPortKeys();
  }

  lemma ScansTaken(d: Draft, key: string, val: string)
    ensures var (r, ok) := LineResult(d, key, val); ScansTook(r.stats, key, val, ok)
  {
    hide FieldOf;
    hide ParseInt;
    hide ParseNat;
    hide TypeOf;
    hide CountType;
    hide FileStateOfType;
    TCPPortKeys();
    PathScansExcludedKey();
    PathScansFailedKey();
    PathScansIrregularKey();
    PMTUKey();
  }

  lemma TotalsTaken(d: Draft, key: string, val: string)
    ensures var (r, ok) := LineResult(d, key, val); TotalsTook(r.stats, key, val, ok)
  {
    hide FieldOf;
    hide ParseInt;
    hide ParseNat;
    hide TypeOf;
    hide CountType;
    hide FileStateOfType;
    PreTransferBytesKey();
    PreTransferFilesKey();
    TransferBytesKey();
    NatNotNegative(val);
  }

  lemma TransfersTaken(d: Draft, key: string, val: string)
    ensures var (r, ok) := LineResult(d, key, val); TransfersTook(r.stats, key, val, ok)
  {
    hide FieldOf;
    hide ParseInt;
    hide ParseNat;
    hide TypeOf;
    hide CountType;
    hide FileStateOfType;
    TransfersAttemptedKey();
    TransfersFailedKey();
    TransfersPassedKey();
    TransfersSkippedKey();
  }

  lemma TextsTaken(d: Draft, key: string, val: string)
    ensures var (r, ok) := LineResult(d, key, val); TextsTook(r.stats, key, val, ok)
  {
    hide FieldOf;
    hide ParseInt;
    hide ParseNat;
    hide TypeOf;
    hide CountType;
    hide FileStateOfType;
    CookieKey();
    DestinationKey();
    DirectionKey();
    HostKey();
    ManifestFileKey();
    SourceKey();
    TokenKey();
    UserKey();
  }

  lemma IdsTaken(d: Draft, key: string, val: string)
    ensures var (r, ok) := LineResult(d, key, val); IdsTook(r.stats, key, val, ok)
  {
    hide FieldOf;
    hide ParseInt;
    hide ParseNat;
    hide TypeOf;
    hide CountType;
    hide FileStateOfType;
    SessionIdKey();
    ServerNodeIdKey();
    ServerClusterIdKey();
    ClientNodeIdKey();
    ClientClusterIdKey();
  }

  lemma FileTextsTaken(d: Draft, key: string, val: string)
    ensures var (r, ok) := LineResult(d, key, val); FileTextsTook(r.file, key, val, ok)
  {
    hide FieldOf;
    hide ParseInt;
    hide ParseNat;
    hide TypeOf;
    hide CountType;
    hide FileStateOfType;
    ChunkSizeKeys();
  }

  lemma OthersTaken(d: Draft, key: string, val: string)
    ensures var (r, ok) := LineResult(d, key, val); OthersTook(r.stats, r.chunkSize, r.isRemote, r.file, key, val, ok)
  {
    hide FieldOf;
    hide ParseInt;
    hide ParseNat;
    hide TypeOf;
    hide CountType;
    hide FileStateOfType;
    TypeKeys();
    ChunkSizeKeys();
  }

  lemma TypeNames(val: string)
    ensures TypeOf(val).Some? <==> IsTypeName(val)
  {
  }

  lemma TypeCounts(d: Draft, t: MessageType)
    ensures var r := Apply(d, TypeIs(t)); TypeTook(d.stats, r.stats, r.file, TypeName(t))
  {
  }

  lemma TypeTaken(d: Draft, val: string)
    ensures var (r, ok) := LineResult(d, "Type", val);
            (ok <==> IsTypeName(val)) && (ok ==> TypeTook(d.stats, r.stats, r.file, val))
  {
    hide FieldOf;
    hide TypeOf;
    hide TypeName;
    hide Apply;
    hide IsTypeName;
    hide TypeTook;
    TypeKeys();
    TypeNames(val);
    if TypeOf(val).Some? {
      NameOfType(val);
      TypeCounts(d, TypeOf(val).value);
    }
  }

  /** A key outside the table changes nothing. */
  lemma UnusedTaken(d: Draft, key: string, val: string)
    requires FieldOf(key) == Unused
    ensures LineResult(d, key, val) == (d, true)
  {
    hide FieldOf;
  }

  /** All that holds after a line. */
  predicate LineTook(before: Stats, s: Stats, chunkSize: int, isRemote: bool, r: FileRecord,
                     key: string, val: string, ok: bool) {
    && FileNumbersTook(r, key, val, ok) && MeasuresTook(s, key, val, ok) && RatesTook(s, key, val, ok)
    && ScansTook(s, key, val, ok) && TotalsTook(s, key, val, ok) && TransfersTook(s, key, val, ok)
    && TextsTook(s, key, val, ok) && IdsTook(s, key, val, ok) && FileTextsTook(r, key, val, ok)
    && OthersTook(s, chunkSize, isRemote, r, key, val, ok)
    && (key == "Priority" && val != "1" ==> s == before)
    && (key == "Type" ==> (ok <==> IsTypeName(val)) && (ok ==> TypeTook(before, s, r, val)))
  }

  lemma PriorityTaken(d: Draft, val: string)
    requires val != "1"
    ensures LineResult(d, "Priority", val) == (d, true)
  {
    hide FieldOf;
    TypeKeys();
  }

  /** What every line does, key by key: numbers in bounds, texts, flags and types are
      taken and found in their field, everything else is refused. */
  lemma LineTakes(d: Draft, key: string, val: string)
    ensures var (r, ok) := LineResult(d, key, val);
            LineTook(d.stats, r.stats, r.chunkSize, r.isRemote, r.file, key, val, ok)
  {
    hide LineResult;
    hide FileNumbersTook;
    hide MeasuresTook;
    hide RatesTook;
    hide ScansTook;
    hide TotalsTook;
    hide TransfersTook;
    hide TextsTook;
    hide IdsTook;
    hide FileTextsTook;
    hide OthersTook;
    hide TypeTook;
    hide IsTypeName;
    FileNumbersTaken(d, key, val);
    MeasuresTaken(d, key, val);
    RatesTaken(d, key, val);
    ScansTaken(d, key, val);
    TotalsTaken(d, key, val);
    TransfersTaken(d, key, val);
    TextsTaken(d, key, val);
    IdsTaken(d, key, val);
    FileTextsTaken(d, key, val);
    OthersTaken(d, key, val);
    if key == "Type" {
      TypeTaken(d, val);
    }
    if key == "Priority" && val != "1" {
      PriorityTaken(d, val);
    }
  }
}
