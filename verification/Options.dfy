/** Transfer options: validation, and the defaults that building a command line
    writes into the shared options object. */
module Options {
  import opened Text

  const DEFAULT_TARGET_RATE := 10000
  const DEFAULT_CHUNK_SIZE := 1024 * 1024
  const DEFAULT_UDP_PORT := 33001
  const DEFAULT_TCP_PORT := 22

  /** The options that are never written after construction.  The many flags that
      only append fixed arguments are kept as those arguments, in their order. */
  datatype Settings = Settings(
    autoDetectCapacity: bool, datagramSize: int, retryTimeoutS: int, transferRetry: int,
    otherChecksPass: bool,           // the remaining checks of validate
    ascp4ChecksPass: bool,           // validateForAscp4
    policyArgs: seq<string>, manifestArgs: seq<string>, middleArgs: seq<string>,
    lateArgs: seq<string>, preserveArgs: seq<string>, finalArgs: seq<string>,
    contentProtection: bool, destinationRoot: string)

  /** The options that building a command line may write. */
  datatype Values = Values(
    targetRate: int, minRate: int, udpPort: int, tcpPort: int, chunkSize: int,
    transferId: string, ascp4StreamFlag: bool)

  /** validate */
  predicate Accepts(s: Settings, v: Values) {
    && (s.datagramSize == 0 || 296 <= s.datagramSize <= 10000)
    && v.minRate >= 0
    && v.targetRate >= 0
    && v.targetRate >= v.minRate
    && 0 <= v.tcpPort <= 65535
    && 0 <= v.udpPort <= 65535
    && !(s.autoDetectCapacity && (v.minRate > 100 || v.targetRate > 100))
    && s.retryTimeoutS >= 0
    && s.transferRetry >= 0
    && s.otherChecksPass
    && (v.ascp4StreamFlag ==> s.ascp4ChecksPass)
  }

  /** The values after a command line was built and a session made from them;
      `newId` is used if there was no transfer id. */
  function Filled(s: Settings, v: Values, newId: string): Values {
    v.(targetRate := if v.targetRate != 0 then v.targetRate
                     else if s.autoDetectCapacity then 100 else DEFAULT_TARGET_RATE,
       udpPort := if v.udpPort == 0 then DEFAULT_UDP_PORT else v.udpPort,
       tcpPort := if v.tcpPort == 0 then DEFAULT_TCP_PORT else v.tcpPort,
       chunkSize := if v.chunkSize == 0 then DEFAULT_CHUNK_SIZE else v.chunkSize,
       transferId := if v.transferId == "" then newId else v.transferId)
  }

  /** The first check of validate that fails. */
  datatype OptionError =
    | BadDatagramSize | NegativeMinRate | NegativeTargetRate | MinAboveTarget | BadTcpPort | BadUdpPort
    | NotPercentages | NegativeRetryTimeout | NegativeTransferRetry | OtherCheckFailed | NotForAscp4

  /** validate, check by check.  The order of the checks among those of `otherChecksPass`
      is not kept. */
  function Validate(s: Settings, v: Values): Option<OptionError> {
    if s.datagramSize != 0 && (s.datagramSize < 296 || s.datagramSize > 10000) then Some(BadDatagramSize)
    else if v.minRate < 0 then Some(NegativeMinRate)
    else if v.targetRate < 0 then Some(NegativeTargetRate)
    else if v.targetRate < v.minRate then Some(MinAboveTarget)
    else if v.tcpPort < 0 || v.tcpPort > 65535 then Some(BadTcpPort)
    else if v.udpPort < 0 || v.udpPort > 65535 then Some(BadUdpPort)
    else if s.autoDetectCapacity && (v.minRate > 100 || v.targetRate > 100) then Some(NotPercentages)
    else if s.retryTimeoutS < 0 then Some(NegativeRetryTimeout)
    else if s.transferRetry < 0 then Some(NegativeTransferRetry)
    else if !s.otherChecksPass then Some(OtherCheckFailed)
    else if v.ascp4StreamFlag && !s.ascp4ChecksPass then Some(NotForAscp4)
    else None
  }

  /** The options pass all checks exactly if they are acceptable. */
  lemma ValidateAccepts(s: Settings, v: Values)
    ensures Validate(s, v) == None <==> Accepts(s, v)
  {
  }

  /** What is filled in: 10000 kbps or 100 percent, UDP port 33001, TCP port 22, chunks of
      one mebibyte, the new id; the minimum rate stays, and so does everything given. */
  lemma Defaults(s: Settings, v: Values, newId: string)
    ensures var f := Filled(s, v, newId);
            && (v.targetRate == 0 ==> f.targetRate == if s.autoDetectCapacity then 100 else 10000)
            && (v.udpPort == 0 ==> f.udpPort == 33001) && (v.tcpPort == 0 ==> f.tcpPort == 22)
            && (v.chunkSize == 0 ==> f.chunkSize == 1048576) && (v.transferId == "" ==> f.transferId == newId)
            && (v.targetRate != 0 ==> f.targetRate == v.targetRate) && f.minRate == v.minRate
            && (v.udpPort != 0 ==> f.udpPort == v.udpPort) && (v.tcpPort != 0 ==> f.tcpPort == v.tcpPort)
            && (v.chunkSize != 0 ==> f.chunkSize == v.chunkSize)
            && (v.transferId != "" ==> f.transferId == v.transferId)
            && f.ascp4StreamFlag == v.ascp4StreamFlag
  {
  }

  /** Values in which nothing is left to fill in. */
  predicate Complete(v: Values) {
    v.targetRate != 0 && v.udpPort != 0 && v.tcpPort != 0 && v.chunkSize != 0 && v.transferId != ""
  }

  /** Accepted options stay accepted once the defaults are in, and the filled values
      are in range: 0 <= min <= target with a positive target, both at most 100 under
      automatic detection, and ports in 1..65535. */
  lemma FilledAccepted(s: Settings, v: Values, newId: string)
    requires Accepts(s, v) && newId != ""
    ensures var f := Filled(s, v, newId);
            && Accepts(s, f) && Complete(f)
            && 0 <= f.minRate <= f.targetRate && 0 < f.targetRate
            && (s.autoDetectCapacity ==> f.minRate <= 100 && f.targetRate <= 100)
            && 1 <= f.udpPort <= 65535 && 1 <= f.tcpPort <= 65535
  {
  }

  /** Validation looks at the options before the defaults are in: options that would
      be acceptable with them are rejected exactly if a minimum rate is given without
      a target rate. */
  lemma ValidatedBeforeDefaults(s: Settings, v: Values, newId: string)
    requires Accepts(s, Filled(s, v, newId))
    ensures Accepts(s, v) <==> !(v.targetRate == 0 && v.minRate > 0)
  {
  }

  /** Filling in again changes nothing, whatever new id is offered. */
  lemma FilledStable(s: Settings, v: Values, newId: string, another: string)
    requires Accepts(s, v) && newId != ""
    ensures Filled(s, Filled(s, v, newId), another) == Filled(s, v, newId)
  {
  }

  /** generateUniqueId: a counter in decimal stands for the random identifier. */
  class IdSource {
    var next: nat

    constructor ()
    {
      next := 0;
    }

    method Generate() returns (id: string)
      modifies this
      ensures next == old(next) + 1 && id == PrintNat(old(next)) && id != ""
    {
      id := PrintNat(next);
      next := next + 1;
    }
  }

  /** The `--tags64` text: it carries the transfer id and the retry count. */
  function Tags(transferId: string, transferRetry: int): string {
    PrintInt(transferRetry) + ":" + transferId
  }

  /** Equal tags carry the same retry count and transfer id. */
  lemma TagsInjective(id1: string, retry1: int, id2: string, retry2: int)
    requires Tags(id1, retry1) == Tags(id2, retry2)
    ensures id1 == id2 && retry1 == retry2
  {
    var a, b := PrintInt(retry1), PrintInt(retry2);
    IndexFirst(a, ':', id1);
    IndexFirst(b, ':', id2);
    var t, u := a + ":" + id1, b + ":" + id2;
    assert t[..|a|] == a && u[..|b|] == b;
    assert t[|a| + 1..] == id1 && u[|b| + 1..] == id2;
    PrintIntInjective(retry1, retry2);
  }

  // getCommandLineParams for values in which the ports, the target rate and the
  // transfer id are set, in three parts.

  function ConnectionParams(s: Settings, v: Values): seq<string> {
    (if s.autoDetectCapacity then ["-wf"] else []) + s.policyArgs
    + ["-O " + PrintInt(v.udpPort), "-P " + PrintInt(v.tcpPort), "--retry-timeout=" + PrintInt(s.retryTimeoutS)]
    + (if v.ascp4StreamFlag then [] else s.manifestArgs)
  }

  function RateParams(s: Settings, v: Values): seq<string> {
    var percent := if s.autoDetectCapacity then "%" else "";
    ["-l" + PrintInt(v.targetRate) + percent]
    + (if v.minRate != 0 then ["-m" + PrintInt(v.minRate) + percent] else [])
  }

  function TagParams(s: Settings, v: Values): seq<string> {
    s.middleArgs + ["--tags64", Tags(v.transferId, s.transferRetry)] + s.lateArgs
    + (if v.ascp4StreamFlag then [] else s.preserveArgs)
    + s.finalArgs
  }

  function Params(s: Settings, v: Values): seq<string> {
    ConnectionParams(s, v) + RateParams(s, v) + TagParams(s, v)
  }

  class TransferOptions {
    const settings: Settings
    var targetRate: int
    var minRate: int
    var udpPort: int
    var tcpPort: int
    var chunkSize: int
    var transferId: string
    var ascp4StreamFlag: bool

    constructor (settings: Settings, v: Values)
      ensures this.settings == settings && Vals() == v
    {
      this.settings := settings;
      targetRate, minRate, udpPort, tcpPort := v.targetRate, v.minRate, v.udpPort, v.tcpPort;
      chunkSize, transferId, ascp4StreamFlag := v.chunkSize, v.transferId, v.ascp4StreamFlag;
    }

    function Vals(): Values
      reads this
    {
      Values(targetRate, minRate, udpPort, tcpPort, chunkSize, transferId, ascp4StreamFlag)
    }

    method GetTargetRateOrSetDefault() returns (r: int)
      modifies this`targetRate
      ensures r == targetRate == Filled(settings, old(Vals()), "").targetRate
    {
      if targetRate == 0 {
        if settings.autoDetectCapacity {
          targetRate := 100;
        } else {
          targetRate := DEFAULT_TARGET_RATE;
        }
      }
      r := targetRate;
    }

    /** The value set under automatic detection is overwritten at once. */
    method GetMinRateOrSetDefault() returns (r: int)
      modifies this`minRate
      ensures r == minRate == old(minRate)
    {
      if minRate == 0 {
        if settings.autoDetectCapacity {
          minRate := 100;
        }
        minRate := 0;
      }
      r := minRate;
    }

    method GetChunkSizeOrSetDefault() returns (r: int)
      modifies this`chunkSize
      ensures r == chunkSize == Filled(settings, old(Vals()), "").chunkSize
    {
      if chunkSize == 0 {
        chunkSize := DEFAULT_CHUNK_SIZE;
      }
      r := chunkSize;
    }

    method GetUdpPortOrSetDefault() returns (r: int)
      modifies this`udpPort
      ensures r == udpPort == Filled(settings, old(Vals()), "").udpPort
    {
      if udpPort == 0 {
        udpPort := DEFAULT_UDP_PORT;
      }
      r := udpPort;
    }

    method GetTcpPortOrSetDefault() returns (r: int)
      modifies this`tcpPort
      ensures r == tcpPort == Filled(settings, old(Vals()), "").tcpPort
    {
      if tcpPort == 0 {
        tcpPort := DEFAULT_TCP_PORT;
      }
      r := tcpPort;
    }

    /** A transfer id is generated once and kept. */
    method GetTransferIdOrSetDefault(ids: IdSource) returns (r: string)
      modifies this`transferId, ids
      ensures r == transferId == Filled(settings, old(Vals()), PrintNat(old(ids.next))).transferId
      ensures transferId != "" && old(ids.next) <= ids.next
    {
      if |transferId| == 0 {
        transferId := ids.Generate();
      }
      r := transferId;
    }

    method ConnectionArgs() returns (args: seq<string>)
      modifies this`udpPort, this`tcpPort
      ensures args == ConnectionParams(settings, Vals())
      ensures udpPort == Filled(settings, old(Vals()), "").udpPort
      ensures tcpPort == Filled(settings, old(Vals()), "").tcpPort
    {
      hide PrintInt;
      args := [];
      if settings.autoDetectCapacity {
        args := args + ["-wf"];
      }
      args := args + settings.policyArgs;
      var udp := GetUdpPortOrSetDefault();
      var tcp := GetTcpPortOrSetDefault();
      args := args + ["-O " + PrintInt(udp), "-P " + PrintInt(tcp),
                      "--retry-timeout=" + PrintInt(settings.retryTimeoutS)];
      if !ascp4StreamFlag {
        args := args + settings.manifestArgs;
      }
    }

    method RateArgs() returns (args: seq<string>)
      modifies this`targetRate, this`minRate
      ensures args == RateParams(settings, Vals())
      ensures targetRate == Filled(settings, old(Vals()), "").targetRate && minRate == old(minRate)
    {
      hide PrintInt;
      var percent := if settings.autoDetectCapacity then "%" else "";
      var target := GetTargetRateOrSetDefault();
      args := ["-l" + PrintInt(target) + percent];
      if minRate != 0 {
        var min := GetMinRateOrSetDefault();
        args := args + ["-m" + PrintInt(min) + percent];
      }
    }

    method TagArgs(ids: IdSource) returns (args: seq<string>)
      modifies this`transferId, ids
      ensures args == TagParams(settings, Vals())
      ensures transferId == Filled(settings, old(Vals()), PrintNat(old(ids.next))).transferId != ""
      ensures old(ids.next) <= ids.next
    {
      hide PrintNat;
      hide Tags;
      var id := GetTransferIdOrSetDefault(ids);
      args := settings.middleArgs + ["--tags64", Tags(id, settings.transferRetry)] + settings.lateArgs;
      if !ascp4StreamFlag {
        args := args + settings.preserveArgs;
      }
      args := args + settings.finalArgs;
    }

    /** getCommandLineParams: the arguments, with the defaults written back. */
    method GetCommandLineParams(ids: IdSource) returns (args: seq<string>)
      modifies this, ids
      ensures args == Params(settings, Vals())
      ensures Vals() == Filled(settings, old(Vals()), PrintNat(old(ids.next))).(chunkSize := old(chunkSize))
      ensures transferId != "" && old(ids.next) <= ids.next
    {
      hide PrintInt;
      hide PrintNat;
      hide Tags;
      var connection := ConnectionArgs();
      var rates := RateArgs();
      var tags := TagArgs(ids);
      args := connection + rates + tags;
    }
  }
}
