/** Reading an ascp command line: the flags of an order and of its filled options are
    found again in the arguments built from them. */
module CommandReader {
  import opened Text
  import opened Options
  import opened Orders

  // ---------- Flags with a value ----------

  /** No argument has the prefix. */
  predicate NoneWith(args: seq<string>, p: string) {
    forall i :: 0 <= i < |args| ==> !HasPrefix(args[i], p)
  }

  /** The text after the prefix, in the first argument that has it. */
  function ValueOf(args: seq<string>, p: string): Option<string> {
    if args == [] then None
    else if HasPrefix(args[0], p) then Some(args[0][|p|..])
    else ValueOf(args[1..], p)
  }

  lemma {:induction false} ValueConcat(a: seq<string>, b: seq<string>, p: string)
    ensures ValueOf(a + b, p) == if NoneWith(a, p) then ValueOf(b, p) else ValueOf(a, p)
    ensures NoneWith(a + b, p) <==> NoneWith(a, p) && NoneWith(b, p)
    decreases |a|
  {
    hide HasPrefix;
    NoneConcat(a, b, p);
    if a == [] {
      assert a + b == b;
    } else {
      assert (a + b)[1..] == a[1..] + b;
      ValueConcat(a[1..], b, p);
      assert NoneWith(a, p) <==> !HasPrefix(a[0], p) && NoneWith(a[1..], p) by {
        assert a == [a[0]] + a[1..];
        NoneConcat([a[0]], a[1..], p);
      }
    }
  }

  lemma NoneConcat(a: seq<string>, b: seq<string>, p: string)
    ensures NoneWith(a + b, p) <==> NoneWith(a, p) && NoneWith(b, p)
  {
    hide HasPrefix;
    if NoneWith(a + b, p) {
      assert forall i :: 0 <= i < |a| ==> (a + b)[i] == a[i];
      assert forall i :: 0 <= i < |b| ==> (a + b)[|a| + i] == b[i];
    }
  }

  lemma ValueOne(x: string, p: string)
    ensures ValueOf([p + x], p) == Some(x) && !NoneWith([p + x], p)
  {
    assert (p + x)[..|p|] == p && (p + x)[|p|..] == x;
    assert HasPrefix([p + x][0], p);
  }

  /** A flag that differs in a letter. */
  lemma OtherFlag(x: string, p: string, k: nat)
    requires k < |p| && (k >= |x| || x[k] != p[k])
    ensures NoneWith([x], p)
  {
    if HasPrefix(x, p) {
      PrefixAt(x, p, k);
    }
  }

  lemma PrefixAt(x: string, p: string, k: nat)
    requires HasPrefix(x, p) && k < |p|
    ensures k < |x| && x[k] == p[k]
  {
    assert x[..|p|][k] == x[k];
  }

  // ---------- The reading ----------

  /** A rate, and whether it is a percentage. */
  datatype RateText = RateText(rate: int, percent: bool)

  function ReadRate(text: string): Option<RateText> {
    if text != "" && text[|text| - 1] == '%' then
      match ParseInt(text[..|text| - 1])
      case Some(n) => Some(RateText(n, true))
      case None => None
    else
      match ParseInt(text)
      case Some(n) => Some(RateText(n, false))
      case None => None
  }

  function ReadNumber(text: Option<string>): Option<int> {
    match text
    case Some(t) => ParseInt(t)
    case None => None
  }

  function ReadRateOf(text: Option<string>): Option<RateText> {
    match text
    case Some(t) => ReadRate(t)
    case None => None
  }

  /** The position of the first argument that is `x`, or the number of arguments. */
  function Position(args: seq<string>, x: string): (i: nat)
    ensures i <= |args|
    ensures i < |args| ==> args[i] == x
    ensures forall j :: 0 <= j < i ==> args[j] != x
  {
    if args == [] || args[0] == x then 0 else 1 + Position(args[1..], x)
  }

  /** The arguments before the first with the prefix. */
  function BeforeFlag(args: seq<string>, p: string): seq<string> {
    if args == [] || HasPrefix(args[0], p) then [] else [args[0]] + BeforeFlag(args[1..], p)
  }

  datatype Reading = Reading(
    stream: bool, keepalive: bool, ipv6: bool, download: bool, upload: bool,
    host: Option<string>, user: Option<string>,
    udpPort: Option<int>, tcpPort: Option<int>,
    targetRate: Option<RateText>, minRate: Option<RateText>,
    destination: string)

  function ReadCommand(args: seq<string>): Reading
    requires args != []
  {
    var q := Position(args, "-q");
    var mode := if 0 < q < |args| then args[q - 1] else "";
    Reading(
      args[0] == "--faspmgr-io", args[0] == "--keepalive", "-6" in args[..q],
      mode == "--mode=recv", mode == "--mode=send",
      ValueOf(args, "--host="), ValueOf(args, "--user="),
      ReadNumber(ValueOf(args, "-O ")), ReadNumber(ValueOf(args, "-P ")),
      ReadRateOf(ValueOf(args, "-l")), ReadRateOf(ValueOf(BeforeFlag(args, "--host="), "-m")),
      args[|args| - 1])
  }

  // ---------- What the arguments of the other options must not look like ----------

  predicate Foreign(args: seq<string>) {
    && NoneWith(args, "-O ") && NoneWith(args, "-P ") && NoneWith(args, "-l") && NoneWith(args, "-m")
    && NoneWith(args, "--host=") && NoneWith(args, "--user=")
  }

  /** None of the arguments of the options that are kept as fixed lists is one of the
      flags that are read here.  Extra options given by the caller could be. */
  predicate NoFlagsAmongOthers(s: Settings) {
    && Foreign(s.policyArgs) && Foreign(s.manifestArgs) && Foreign(s.middleArgs) && Foreign(s.lateArgs)
    && Foreign(s.preserveArgs) && Foreign(s.finalArgs)
  }

  lemma ForeignConcat(a: seq<string>, b: seq<string>)
    requires Foreign(a) && Foreign(b)
    ensures Foreign(a + b)
  {
    hide NoneWith;
    NoneConcat(a, b, "-O ");
    NoneConcat(a, b, "-P ");
    NoneConcat(a, b, "-l");
    NoneConcat(a, b, "-m");
    NoneConcat(a, b, "--host=");
    NoneConcat(a, b, "--user=");
  }

  /** An argument whose second letter is none of those flags'. */
  lemma ForeignOne(x: string)
    requires |x| < 2 || (x[1] != 'O' && x[1] != 'P' && x[1] != 'l' && x[1] != 'm')
    requires |x| < 3 || x[1] != '-' || (x[2] != 'h' && x[2] != 'u')
    ensures Foreign([x])
  {
    OtherFlag(x, "-O ", 1);
    OtherFlag(x, "-P ", 1);
    OtherFlag(x, "-l", 1);
    OtherFlag(x, "-m", 1);
    var k := if |x| < 2 || x[1] != '-' then 1 else 2;
    OtherFlag(x, "--host=", k);
    OtherFlag(x, "--user=", k);
  }

  lemma ForeignNothing()
    ensures Foreign([])
  {
  }

  // ---------- The parts of a command line ----------

  lemma ForeignMode(o: Order)
    ensures Foreign(ModeArgs(o))
  {
    hide Foreign;
    ForeignNothing();
    ForeignOne("--faspmgr-io");
    ForeignOne("--keepalive");
    ForeignOne("-6");
    var mode := if o.download then "--mode=recv" else "--mode=send";
    ForeignOne(mode);
    ForeignOne("-q");
    assert [mode, "-q"] == [mode] + ["-q"];
    ForeignConcat([mode], ["-q"]);
    var kind := if o.stream then ["--faspmgr-io"] else if o.persistent then ["--keepalive"] else [];
    var ipv6 := if o.hostIsIPv6 then ["-6"] else [];
    ForeignConcat(kind, ipv6);
    ForeignConcat(kind + ipv6, [mode, "-q"]);
  }

  lemma ForeignTags(id: string, retry: int)
    ensures Foreign(["--tags64", Tags(id, retry)])
  {
    hide Foreign;
    var text := Tags(id, retry);
    SignOrDigit(retry);
    assert text[0] == PrintInt(retry)[0] && (|PrintInt(retry)| > 1 ==> text[1] == PrintInt(retry)[1]);
    ForeignOne("--tags64");
    ForeignOne(text);
    assert ["--tags64", text] == ["--tags64"] + [text];
    ForeignConcat(["--tags64"], [text]);
  }

  lemma SignOrDigit(n: int)
    ensures |PrintInt(n)| > 1 ==> IsDigit(PrintInt(n)[1])
  {
    if n >= 0 {
      assert Digits(PrintNat(n));
    } else {
      assert Digits(PrintNat(-n));
    }
  }

  lemma ForeignTagParams(s: Settings, v: Values)
    requires NoFlagsAmongOthers(s)
    ensures Foreign(TagParams(s, v))
  {
    hide Foreign;
    hide Tags;
    ForeignTags(v.transferId, s.transferRetry);
    ForeignNothing();
    var tags := ["--tags64", Tags(v.transferId, s.transferRetry)];
    var preserve := if v.ascp4StreamFlag then [] else s.preserveArgs;
    ForeignConcat(s.middleArgs, tags);
    ForeignConcat(s.middleArgs + tags, s.lateArgs);
    ForeignConcat(s.middleArgs + tags + s.lateArgs, preserve);
    ForeignConcat(s.middleArgs + tags + s.lateArgs + preserve, s.finalArgs);
  }

  /** A part that carries the flag with this value, before any other. */
  predicate Carries(args: seq<string>, p: string, x: string) {
    !NoneWith(args, p) && ValueOf(args, p) == Some(x)
  }

  lemma CarriesFirst(a: seq<string>, b: seq<string>, p: string, x: string)
    requires Carries(a, p, x)
    ensures Carries(a + b, p, x)
  {
    hide NoneWith;
    hide ValueOf;
    ValueConcat(a, b, p);
  }

  lemma CarriesLater(a: seq<string>, b: seq<string>, p: string, x: string)
    requires NoneWith(a, p) && Carries(b, p, x)
    ensures Carries(a + b, p, x)
  {
    hide NoneWith;
    hide ValueOf;
    ValueConcat(a, b, p);
  }

  lemma CarriesOne(p: string, x: string)
    ensures Carries([p + x], p, x)
  {
    ValueOne(x, p);
  }

  lemma PortArgs(udp: string, tcp: string, retry: string)
    ensures var args := ["-O " + udp, "-P " + tcp, "--retry-timeout=" + retry];
            && Carries(args, "-O ", udp) && Carries(args, "-P ", tcp)
            && NoneWith(args, "-l") && NoneWith(args, "-m") && NoneWith(args, "--host=") && NoneWith(args, "--user=")
  {
    hide Carries;
    hide NoneWith;
    var o, p, r := "-O " + udp, "-P " + tcp, "--retry-timeout=" + retry;
    assert [o, p, r] == [o] + ([p] + [r]);
    CarriesOne("-O ", udp);
    CarriesOne("-P ", tcp);
    CarriesFirst([o], [p] + [r], "-O ", udp);
    OtherFlag(o, "-P ", 1);
    CarriesFirst([p], [r], "-P ", tcp);
    CarriesLater([o], [p] + [r], "-P ", tcp);
    NoneOfThree(o, p, r, "-l");
    NoneOfThree(o, p, r, "-m");
    NoneOfThree(o, p, r, "--host=");
    NoneOfThree(o, p, r, "--user=");
  }

  lemma NoneOfThree(a: string, b: string, c: string, p: string)
    requires |a| > 2 && |b| > 2 && |c| > 2 && |p| > 1
    requires a[1] != p[1] && b[1] != p[1] && (c[1] != p[1] || (|p| > 2 && c[2] != p[2]))
    ensures NoneWith([a] + ([b] + [c]), p)
  {
    hide NoneWith;
    OtherFlag(a, p, 1);
    OtherFlag(b, p, 1);
    OtherFlag(c, p, if c[1] != p[1] then 1 else 2);
    NoneConcat([b], [c], p);
    NoneConcat([a], [b] + [c], p);
  }

  lemma ConnectionRead(s: Settings, v: Values)
    requires NoFlagsAmongOthers(s)
    ensures var args := ConnectionParams(s, v);
            && Carries(args, "-O ", PrintInt(v.udpPort)) && Carries(args, "-P ", PrintInt(v.tcpPort))
            && NoneWith(args, "-l") && NoneWith(args, "-m") && NoneWith(args, "--host=") && NoneWith(args, "--user=")
  {
    hide Carries;
    hide NoneWith;
    hide PrintInt;
    var wf := if s.autoDetectCapacity then ["-wf"] else [];
    var ports := ["-O " + PrintInt(v.udpPort), "-P " + PrintInt(v.tcpPort),
                  "--retry-timeout=" + PrintInt(s.retryTimeoutS)];
    var manifest := if v.ascp4StreamFlag then [] else s.manifestArgs;
    ForeignOne("-wf");
    ForeignNothing();
    ForeignConcat(wf, s.policyArgs);
    PortArgs(PrintInt(v.udpPort), PrintInt(v.tcpPort), PrintInt(s.retryTimeoutS));
    var head := wf + s.policyArgs;
    CarriesLater(head, ports, "-O ", PrintInt(v.udpPort));
    CarriesLater(head, ports, "-P ", PrintInt(v.tcpPort));
    CarriesFirst(head + ports, manifest, "-O ", PrintInt(v.udpPort));
    CarriesFirst(head + ports, manifest, "-P ", PrintInt(v.tcpPort));
    NoneInThree(head, ports, manifest, "-l");
    NoneInThree(head, ports, manifest, "-m");
    NoneInThree(head, ports, manifest, "--host=");
    NoneInThree(head, ports, manifest, "--user=");
  }

  lemma NoneInThree(a: seq<string>, b: seq<string>, c: seq<string>, p: string)
    requires NoneWith(a, p) && NoneWith(b, p) && NoneWith(c, p)
    ensures NoneWith(a + b + c, p)
  {
    hide NoneWith;
    NoneConcat(a, b, p);
    NoneConcat(a + b, c, p);
  }

  function RateValue(rate: int, percent: bool): string {
    PrintInt(rate) + (if percent then "%" else "")
  }

  lemma RateReadBack(rate: int, percent: bool)
    ensures ReadRate(RateValue(rate, percent)) == Some(RateText(rate, percent))
  {
    hide ParseInt;
    ParsePrint(rate);
    var digits := PrintInt(rate);
    if percent {
      assert (digits + "%")[..|digits|] == digits;
    } else {
      LastIsDigit(rate);
      assert digits + "" == digits;
    }
  }

  lemma LastIsDigit(n: int)
    ensures var s := PrintInt(n); s[|s| - 1] != '%'
  {
    var digits := PrintNat(if n < 0 then -n else n);
    assert IsDigit(digits[|digits| - 1]);
  }

  lemma RatesRead(s: Settings, v: Values)
    ensures var args := RateParams(s, v);
            && Carries(args, "-l", RateValue(v.targetRate, s.autoDetectCapacity))
            && (v.minRate != 0 ==> Carries(args, "-m", RateValue(v.minRate, s.autoDetectCapacity)))
            && (v.minRate == 0 ==> NoneWith(args, "-m"))
            && NoneWith(args, "--host=") && NoneWith(args, "--user=")
  {
    hide Carries;
    hide NoneWith;
    hide PrintInt;
    var percent := if s.autoDetectCapacity then "%" else "";
    var l, m := "-l" + PrintInt(v.targetRate) + percent, "-m" + PrintInt(v.minRate) + percent;
    Assoc("-l", PrintInt(v.targetRate), percent);
    Assoc("-m", PrintInt(v.minRate), percent);
    CarriesOne("-l", RateValue(v.targetRate, s.autoDetectCapacity));
    CarriesOne("-m", RateValue(v.minRate, s.autoDetectCapacity));
    var last := if v.minRate != 0 then [m] else [];
    ForeignNothing();
    CarriesFirst([l], last, "-l", RateValue(v.targetRate, s.autoDetectCapacity));
    OtherFlag(l, "-m", 1);
    OtherFlag(l, "--host=", 1);
    OtherFlag(l, "--user=", 1);
    OtherFlag(m, "--host=", 1);
    OtherFlag(m, "--user=", 1);
    NoneConcat([l], last, "--host=");
    NoneConcat([l], last, "--user=");
    NoneConcat([l], last, "-m");
    if v.minRate != 0 {
      CarriesLater([l], last, "-m", RateValue(v.minRate, s.autoDetectCapacity));
    }
  }

  /** What getCommandLineParams gives. */
  lemma ParamsRead(s: Settings, v: Values)
    requires NoFlagsAmongOthers(s)
    ensures var args := Params(s, v);
            && Carries(args, "-O ", PrintInt(v.udpPort)) && Carries(args, "-P ", PrintInt(v.tcpPort))
            && Carries(args, "-l", RateValue(v.targetRate, s.autoDetectCapacity))
            && (v.minRate != 0 ==> Carries(args, "-m", RateValue(v.minRate, s.autoDetectCapacity)))
            && (v.minRate == 0 ==> NoneWith(args, "-m"))
            && NoneWith(args, "--host=") && NoneWith(args, "--user=")
  {
    hide Carries;
    hide NoneWith;
    hide PrintInt;
    hide RateValue;
    hide ConnectionParams;
    hide RateParams;
    hide TagParams;
    var c, r, t := ConnectionParams(s, v), RateParams(s, v), TagParams(s, v);
    ConnectionRead(s, v);
    RatesRead(s, v);
    ForeignTagParams(s, v);
    var target, min := RateValue(v.targetRate, s.autoDetectCapacity), RateValue(v.minRate, s.autoDetectCapacity);
    FirstOfThree(c, r, t, "-O ", PrintInt(v.udpPort));
    FirstOfThree(c, r, t, "-P ", PrintInt(v.tcpPort));
    SecondOfThree(c, r, t, "-l", target);
    if v.minRate != 0 {
      SecondOfThree(c, r, t, "-m", min);
    } else {
      NoneInThree(c, r, t, "-m");
    }
    NoneInThree(c, r, t, "--host=");
    NoneInThree(c, r, t, "--user=");
  }

  lemma FirstOfThree(a: seq<string>, b: seq<string>, c: seq<string>, p: string, x: string)
    requires Carries(a, p, x)
    ensures Carries(a + b + c, p, x)
  {
    hide Carries;
    CarriesFirst(a, b, p, x);
    CarriesFirst(a + b, c, p, x);
  }

  lemma SecondOfThree(a: seq<string>, b: seq<string>, c: seq<string>, p: string, x: string)
    requires NoneWith(a, p) && Carries(b, p, x)
    ensures Carries(a + b + c, p, x)
  {
    hide Carries;
    hide NoneWith;
    CarriesLater(a, b, p, x);
    CarriesFirst(a + b, c, p, x);
  }

  // ---------- Host and user ----------

  function CryptArgs(o: Order, s: Settings): seq<string> {
    if s.contentProtection then [if o.download then "--file-crypt=decrypt" else "--file-crypt=encrypt"] else []
  }

  lemma HostRead(o: Order, s: Settings)
    ensures var args := HostArgs(o, s);
            && Carries(args, "--host=", o.host) && Carries(args, "--user=", o.user)
            && BeforeFlag(args, "--host=") == CryptArgs(o, s) && Foreign(CryptArgs(o, s))
  {
    hide Carries;
    hide NoneWith;
    hide Foreign;
    var crypt, identity := CryptArgs(o, s), if o.identity != "" then ["-i", o.identity] else [];
    var h, u := "--host=" + o.host, "--user=" + o.user;
    ForeignNothing();
    ForeignOne("--file-crypt=decrypt");
    ForeignOne("--file-crypt=encrypt");
    CryptForeign(crypt);
    assert [h, u] == [h] + [u];
    CarriesOne("--host=", o.host);
    CarriesOne("--user=", o.user);
    CarriesFirst([h], [u], "--host=", o.host);
    OtherFlag(h, "--user=", 2);
    CarriesLater([h], [u], "--user=", o.user);
    SecondOfThree(crypt, [h, u], identity, "--host=", o.host);
    SecondOfThree(crypt, [h, u], identity, "--user=", o.user);
    BeforeHost(crypt, h, [u] + identity);
    assert HostArgs(o, s) == crypt + [h] + ([u] + identity);
  }

  lemma CryptForeign(crypt: seq<string>)
    requires Foreign(crypt)
    ensures NoneWith(crypt, "--host=") && NoneWith(crypt, "--user=")
  {
  }

  lemma {:induction false} BeforeHost(a: seq<string>, x: string, b: seq<string>)
    requires NoneWith(a, "--host=") && HasPrefix(x, "--host=")
    ensures BeforeFlag(a + [x] + b, "--host=") == a
  {
    hide HasPrefix;
    var args := a + [x] + b;
    if a != [] {
      assert args[0] == a[0] && args[1..] == a[1..] + [x] + b;
      BeforeHost(a[1..], x, b);
    } else {
      assert args[0] == x;
    }
  }

  lemma {:induction false} NoneValue(args: seq<string>, p: string)
    requires NoneWith(args, p)
    ensures ValueOf(args, p) == None
  {
    hide HasPrefix;
    if args != [] {
      assert !HasPrefix(args[0], p);
      NoneValue(args[1..], p);
    }
  }

  lemma {:induction false} BeforeFlagConcat(a: seq<string>, b: seq<string>, p: string)
    requires NoneWith(a, p)
    ensures BeforeFlag(a + b, p) == a + BeforeFlag(b, p)
  {
    hide HasPrefix;
    if a == [] {
      assert a + b == b && [] + BeforeFlag(b, p) == BeforeFlag(b, p);
    } else {
      assert (a + b)[0] == a[0] && (a + b)[1..] == a[1..] + b;
      BeforeFlagConcat(a[1..], b, p);
      assert a == [a[0]] + a[1..];
      assert [a[0]] + (a[1..] + BeforeFlag(b, p)) == a + BeforeFlag(b, p);
    }
  }

  lemma BeforeFlagFirst(a: seq<string>, b: seq<string>, p: string)
    requires !NoneWith(a, p)
    ensures BeforeFlag(a + b, p) == BeforeFlag(a, p)
  {
    hide HasPrefix;
    assert (a + b)[0] == a[0] && (a + b)[1..] == a[1..] + b;
    if !HasPrefix(a[0], p) {
      assert a == [a[0]] + a[1..];
      NoneConcat([a[0]], a[1..], p);
      assert !NoneWith(a[1..], p);
      BeforeFlagFirst(a[1..], b, p);
    }
  }

  // ---------- The mode ----------

  lemma {:induction false} PositionIn(a: seq<string>, x: string, b: seq<string>)
    requires x !in a
    ensures Position(a + [x] + b, x) == |a|
  {
    var args := a + [x] + b;
    if a == [] {
      assert args[0] == x;
    } else {
      assert args[0] == a[0] && args[1..] == a[1..] + [x] + b;
      PositionIn(a[1..], x, b);
    }
  }

  /** The arguments of the mode without the final -q. */
  function ModeFlags(o: Order): seq<string> {
    (if o.stream then ["--faspmgr-io"] else if o.persistent then ["--keepalive"] else [])
    + (if o.hostIsIPv6 then ["-6"] else [])
    + [if o.download then "--mode=recv" else "--mode=send"]
  }

  lemma ModeRead(o: Order, rest: seq<string>)
    ensures var args := ModeArgs(o) + rest;
            var q := Position(args, "-q");
            && 0 < q < |args|
            && (args[0] == "--faspmgr-io" <==> o.stream)
            && (args[0] == "--keepalive" <==> o.persistent && !o.stream)
            && ("-6" in args[..q] <==> o.hostIsIPv6)
            && (args[q - 1] == "--mode=recv" <==> o.download) && (args[q - 1] == "--mode=send" <==> !o.download)
  {
    var flags := ModeFlags(o);
    assert ModeArgs(o) == flags + ["-q"];
    FlagsDiffer();
    PositionIn(flags, "-q", rest);
    var args := flags + ["-q"] + rest;
    assert args[..|flags|] == flags;
    assert flags[|flags| - 1] == (if o.download then "--mode=recv" else "--mode=send");
    assert args[0] == flags[0];
    if o.hostIsIPv6 {
      assert flags[|flags| - 2] == "-6";
    }
  }

  lemma FlagsDiffer()
    ensures "-q" != "-6" && "-q" != "--mode=recv" && "-q" != "--mode=send"
    ensures "-q" != "--keepalive" && "-q" != "--faspmgr-io"
    ensures "-6" != "--mode=recv" && "-6" != "--mode=send" && "-6" != "--keepalive" && "-6" != "--faspmgr-io"
    ensures "--mode=recv" != "--mode=send" && "--mode=recv" != "--keepalive" && "--mode=recv" != "--faspmgr-io"
    ensures "--mode=send" != "--keepalive" && "--mode=send" != "--faspmgr-io" && "--keepalive" != "--faspmgr-io"
  {
    assert "--mode=recv"[7] != "--mode=send"[7];
  }

  // ---------- The whole command line ----------

  /** The root directory given by the options, or else the first destination, or else
      the current directory. */
  function DestinationOf(o: Order, s: Settings): string {
    if s.destinationRoot != "" then s.destinationRoot
    else if |o.dests| > 0 then o.dests[0]
    else "."
  }

  lemma LinePart(o: Order, s: Settings, v: Values, list: Option<string>, p: string, x: string)
    requires (Carries(Params(s, v), p, x) || (NoneWith(Params(s, v), p) && Carries(HostArgs(o, s), p, x)))
    requires NoneWith(ModeArgs(o), p)
    ensures Carries(CommandLine(o, s, v, list), p, x)
  {
    hide Carries;
    hide NoneWith;
    hide ModeArgs;
    hide Params;
    hide HostArgs;
    hide ListArgs;
    hide DestinationArgs;
    var m, a, h, l, d := ModeArgs(o), Params(s, v), HostArgs(o, s), ListArgs(o, list), DestinationArgs(o, s, v);
    if Carries(a, p, x) {
      SecondOfThree(m, a, h, p, x);
    } else {
      NoneConcat(m, a, p);
      CarriesLater(m + a, h, p, x);
    }
    CarriesFirst(m + a + h, l, p, x);
    CarriesFirst(m + a + h + l, d, p, x);
  }

  lemma BeforeHostPart(o: Order, s: Settings, v: Values, list: Option<string>)
    requires NoFlagsAmongOthers(s)
    ensures BeforeFlag(CommandLine(o, s, v, list), "--host=") == ModeArgs(o) + Params(s, v) + CryptArgs(o, s)
  {
    hide NoneWith;
    hide NoFlagsAmongOthers;
    hide ModeArgs;
    hide Params;
    hide HostArgs;
    hide CryptArgs;
    hide ListArgs;
    hide DestinationArgs;
    var m, a, h, l, d := ModeArgs(o), Params(s, v), HostArgs(o, s), ListArgs(o, list), DestinationArgs(o, s, v);
    ForeignMode(o);
    ModeNotHost(o);
    ParamsRead(s, v);
    HostRead(o, s);
    NoneConcat(m, a, "--host=");
    BeforeFlagConcat(m + a, h, "--host=");
    NoneConcat(m + a, h, "--host=");
    BeforeFlagFirst(m + a + h, l, "--host=");
    NoneConcat(m + a + h, l, "--host=");
    BeforeFlagFirst(m + a + h + l, d, "--host=");
  }

  lemma ModeNotHost(o: Order)
    requires Foreign(ModeArgs(o))
    ensures forall p :: p in {"-O ", "-P ", "-l", "-m", "--host=", "--user="} ==> NoneWith(ModeArgs(o), p)
  {
    hide NoneWith;
    hide ModeArgs;
  }

  /** The minimum rate stands before the host, or is missing there. */
  lemma MinRateRead(o: Order, s: Settings, v: Values, list: Option<string>)
    requires NoFlagsAmongOthers(s)
    ensures ValueOf(BeforeFlag(CommandLine(o, s, v, list), "--host="), "-m")
         == if v.minRate != 0 then Some(RateValue(v.minRate, s.autoDetectCapacity)) else None
  {
    hide NoneWith;
    hide NoFlagsAmongOthers;
    hide ModeArgs;
    hide Params;
    hide CryptArgs;
    hide CommandLine;
    hide ValueOf;
    hide BeforeFlag;
    hide RateValue;
    BeforeHostPart(o, s, v, list);
    ForeignMode(o);
    ModeNotHost(o);
    ParamsRead(s, v);
    HostRead(o, s);
    CryptNotMin(o, s);
    if v.minRate != 0 {
      SecondOfThree(ModeArgs(o), Params(s, v), CryptArgs(o, s), "-m", RateValue(v.minRate, s.autoDetectCapacity));
    } else {
      NoneInThree(ModeArgs(o), Params(s, v), CryptArgs(o, s), "-m");
      NoneValue(ModeArgs(o) + Params(s, v) + CryptArgs(o, s), "-m");
    }
  }

  lemma CryptNotMin(o: Order, s: Settings)
    requires Foreign(CryptArgs(o, s))
    ensures NoneWith(CryptArgs(o, s), "-m")
  {
    hide NoneWith;
    hide CryptArgs;
  }

  lemma DestinationIsLast(o: Order, s: Settings, v: Values, list: Option<string>)
    ensures var args := CommandLine(o, s, v, list); args != [] && args[|args| - 1] == DestinationOf(o, s)
  {
    hide ModeArgs;
    hide Params;
    hide HostArgs;
    hide ListArgs;
  }

  /** The whole command line is read back: direction, kind of session, host, user, ports
      and rates, and the destination, whatever the other options add, as long as
      none of them is one of the flags read here. */
  lemma CommandReadBack(o: Order, s: Settings, v: Values, list: Option<string>)
    requires NoFlagsAmongOthers(s)
    ensures CommandLine(o, s, v, list) != []
    ensures ReadCommand(CommandLine(o, s, v, list)) == Reading(
              o.stream, o.persistent && !o.stream, o.hostIsIPv6, o.download, !o.download,
              Some(o.host), Some(o.user), Some(v.udpPort), Some(v.tcpPort),
              Some(RateText(v.targetRate, s.autoDetectCapacity)),
              if v.minRate != 0 then Some(RateText(v.minRate, s.autoDetectCapacity)) else None,
              DestinationOf(o, s))
  {
    hide NoneWith;
    hide NoFlagsAmongOthers;
    hide ModeArgs;
    hide Params;
    hide HostArgs;
    hide ListArgs;
    hide DestinationArgs;
    hide DestinationOf;
    hide ValueOf;
    hide BeforeFlag;
    hide RateValue;
    hide ReadRate;
    hide ParseInt;
    hide PrintInt;
    hide Position;
    var args := CommandLine(o, s, v, list);
    ModeFirst(o, s, v, list);
    ForeignMode(o);
    ModeNotHost(o);
    ParamsRead(s, v);
    HostRead(o, s);
    LinePart(o, s, v, list, "-O ", PrintInt(v.udpPort));
    LinePart(o, s, v, list, "-P ", PrintInt(v.tcpPort));
    LinePart(o, s, v, list, "-l", RateValue(v.targetRate, s.autoDetectCapacity));
    LinePart(o, s, v, list, "--host=", o.host);
    LinePart(o, s, v, list, "--user=", o.user);
    MinRateRead(o, s, v, list);
    DestinationIsLast(o, s, v, list);
    ParsePrint(v.udpPort);
    ParsePrint(v.tcpPort);
    RateReadBack(v.targetRate, s.autoDetectCapacity);
    RateReadBack(v.minRate, s.autoDetectCapacity);
  }

  lemma ModeFirst(o: Order, s: Settings, v: Values, list: Option<string>)
    ensures var args := CommandLine(o, s, v, list);
            var q := Position(args, "-q");
            && 0 < q < |args|
            && (args[0] == "--faspmgr-io" <==> o.stream)
            && (args[0] == "--keepalive" <==> o.persistent && !o.stream)
            && ("-6" in args[..q] <==> o.hostIsIPv6)
            && (args[q - 1] == "--mode=recv" <==> o.download) && (args[q - 1] == "--mode=send" <==> !o.download)
  {
    hide ModeArgs;
    hide Params;
    hide HostArgs;
    hide ListArgs;
    hide DestinationArgs;
    hide Position;
    var m, a, h, l, d := ModeArgs(o), Params(s, v), HostArgs(o, s), ListArgs(o, list), DestinationArgs(o, s, v);
    Assoc(m, a, h);
    Assoc(m, a + h, l);
    Assoc(m, a + h + l, d);
    ModeRead(o, a + h + l + d);
  }
}
