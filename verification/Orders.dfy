/** Source lists and ascp command lines, and the start of all processes of a
    transfer from one shared options object. */
module Orders {
  import opened Text
  import opened Options

  // ---------- The source list file ----------

  /** Source and destination pairs are written if there are several sources and as
      many destinations; otherwise only the sources. */
  predicate PairLayout(sources: seq<string>, dests: seq<string>) {
    |sources| > 1 && |sources| == |dests|
  }

  /** Each path on a line of its own. */
  function Lines(paths: seq<string>): string {
    if paths == [] then "" else paths[0] + "\n" + Lines(paths[1..])
  }

  function Interleave(a: seq<string>, b: seq<string>): (r: seq<string>)
    requires |a| == |b|
    ensures |r| == 2 * |a|
    ensures forall i :: 0 <= i < |a| ==> r[2 * i] == a[i] && r[2 * i + 1] == b[i]
  {
    if a == [] then []
    else
      var rest := Interleave(a[1..], b[1..]);
      assert forall i :: 0 < i < |a| ==> rest[2 * (i - 1)] == a[i] && rest[2 * (i - 1) + 1] == b[i];
      [a[0], b[0]] + rest
  }

  /** The paths in the order they are written. */
  function Listed(sources: seq<string>, dests: seq<string>): seq<string> {
    if PairLayout(sources, dests) then Interleave(sources, dests) else sources
  }

  function ListContent(sources: seq<string>, dests: seq<string>): string {
    Lines(Listed(sources, dests))
  }

  /** Reading a list file: its lines, without the empty text after the last newline. */
  function ReadList(content: string): seq<string> {
    var lines := Split(content);
    lines[..|lines| - 1]
  }

  function Evens(s: seq<string>): seq<string>
    decreases |s|
  {
    if |s| < 2 then [] else [s[0]] + Evens(s[2..])
  }

  function Odds(s: seq<string>): seq<string>
    decreases |s|
  {
    if |s| < 2 then [] else [s[1]] + Odds(s[2..])
  }

  lemma {:induction false} SplitLines(paths: seq<string>)
    requires AllOneLine(paths)
    ensures Split(Lines(paths)) == paths + [""]
  {
    if paths != [] {
      SplitLines(paths[1..]);
      SplitCons(paths[0], Lines(paths[1..]));
      Assoc([paths[0]], paths[1..], [""]);
      assert paths == [paths[0]] + paths[1..];
    }
  }

  lemma InterleaveCons(a: seq<string>, b: seq<string>)
    requires |a| == |b| > 0
    ensures var s := Interleave(a, b);
            |s| >= 2 && s[0] == a[0] && s[1] == b[0] && s[2..] == Interleave(a[1..], b[1..])
  {
    var rest := Interleave(a[1..], b[1..]);
    assert ([a[0], b[0]] + rest)[2..] == rest;
  }

  lemma {:induction false} Deinterleave(a: seq<string>, b: seq<string>)
    requires |a| == |b|
    ensures Evens(Interleave(a, b)) == a && Odds(Interleave(a, b)) == b
  {
    hide Interleave;
    if a != [] {
      Deinterleave(a[1..], b[1..]);
      InterleaveCons(a, b);
      assert a == [a[0]] + a[1..] && b == [b[0]] + b[1..];
    } else {
      assert |Interleave(a, b)| == 0;
    }
  }

  /** The list file decodes back to the listed paths if and only if none of them
      contains a newline. */
  lemma ListDecodes(sources: seq<string>, dests: seq<string>)
    ensures ReadList(ListContent(sources, dests)) == Listed(sources, dests) <==> AllOneLine(Listed(sources, dests))
  {
    hide Split;
    hide Lines;
    var paths := Listed(sources, dests);
    if AllOneLine(paths) {
      SplitLines(paths);
      assert (paths + [""])[..|paths|] == paths;
    }
    var lines := Split(Lines(paths));
    assert AllOneLine(lines[..|lines| - 1]);
  }

  lemma ListedOneLine(sources: seq<string>, dests: seq<string>)
    requires PairLayout(sources, dests)
    ensures AllOneLine(Listed(sources, dests)) <==> AllOneLine(sources) && AllOneLine(dests)
  {
    hide OneLine;
    hide Interleave;
    var paths := Interleave(sources, dests);
    if AllOneLine(sources) && AllOneLine(dests) {
      forall j | 0 <= j < |paths| ensures OneLine(paths[j]) {
        var i := j / 2;
        if j % 2 == 0 {
          assert j == 2 * i && paths[2 * i] == sources[i];
        } else {
          assert j == 2 * i + 1 && paths[2 * i + 1] == dests[i];
        }
      }
    }
    if AllOneLine(paths) {
      forall i | 0 <= i < |sources| ensures OneLine(sources[i]) && OneLine(dests[i]) {
        assert paths[2 * i] == sources[i] && paths[2 * i + 1] == dests[i];
      }
    }
  }

  /** In the pair layout, the sources and the destinations can be told apart again. */
  lemma PairsDecode(sources: seq<string>, dests: seq<string>)
    requires PairLayout(sources, dests) && AllOneLine(sources) && AllOneLine(dests)
    ensures var lines := ReadList(ListContent(sources, dests)); Evens(lines) == sources && Odds(lines) == dests
  {
    hide ReadList;
    hide Lines;
    ListedOneLine(sources, dests);
    ListDecodes(sources, dests);
    Deinterleave(sources, dests);
  }

  function ListName(k: nat): string {
    "faspmanagerFileList" + PrintNat(k)
  }

  /** Temporary files.  Names are numbered; each is used once. */
  class FileStore {
    var files: map<string, string>
    var next: nat

    ghost predicate Valid()
      reads this
    {
      forall k: nat :: k >= next ==> ListName(k) !in files
    }

    constructor ()
      ensures Valid() && files == map[] && next == 0
    {
      files, next := map[], 0;
    }

    /** ioutil.TempFile and the writes to it. */
    method Save(content: string) returns (name: string)
      requires Valid()
      modifies this
      ensures Valid() && next == old(next) + 1
      ensures name == ListName(old(next)) && name !in old(files) && files == old(files)[name := content]
    {
      hide PrintNat;
      name := ListName(next);
      ListNamesDiffer(next);
      files := files[name := content];
      next := next + 1;
    }
  }

  lemma ListNamesDiffer(k: nat)
    ensures forall j: nat :: ListName(j) == ListName(k) ==> j == k
  {
    hide PrintNat;
    forall j: nat | ListName(j) == ListName(k) ensures j == k {
      var p := "faspmanagerFileList";
      assert (p + PrintNat(j))[|p|..] == PrintNat(j);
      assert (p + PrintNat(k))[|p|..] == PrintNat(k);
      DigitsValuePrint(j);
      DigitsValuePrint(k);
    }
  }

  lemma LinesSnoc(paths: seq<string>, path: string)
    ensures Lines(paths + [path]) == Lines(paths) + path + "\n"
  {
    if paths == [] {
      assert [] + [path] == [path] && [path][1..] == [];
    } else {
      LinesSnoc(paths[1..], path);
      assert (paths + [path])[1..] == paths[1..] + [path];
      var a, b := paths[0] + "\n", Lines(paths[1..]);
      Assoc(a, b + path, "\n");
      Assoc(a, b, path);
    }
  }

  /** The text written by writeTransferSourcesFile. */
  method FormatSources(sources: seq<string>, dests: seq<string>) returns (text: string)
    ensures text == ListContent(sources, dests)
  {
    hide Lines;
    text := "";
    LinesEmpty();
    if |sources| > 1 && |sources| == |dests| {
      ghost var all := Interleave(sources, dests);
      assert all[..0] == [];
      for i := 0 to |sources|
        invariant text == Lines(all[..2 * i])
      {
        text := text + sources[i] + "\n";
        text := text + dests[i] + "\n";
        LinesSnoc(all[..2 * i], sources[i]);
        assert all[..2 * i + 1] == all[..2 * i] + [sources[i]];
        LinesSnoc(all[..2 * i + 1], dests[i]);
        assert all[..2 * (i + 1)] == all[..2 * i + 1] + [dests[i]];
      }
      assert all[..2 * |sources|] == all;
    } else {
      assert sources[..0] == [];
      for i := 0 to |sources|
        invariant text == Lines(sources[..i])
      {
        text := text + sources[i] + "\n";
        LinesSnoc(sources[..i], sources[i]);
        assert sources[..i + 1] == sources[..i] + [sources[i]];
      }
      assert sources[..|sources|] == sources;
    }
  }

  /** writeTransferSourcesFile */
  method WriteTransferSourcesFile(store: FileStore, sources: seq<string>, dests: seq<string>) returns (name: string)
    requires store.Valid()
    modifies store
    ensures store.Valid() && store.next == old(store.next) + 1
    ensures name == ListName(old(store.next)) && name !in old(store.files)
    ensures store.files == old(store.files)[name := ListContent(sources, dests)]
  {
    hide ListName;
    var text := FormatSources(sources, dests);
    name := store.Save(text);
  }

  lemma LinesEmpty()
    ensures Lines([]) == ""
  {
  }

  // ---------- The command line ----------

  /** What an order asks for, apart from the transfer options. */
  datatype Order = Order(
    sources: seq<string>, dests: seq<string>, download: bool,
    host: string, hostIsIPv6: bool, user: string, identity: string,
    persistent: bool, stream: bool)

  const DEFAULT_DEST_ROOT := "."

  function ModeArgs(o: Order): seq<string> {
    (if o.stream then ["--faspmgr-io"] else if o.persistent then ["--keepalive"] else [])
    + (if o.hostIsIPv6 then ["-6"] else [])
    + [if o.download then "--mode=recv" else "--mode=send", "-q"]
  }

  function HostArgs(o: Order, s: Settings): seq<string> {
    (if s.contentProtection then [if o.download then "--file-crypt=decrypt" else "--file-crypt=encrypt"] else [])
    + ["--host=" + o.host, "--user=" + o.user]
    + (if o.identity != "" then ["-i", o.identity] else [])
  }

  /** The flag that names the list file. */
  function ListArg(o: Order, list: string): string {
    (if PairLayout(o.sources, o.dests) then "--file-pair-list=" else "--file-list=") + list
  }

  function ListArgs(o: Order, list: Option<string>): seq<string> {
    match list
    case None => []
    case Some(name) => [ListArg(o, name)]
  }

  function DestinationArgs(o: Order, s: Settings, v: Values): seq<string> {
    (if o.stream then ["--chunk-size=" + PrintInt(v.chunkSize)] else [])
    + [if s.destinationRoot != "" then s.destinationRoot else if o.dests != [] then o.dests[0] else DEFAULT_DEST_ROOT]
  }

  /** The whole command line, for filled values and the list file in use. */
  function CommandLine(o: Order, s: Settings, v: Values, list: Option<string>): seq<string> {
    ModeArgs(o) + Params(s, v) + HostArgs(o, s) + ListArgs(o, list) + DestinationArgs(o, s, v)
  }

  /** The pair flag is used exactly for the pair layout. */
  lemma PairFlag(o: Order, list: string)
    ensures HasPrefix(ListArg(o, list), "--file-pair-list=") <==> PairLayout(o.sources, o.dests)
  {
    var flag := "--file-pair-list=";
    var pair, plain := flag + list, "--file-list=" + list;
    assert pair[..|flag|] == flag;
    assert plain[7] == 'l' && flag[7] == 'p';
    if |flag| <= |plain| {
      assert plain[..|flag|][7] == plain[7];
    }
  }

  /** What a reader of the list argument learns: the layout and the file. */
  function ReadListArg(arg: string): Option<(bool, string)> {
    if HasPrefix(arg, "--file-pair-list=") then Some((true, arg[17..]))
    else if HasPrefix(arg, "--file-list=") then Some((false, arg[12..]))
    else None
  }

  /** The sources, and in the pair layout the destinations, that a list argument and
      the files it refers to stand for. */
  function ReadSources(arg: string, files: map<string, string>): Option<(seq<string>, seq<string>)> {
    match ReadListArg(arg)
    case None => None
    case Some((pairs, name)) =>
      if name !in files then None
      else
        var lines := ReadList(files[name]);
        Some(if pairs then (Evens(lines), Odds(lines)) else (lines, []))
  }

  lemma ListArgRead(o: Order, list: string)
    ensures ReadListArg(ListArg(o, list)) == Some((PairLayout(o.sources, o.dests), list))
  {
    PairFlag(o, list);
    var pair, plain := "--file-pair-list=", "--file-list=";
    assert (pair + list)[|pair|..] == list && (plain + list)[..|plain|] == plain && (plain + list)[|plain|..] == list;
  }

  lemma {:induction false} HalvesOneLine(lines: seq<string>)
    requires AllOneLine(lines)
    ensures AllOneLine(Evens(lines)) && AllOneLine(Odds(lines))
    decreases |lines|
  {
    if |lines| >= 2 {
      HalvesOneLine(lines[2..]);
    }
  }

  /** From the list argument and the list file the sources, and the destinations of the
      pair layout, are read back if and only if no listed path contains a newline. */
  lemma SourcesReadBack(o: Order, list: string, files: map<string, string>)
    requires list in files && files[list] == ListContent(o.sources, o.dests)
    ensures ReadSources(ListArg(o, list), files)
            == Some((o.sources, if PairLayout(o.sources, o.dests) then o.dests else []))
            <==> AllOneLine(Listed(o.sources, o.dests))
  {
    hide ListArg;
    hide ListContent;
    hide Split;
    hide Evens;
    hide Odds;
    ListArgRead(o, list);
    ListDecodes(o.sources, o.dests);
    var lines := ReadList(files[list]);
    assert AllOneLine(lines);
    if PairLayout(o.sources, o.dests) {
      HalvesOneLine(lines);
      ListedOneLine(o.sources, o.dests);
      if AllOneLine(Listed(o.sources, o.dests)) {
        PairsDecode(o.sources, o.dests);
      }
    }
  }

  /** Two command lines from the same values differ in the list argument only. */
  lemma OnlyListDiffers(o: Order, s: Settings, v: Values, list1: string, list2: string)
    ensures var a, b := CommandLine(o, s, v, Some(list1)), CommandLine(o, s, v, Some(list2));
            var n := |ModeArgs(o) + Params(s, v) + HostArgs(o, s)|;
            && |a| == |b| && n < |a|
            && a[n] == ListArg(o, list1) && b[n] == ListArg(o, list2)
            && a[..n] == b[..n] && a[n + 1..] == b[n + 1..]
  {
    hide ListArg;
    hide ModeArgs;
    hide Params;
    hide HostArgs;
    hide DestinationArgs;
    var head, tail := ModeArgs(o) + Params(s, v) + HostArgs(o, s), DestinationArgs(o, s, v);
    Around(head, ListArg(o, list1), tail);
    Around(head, ListArg(o, list2), tail);
  }

  lemma Around(head: seq<string>, x: string, tail: seq<string>)
    ensures var a := head + [x] + tail;
            a[|head|] == x && a[..|head|] == head && a[|head| + 1..] == tail
  {
  }

  /** The values a build starts from: a stream order marks the shared options. */
  function Marked(o: Order, v: Values): Values {
    v.(ascp4StreamFlag := v.ascp4StreamFlag || o.stream)
  }

  /** What building a command line leaves behind: the chunk size is filled in for
      stream orders only. */
  function AfterBuild(o: Order, s: Settings, v: Values, newId: string): Values {
    var f := Filled(s, Marked(o, v), newId);
    if o.stream then f else f.(chunkSize := v.chunkSize)
  }

  /** An empty TransferOptions. */
  const EMPTY_SETTINGS := Settings(false, 0, 0, 0, true, true, ["--policy=fair"], ["--file-manifest=none"], [],
    ["--overwrite=diff"],
    ["--preserve-xattrs=none", "--remote-preserve-xattrs=none", "--preserve-acls=none", "--remote-preserve-acls=none"],
    [], false, "")
  const EMPTY_VALUES := Values(0, 0, 0, 0, 0, "", false)

  function SettingsOf(opts: TransferOptions?): Settings {
    if opts == null then EMPTY_SETTINGS else opts.settings
  }

  function ValuesOf(opts: TransferOptions?): Values
    reads opts
  {
    if opts == null then EMPTY_VALUES else opts.Vals()
  }

  /** Nil options are replaced by empty ones. */
  method OptionsOrEmpty(opts: TransferOptions?) returns (r: TransferOptions)
    ensures opts != null ==> r == opts
    ensures opts == null ==> fresh(r) && r.settings == EMPTY_SETTINGS && r.Vals() == EMPTY_VALUES
  {
    if opts == null {
      r := new TransferOptions(EMPTY_SETTINGS, EMPTY_VALUES);
    } else {
      r := opts;
    }
  }

  datatype Build = Built(args: seq<string>, list: Option<string>) | Invalid

  /** The argument before the first -q is the mode. */
  ghost predicate ModeIs(args: seq<string>, mode: string) {
    exists q :: 0 < q < |args| && args[q] == "-q" && "-q" !in args[..q] && args[q - 1] == mode
  }

  method ModeArguments(o: Order) returns (args: seq<string>)
    ensures args == ModeArgs(o)
    ensures |args| >= 2 && args[|args| - 1] == "-q" && "-q" !in args[..|args| - 1]
    ensures args[|args| - 2] == if o.download then "--mode=recv" else "--mode=send"
  {
    args := [];
    if o.stream {
      args := args + ["--faspmgr-io"];
    } else if o.persistent {
      args := args + ["--keepalive"];
    }
    if o.hostIsIPv6 {
      args := args + ["-6"];
    }
    if o.download {
      args := args + ["--mode=recv"];
    } else {
      args := args + ["--mode=send"];
    }
    assert "-q" != "--mode=recv" && "-q" != "--mode=send" && "-q" != "-6" && "-q" != "--keepalive";
    assert "-q" !in args;
    ghost var flags := args;
    args := args + ["-q"];
    assert args[..|args| - 1] == flags;
  }

  lemma ModeShown(mode: seq<string>, rest: seq<string>)
    requires |mode| >= 2 && mode[|mode| - 1] == "-q" && "-q" !in mode[..|mode| - 1]
    ensures ModeIs(mode + rest, mode[|mode| - 2])
  {
    var args, q := mode + rest, |mode| - 1;
    assert args[..q] == mode[..q] && args[q] == "-q" && args[q - 1] == mode[q - 1];
  }

  method HostArguments(o: Order, s: Settings) returns (args: seq<string>)
    ensures args == HostArgs(o, s)
  {
    args := [];
    if s.contentProtection {
      if o.download {
        args := args + ["--file-crypt=decrypt"];
      } else {
        args := args + ["--file-crypt=encrypt"];
      }
    }
    args := args + ["--host=" + o.host];
    args := args + ["--user=" + o.user];
    if |o.identity| > 0 {
      args := args + ["-i"];
      args := args + [o.identity];
    }
  }

  /** The list argument, if there are sources, and the list file it names. */
  method ListArguments(o: Order, store: FileStore) returns (args: seq<string>, list: Option<string>)
    requires store.Valid()
    modifies store
    ensures store.Valid() && args == ListArgs(o, list) && (list.Some? <==> o.sources != [])
    ensures match list
            case None => store.files == old(store.files)
            case Some(name) => name !in old(store.files)
                               && store.files == old(store.files)[name := ListContent(o.sources, o.dests)]
  {
    hide ListName;
    hide ListContent;
    args, list := [], None;
    if |o.sources| > 0 {
      var name := WriteTransferSourcesFile(store, o.sources, o.dests);
      if |o.sources| > 1 && |o.sources| == |o.dests| {
        args := ["--file-pair-list=" + name];
      } else {
        args := ["--file-list=" + name];
      }
      list := Some(name);
    }
  }

  /** The chunk size of a stream, and the destination root. */
  method DestinationArguments(o: Order, opts: TransferOptions) returns (args: seq<string>)
    modifies opts`chunkSize
    ensures opts.chunkSize
         == if o.stream then Filled(opts.settings, old(opts.Vals()), "").chunkSize else old(opts.chunkSize)
    ensures args == DestinationArgs(o, opts.settings, opts.Vals())
  {
    hide PrintInt;
    args := [];
    if o.stream {
      var chunk := opts.GetChunkSizeOrSetDefault();
      args := args + ["--chunk-size=" + PrintInt(chunk)];
    }
    if |opts.settings.destinationRoot| > 0 {
      args := args + [opts.settings.destinationRoot];
    } else if |o.dests| > 0 {
      args := args + [o.dests[0]];
    } else {
      args := args + [DEFAULT_DEST_ROOT];
    }
  }

  /** buildAscpCommandLine, on options that are not nil. */
  method BuildAscpCommandLine(o: Order, opts: TransferOptions, ids: IdSource, store: FileStore) returns (r: Build)
    requires store.Valid()
    modifies opts, ids, store
    ensures store.Valid()
    ensures old(ids.next) <= ids.next
    ensures r.Invalid? <==> !Accepts(opts.settings, Marked(o, old(opts.Vals())))
    ensures r.Invalid? ==> store.files == old(store.files) && opts.Vals() == Marked(o, old(opts.Vals()))
    ensures r.Built? ==>
              && opts.Vals() == AfterBuild(o, opts.settings, old(opts.Vals()), PrintNat(old(ids.next)))
              && r.args == CommandLine(o, opts.settings, opts.Vals(), r.list)
              && ModeIs(r.args, if o.download then "--mode=recv" else "--mode=send")
    ensures r.Built? ==>
              (r.list.Some? <==> o.sources != [])
              && (match r.list
                  case None => store.files == old(store.files)
                  case Some(name) => name !in old(store.files)
                                     && store.files == old(store.files)[name := ListContent(o.sources, o.dests)])
  {
    hide Validate;
    hide ModeIs;
    hide HostArgs;
    hide ListArgs;
    hide DestinationArgs;
    hide ModeArgs;
    hide PrintNat;
    hide PrintInt;
    hide Params;
    hide Accepts;
    hide ListName;
    hide ListContent;
    if o.stream {
      opts.ascp4StreamFlag := true;
    }
    ValidateAccepts(opts.settings, opts.Vals());
    if Validate(opts.settings, opts.Vals()).Some? {
      return Invalid;
    }
    var mode := ModeArguments(o);
    var params := opts.GetCommandLineParams(ids);
    var host := HostArguments(o, opts.settings);
    var source, list := ListArguments(o, store);
    ghost var mid := opts.Vals();
    var destination := DestinationArguments(o, opts);
    ParamsIgnoreChunk(opts.settings, opts.Vals(), mid);
    ModeShown(mode, params + host + source + destination);
    var cmd := mode + params + host + source + destination;
    assert cmd == mode + (params + host + source + destination);
    return Built(cmd, list);
  }

  lemma ParamsIgnoreChunk(s: Settings, v: Values, w: Values)
    requires v == w.(chunkSize := v.chunkSize)
    ensures Params(s, v) == Params(s, w)
  {
  }

  // ---------- All processes of a transfer ----------

  /** What a session records about its options. */
  datatype Recorded = Recorded(minRate: int, targetRate: int, udpPort: int, tcpPort: int, chunkSize: int)

  /** A started process. */
  datatype Launch = Launch(
    id: string, index: nat, processes: nat, managementPort: int,
    args: seq<string>, list: Option<string>, recorded: Recorded)
  {
    /** The full argument list of the process. */
    function FullArgs(): seq<string> {
      (if processes > 1 then ["-C", PrintInt(index) + ":" + PrintInt(processes)] else [])
      + ["-M" + PrintInt(managementPort), "-u" + id] + args
    }
  }

  /** The argument list of a process tells which session it reports to and which part of
      the transfer it carries. */
  lemma FullArgsTell(a: Launch, b: Launch)
    requires a.FullArgs() == b.FullArgs()
    ensures a.id == b.id && a.managementPort == b.managementPort && a.args == b.args
    ensures a.processes > 1 || b.processes > 1 ==> a.index == b.index && a.processes == b.processes
  {
    hide PrintInt;
    var k := ArgsTail(a, b);
    var x, y := a.FullArgs()[k..], b.FullArgs()[k..];
    assert x[0] == y[0] && x[1] == y[1] && x[2..] == y[2..];
    AfterKey("-M", PrintInt(a.managementPort), PrintInt(b.managementPort));
    PrintIntInjective(a.managementPort, b.managementPort);
    AfterKey("-u", a.id, b.id);
    if a.processes > 1 {
      assert a.FullArgs()[1] == b.FullArgs()[1];
      PartTells(a.index, a.processes, b.index, b.processes);
    }
  }

  /** Both lists begin with the part of the transfer, or neither does. */
  lemma ArgsTail(a: Launch, b: Launch) returns (k: nat)
    requires a.FullArgs() == b.FullArgs()
    ensures a.processes > 1 <==> b.processes > 1
    ensures k == (if a.processes > 1 then 2 else 0) && k <= |a.FullArgs()|
    ensures a.FullArgs()[k..] == ["-M" + PrintInt(a.managementPort), "-u" + a.id] + a.args
    ensures b.FullArgs()[k..] == ["-M" + PrintInt(b.managementPort), "-u" + b.id] + b.args
  {
    hide PrintInt;
    k := if a.processes > 1 then 2 else 0;
    assert a.FullArgs()[0][1] == b.FullArgs()[0][1];
    assert a.processes > 1 <==> a.FullArgs()[0][1] == 'C';
    assert b.processes > 1 <==> b.FullArgs()[0][1] == 'C';
  }

  lemma AfterKey(key: string, s: string, t: string)
    requires key + s == key + t
    ensures s == t
  {
    assert (key + s)[|key|..] == s && (key + t)[|key|..] == t;
  }

  lemma PartTells(i: int, n: int, j: int, m: int)
    requires PrintInt(i) + ":" + PrintInt(n) == PrintInt(j) + ":" + PrintInt(m)
    ensures i == j && n == m
  {
    hide PrintInt;
    var a, b, c, d := PrintInt(i), PrintInt(n), PrintInt(j), PrintInt(m);
    IndexFirst(a, ':', b);
    IndexFirst(c, ':', d);
    assert (a + ":" + b)[..|a|] == a && (c + ":" + d)[..|c|] == c;
    assert (a + ":" + b)[|a| + 1..] == b && (c + ":" + d)[|c| + 1..] == d;
    PrintIntInjective(i, j);
    PrintIntInjective(n, m);
  }

  function Record(v: Values): Recorded {
    Recorded(v.minRate, v.targetRate, v.udpPort, v.tcpPort, v.chunkSize)
  }

  /** newTransferSession, as far as the options are concerned. */
  method NewSession(o: Order, opts: TransferOptions, ids: IdSource, store: FileStore,
                    id: string, index: nat, processes: nat, port: int) returns (r: Option<Launch>)
    requires store.Valid()
    modifies opts, ids, store
    ensures store.Valid()
    ensures r.None? <==> !Accepts(opts.settings, Marked(o, old(opts.Vals())))
    ensures r.Some? ==>
              && opts.Vals() == Filled(opts.settings, Marked(o, old(opts.Vals())), PrintNat(old(ids.next)))
              && r.value.id == id && r.value.index == index && r.value.processes == processes
              && r.value.managementPort == port
              && r.value.args == CommandLine(o, opts.settings, opts.Vals(), r.value.list)
              && r.value.recorded == Record(opts.Vals())
    ensures old(ids.next) <= ids.next
    ensures r.Some? ==>
              (r.value.list.Some? <==> o.sources != [])
              && (forall name :: name in old(store.files) ==>
                    name in store.files && store.files[name] == old(store.files)[name])
              && (r.value.list.Some? ==>
                    r.value.list.value !in old(store.files) && r.value.list.value in store.files
                    && store.files[r.value.list.value] == ListContent(o.sources, o.dests))
  {
    hide ModeIs;
    hide CommandLine;
    hide PrintNat;
    hide Accepts;
    hide ListContent;
    var build := BuildAscpCommandLine(o, opts, ids, store);
    match build
    case Invalid => r := None;
    case Built(args, list) =>
      ghost var built := opts.Vals();
      var min := opts.minRate;
      var target := opts.GetTargetRateOrSetDefault();
      var udp := opts.GetUdpPortOrSetDefault();
      var tcp := opts.GetTcpPortOrSetDefault();
      var chunk := opts.GetChunkSizeOrSetDefault();
      SameCommand(o, opts.settings, built, opts.Vals(), list);
      r := Some(Launch(id, index, processes, port, args, list, Recorded(min, target, udp, tcp, chunk)));
  }

  lemma SameCommand(o: Order, s: Settings, v: Values, w: Values, list: Option<string>)
    requires v == w.(chunkSize := v.chunkSize) && (o.stream ==> v == w)
    ensures CommandLine(o, s, v, list) == CommandLine(o, s, w, list)
  {
    ParamsIgnoreChunk(s, v, w);
  }

  /** How the start of a transfer ends. */
  datatype StartResult = AllStarted | BadCount | PersistentMulti | BadOptions | ProcessFailed

  /** The processes that can be started before the first that cannot. */
  function Startable(numProcesses: int, failing: set<int>, from: int): (n: nat)
    requires 1 <= from <= numProcesses + 1
    ensures from - 1 <= n <= numProcesses
    ensures forall i :: from <= i <= n ==> i !in failing
    ensures n < numProcesses ==> n + 1 in failing
    decreases numProcesses - from
  {
    if from > numProcesses || from in failing then from - 1 else Startable(numProcesses, failing, from + 1)
  }

  /** The loop of StartMultiProcessTransferWithListener.  `ids` gives session ids and
      the transfer id; `failing` are the processes that cannot be started.  The options
      are rejected before any process is started or not at all.  All processes are
      started from the same options, transfer id, rates and ports, with arguments that
      differ in the list file, the index and the id only.  If one cannot be started, the
      earlier ones keep running but no id is returned for them. */
  method StartProcesses(o: Order, opts: TransferOptions, ids: IdSource, store: FileStore,
                        numProcesses: int, failing: set<int>, port: int)
    returns (launches: seq<Launch>, sessionIds: seq<string>, result: StartResult)
    requires store.Valid()
    modifies opts, ids, store
    ensures store.Valid()
    ensures result == BadCount <==> numProcesses < 1
    ensures result == PersistentMulti <==> numProcesses > 1 && o.persistent
    ensures result == BadOptions <==>
              numProcesses >= 1 && !(numProcesses > 1 && o.persistent)
              && !Accepts(opts.settings, Marked(o, old(opts.Vals())))
    ensures result == BadCount || result == PersistentMulti || result == BadOptions ==> launches == []
    ensures result == ProcessFailed || result == AllStarted ==>
              numProcesses >= 1 && |launches| == Startable(numProcesses, failing, 1)
    ensures result == ProcessFailed ==> |launches| < numProcesses
    ensures result == AllStarted ==> |launches| == numProcesses
    ensures result == ProcessFailed || result == AllStarted ==> Complete(opts.Vals()) && exists newId ::
              newId != "" && opts.Vals() == Filled(opts.settings, Marked(o, old(opts.Vals())), newId)
    ensures forall i, j :: 0 <= i < j < |launches| ==>
              launches[i].id != launches[j].id && launches[i].FullArgs() != launches[j].FullArgs()
    ensures AllAlike(launches, o, opts.settings, opts.Vals(), numProcesses, port)
    ensures AllListed(launches, o, store.files)
    ensures sessionIds == if result == AllStarted then LaunchIds(launches) else []
  {
    hide PrintNat;
    hide PrintInt;
    hide CommandLine;
    hide Accepts;
    hide ListContent;
    hide Filled;
    hide Startable;
    hide AllAlike;
    hide AllListed;
    hide Numbered;
    hide LaunchIds;
    hide Complete;
    NoLaunches(o, opts.settings, opts.Vals(), numProcesses, port, store.files, ids.next);
    launches := [];
    sessionIds := [];
    if numProcesses < 1 {
      return [], [], BadCount;
    }
    if numProcesses > 1 && o.persistent {
      return [], [], PersistentMulti;
    }
    ghost var start := Marked(o, opts.Vals());
    ghost var newId := "";
    ghost var numbers: seq<nat> := [];
    NoLaunches(o, opts.settings, opts.Vals(), numProcesses, port, store.files, ids.next);
    for i := 1 to numProcesses + 1
      invariant store.Valid() && |launches| == i - 1
      invariant i == 1 ==> Marked(o, opts.Vals()) == start
      invariant i > 1 ==>
                  newId != "" && opts.Vals() == Filled(opts.settings, start, newId) && Accepts(opts.settings, start)
      invariant launches == [] || AllAlike(launches, o, opts.settings, opts.Vals(), numProcesses, port)
      invariant AllListed(launches, o, store.files)
      invariant Numbered(launches, numbers, ids.next)
      invariant sessionIds == LaunchIds(launches)
      invariant Startable(numProcesses, failing, 1) == Startable(numProcesses, failing, i)
    {
      ghost var number, files := ids.next, store.files;
      StartableStep(numProcesses, failing, i);
      var session;
      session, newId := PrepareNext(o, opts, ids, store, i, numProcesses, port, start, newId);
      if session.None? {
        NoLaunches(o, opts.settings, opts.Vals(), numProcesses, port, store.files, ids.next);
        return [], [], BadOptions;
      }
      FilledAccepted(opts.settings, start, newId);
      NoLaunches(o, opts.settings, opts.Vals(), numProcesses, port, store.files, ids.next);
      LaunchesSnoc(launches, session.value, o, opts.settings, opts.Vals(), numProcesses, port, files, store.files);
      NumberedSnoc(launches, session.value, numbers, number, ids.next);
      if i in failing {
        NumberedIdsDiffer(launches, numbers, ids.next);
        return launches, [], ProcessFailed;
      }
      numbers := numbers + [number];
      launches := launches + [session.value];
      sessionIds := sessionIds + [session.value.id];
    }
    FilledAccepted(opts.settings, start, newId);
    StartableStep(numProcesses, failing, numProcesses + 1);
    NumberedIdsDiffer(launches, numbers, ids.next);
    result := AllStarted;
  }

  /** StartMultiProcessTransferWithListener, on options that may be nil: nil options are
      never rejected and stand for the defaults. */
  method StartTransfer(o: Order, given: TransferOptions?, ids: IdSource, store: FileStore,
                       numProcesses: int, failing: set<int>, port: int)
    returns (opts: TransferOptions, launches: seq<Launch>, sessionIds: seq<string>, result: StartResult)
    requires store.Valid()
    modifies given, ids, store
    ensures store.Valid() && opts.settings == SettingsOf(given) && (given != null ==> opts == given)
    ensures result == BadOptions <==>
              numProcesses >= 1 && !(numProcesses > 1 && o.persistent)
              && !Accepts(SettingsOf(given), Marked(o, old(ValuesOf(given))))
    ensures given == null ==> result != BadOptions
    ensures result == AllStarted ==>
              |launches| == numProcesses && sessionIds == LaunchIds(launches) && exists newId ::
                newId != "" && var v := Filled(SettingsOf(given), Marked(o, old(ValuesOf(given))), newId);
                AllAlike(launches, o, SettingsOf(given), v, numProcesses, port)
                && (given == null ==>
                      v.targetRate == DEFAULT_TARGET_RATE && v.minRate == 0
                      && v.udpPort == DEFAULT_UDP_PORT && v.tcpPort == DEFAULT_TCP_PORT)
    ensures result != AllStarted ==> sessionIds == []
  {
    hide Accepts;
    hide AllAlike;
    hide AllListed;
    hide Startable;
    hide LaunchIds;
    EmptyAccepted(o);
    opts := OptionsOrEmpty(given);
    launches, sessionIds, result := StartProcesses(o, opts, ids, store, numProcesses, failing, port);
  }

  lemma EmptyAccepted(o: Order)
    ensures Accepts(EMPTY_SETTINGS, Marked(o, EMPTY_VALUES))
  {
  }

  lemma StartableStep(numProcesses: int, failing: set<int>, i: int)
    requires 1 <= i <= numProcesses + 1
    ensures Startable(numProcesses, failing, i)
            == if i > numProcesses || i in failing then i - 1 else Startable(numProcesses, failing, i + 1)
  {
  }

  lemma NoLaunches(o: Order, s: Settings, v: Values, processes: int, port: int, files: map<string, string>, next: nat)
    ensures AllAlike([], o, s, v, processes, port) && AllListed([], o, files) && Numbered([], [], next)
    ensures LaunchIds([]) == []
  {
  }

  /** One more launch from the same values, with a new list file. */
  lemma LaunchesSnoc(launches: seq<Launch>, l: Launch, o: Order, s: Settings, v: Values, processes: int, port: int,
                     before: map<string, string>, after: map<string, string>)
    requires AllAlike(launches, o, s, v, processes, port) && AllListed(launches, o, before)
    requires l.index == |launches| + 1 && l.processes == processes && l.managementPort == port
    requires l.args == CommandLine(o, s, v, l.list) && l.recorded == Record(v)
    requires forall name :: name in before ==> name in after && after[name] == before[name]
    requires l.list.Some? <==> o.sources != []
    requires l.list.Some? ==> l.list.value !in before && l.list.value in after
                              && after[l.list.value] == ListContent(o.sources, o.dests)
    ensures AllAlike(launches + [l], o, s, v, processes, port) && AllListed(launches + [l], o, after)
    ensures AllListed(launches, o, after)
  {
    hide CommandLine;
    hide ListContent;
    hide Record;
  }

  lemma NumberedSnoc(launches: seq<Launch>, l: Launch, numbers: seq<nat>, number: nat, next: nat)
    requires Numbered(launches, numbers, number) && l.id == PrintNat(number) && number < next
    ensures Numbered(launches + [l], numbers + [number], next) && Numbered(launches, numbers, next)
    ensures LaunchIds(launches + [l]) == LaunchIds(launches) + [l.id]
  {
    hide PrintNat;
  }

  /** The id and the session of the next process.  The first build fills in the options,
      later ones leave them as they are. */
  method PrepareNext(o: Order, opts: TransferOptions, ids: IdSource, store: FileStore, index: nat, processes: nat,
                     port: int, ghost start: Values, ghost knownId: string)
    returns (session: Option<Launch>, ghost newId: string)
    requires store.Valid() && index >= 1 && start == Marked(o, start)
    requires index == 1 ==> Marked(o, opts.Vals()) == start
    requires index > 1 ==>
               knownId != "" && opts.Vals() == Filled(opts.settings, start, knownId) && Accepts(opts.settings, start)
    modifies opts, ids, store
    ensures store.Valid() && old(ids.next) < ids.next
    ensures session.None? <==> !Accepts(opts.settings, start)
    ensures session.Some? ==>
              && newId != "" && (index > 1 ==> newId == knownId)
              && opts.Vals() == Filled(opts.settings, start, newId)
              && session.value.id == PrintNat(old(ids.next))
              && session.value.index == index && session.value.processes == processes
              && session.value.managementPort == port
              && session.value.args == CommandLine(o, opts.settings, opts.Vals(), session.value.list)
              && session.value.recorded == Record(opts.Vals())
    ensures session.Some? ==>
              && (forall name :: name in old(store.files) ==>
                    name in store.files && store.files[name] == old(store.files)[name])
              && (session.value.list.Some? <==> o.sources != [])
              && (session.value.list.Some? ==>
                    session.value.list.value !in old(store.files) && session.value.list.value in store.files
                    && store.files[session.value.list.value] == ListContent(o.sources, o.dests))
  {
    hide PrintNat;
    hide CommandLine;
    hide Accepts;
    hide ListContent;
    hide Record;
    var sessionId := ids.Generate();
    ghost var next := ids.next;
    if index > 1 {
      FilledAccepted(opts.settings, start, knownId);
      MarkedFilled(o, opts.settings, start, knownId);
      FilledStable(opts.settings, start, knownId, PrintNat(next));
    }
    session := NewSession(o, opts, ids, store, sessionId, index, processes, port);
    newId := if index == 1 then PrintNat(next) else knownId;
  }

  function LaunchIds(launches: seq<Launch>): (ids: seq<string>)
    ensures |ids| == |launches| && forall i :: 0 <= i < |ids| ==> ids[i] == launches[i].id
  {
    seq(|launches|, i requires 0 <= i < |launches| => launches[i].id)
  }

  /** The session ids are the given increasing numbers. */
  ghost predicate Numbered(launches: seq<Launch>, numbers: seq<nat>, next: nat) {
    && |numbers| == |launches|
    && (forall i :: 0 <= i < |launches| ==> launches[i].id == PrintNat(numbers[i]) && numbers[i] < next)
    && (forall i, j :: 0 <= i < j < |numbers| ==> numbers[i] < numbers[j])
  }

  lemma NumberedIdsDiffer(launches: seq<Launch>, numbers: seq<nat>, next: nat)
    requires Numbered(launches, numbers, next)
    ensures forall i, j :: 0 <= i < j < |launches| ==>
              launches[i].id != launches[j].id && launches[i].FullArgs() != launches[j].FullArgs()
  {
    hide PrintNat;
    hide PrintInt;
    forall i, j | 0 <= i < j < |launches|
      ensures launches[i].id != launches[j].id && launches[i].FullArgs() != launches[j].FullArgs()
    {
      DigitsValuePrint(numbers[i]);
      DigitsValuePrint(numbers[j]);
      if launches[i].FullArgs() == launches[j].FullArgs() {
        FullArgsTell(launches[i], launches[j]);
      }
    }
  }

  /** Every launch has the command line, record and port of the common values, and
      its own part of the transfer. */
  ghost predicate AllAlike(launches: seq<Launch>, o: Order, s: Settings, v: Values, processes: int, port: int) {
    forall i :: 0 <= i < |launches| ==>
      && launches[i].index == i + 1 && launches[i].processes == processes
      && launches[i].managementPort == port
      && launches[i].args == CommandLine(o, s, v, launches[i].list)
      && launches[i].recorded == Record(v)
  }

  /** Every launch has its own list file, with the same content. */
  ghost predicate AllListed(launches: seq<Launch>, o: Order, files: map<string, string>) {
    && (forall i :: 0 <= i < |launches| ==>
          (launches[i].list.Some? <==> o.sources != [])
          && (launches[i].list.Some? ==>
                launches[i].list.value in files && files[launches[i].list.value] == ListContent(o.sources, o.dests)))
    && (forall i, j :: 0 <= i < j < |launches| && launches[i].list.Some? && launches[j].list.Some? ==>
          launches[i].list.value != launches[j].list.value)
  }

  /** Filled values are already marked. */
  lemma MarkedFilled(o: Order, s: Settings, start: Values, newId: string)
    requires start == Marked(o, start)
    ensures Marked(o, Filled(s, start, newId)) == Filled(s, start, newId)
  {
  }
}
