/** The outbound wire: the frames the stream worker and the session API send to
    ascp, their bytes, and a decoder that recovers the frames from the bytes. */
module Frames {
  import opened Text

  datatype RateMode = Adaptive | Fixed | Trickle

  datatype Frame =
    | Put(dest: string)
    | Write(dest: string, offset: int, payload: string)
    | Close(dest: string)
    | Start(source: string, dest: string, startByte: int, endByte: int)
    | Rate(target: int, min: int, mode: RateMode)
    | Done
    | Cancel
    | Linger
  {
    /** The frames of the stream worker, as opposed to API commands. */
    predicate IsStream() {
      Put? || Write? || Close?
    }

    /** Paths are written unescaped, so only newline-free ones keep their frame intact. */
    predicate Valid() {
      match this
      case Put(dest) => OneLine(dest)
      case Write(dest, _, _) => OneLine(dest)
      case Close(dest) => OneLine(dest)
      case Start(source, dest, _, _) => OneLine(source) && OneLine(dest)
      case _ => true
    }
  }

  // ---------- Printing ----------

  function BlankForZero(n: int): (s: string)
    ensures ':' !in s
  {
    if n != 0 then PrintInt(n) else ""
  }

  /** A byte range with blanks for zeros. */
  function PrintRange(startByte: int, endByte: int): string {
    BlankForZero(startByte) + ":" + BlankForZero(endByte)
  }

  datatype Kind = PutKind | WriteKind | CloseKind | StartKind | RateKind | DoneKind | CancelKind

  function KindLine(k: Kind): string {
    match k
    case PutKind => "Type: PUT"
    case WriteKind => "Type: WRITE"
    case CloseKind => "Type: CLOSE"
    case StartKind => "Type: START"
    case RateKind => "Type: RATE"
    case DoneKind => "Type: DONE"
    case CancelKind => "Type: CANCEL"
  }

  function KindOf(line: string): Option<Kind> {
    if line == "Type: PUT" then Some(PutKind)
    else if line == "Type: WRITE" then Some(WriteKind)
    else if line == "Type: CLOSE" then Some(CloseKind)
    else if line == "Type: START" then Some(StartKind)
    else if line == "Type: RATE" then Some(RateKind)
    else if line == "Type: DONE" then Some(DoneKind)
    else if line == "Type: CANCEL" then Some(CancelKind)
    else None
  }

  function ModeText(m: RateMode): string {
    match m
    case Adaptive => "Adaptive"
    case Fixed => "Fixed"
    case Trickle => "Trickle"
  }

  const DESTINATION := "Destination: "
  const SOURCE := "Source: "
  const OFFSET := "Offset: "
  const SIZE := "Size: "
  const FILE_BYTES := "FileBytes: "
  const RATE := "Rate: "
  const MIN_RATE := "MinRate: "
  const ADAPTIVE := "Adaptive: "

  function HeaderLines(f: Frame): seq<string> {
    match f
    case Put(dest) => ["FASPMGR 4", KindLine(PutKind), DESTINATION + dest]
    case Write(dest, offset, payload) =>
      ["FASPMGR 4", KindLine(WriteKind), DESTINATION + dest, OFFSET + PrintInt(offset), SIZE + PrintInt(|payload|)]
    case Close(dest) => ["FASPMGR 4", KindLine(CloseKind), DESTINATION + dest]
    case Start(source, dest, startByte, endByte) =>
      ["FASPMGR 2", KindLine(StartKind), SOURCE + source, DESTINATION + dest] +
      (if startByte != 0 || endByte != 0 then [FILE_BYTES + PrintRange(startByte, endByte)] else [])
    case Rate(target, min, mode) =>
      ["FASPMGR 2", KindLine(RateKind), RATE + PrintInt(target), MIN_RATE + PrintInt(min), ADAPTIVE + ModeText(mode)]
    case Done => ["FASPMGR 2", KindLine(DoneKind)]
    case Cancel => ["FASPMGR 2", KindLine(CancelKind)]
    case Linger => ["FASPMGR 2", KindLine(DoneKind), "Operation: Linger"]
  }

  /** Lines, each ended by a newline, and a final blank line. */
  function PrintHeader(lines: seq<string>): string {
    if lines == [] then "\n" else lines[0] + "\n" + PrintHeader(lines[1..])
  }

  /** The writes that make up a frame: one for a header-only frame, three for a WRITE. */
  function Segments(f: Frame): (r: seq<string>)
    ensures r != []
  {
    if f.Write? then [PrintHeader(HeaderLines(f)), f.payload, "\n\n"] else [PrintHeader(HeaderLines(f))]
  }

  function Encode(f: Frame): string {
    Concat(Segments(f))
  }

  function EncodeAll(fs: seq<Frame>): string {
    if fs == [] then "" else Encode(fs[0]) + EncodeAll(fs[1..])
  }

  lemma {:induction false} EncodeAllAppend(a: seq<Frame>, b: seq<Frame>)
    ensures EncodeAll(a + b) == EncodeAll(a) + EncodeAll(b)
  {
    hide Encode;
    if a == [] {
      assert a + b == b;
    } else {
      EncodeAllAppend(a[1..], b);
      assert (a + b)[1..] == a[1..] + b;
      Assoc(Encode(a[0]), EncodeAll(a[1..]), EncodeAll(b));
    }
  }

  lemma EncodeAllOne(f: Frame)
    ensures EncodeAll([f]) == Encode(f)
  {
    assert [f][1..] == [];
  }

  // ---------- Decoding ----------

  /** The lines up to the first blank line, and what follows it. */
  function ReadHeader(s: string): (r: Option<(seq<string>, string)>)
    ensures r.Some? ==> |r.value.1| < |s|
    decreases |s|
  {
    var i := Index(s, '\n');
    if i == -1 then None
    else if i == 0 then Some(([], s[1..]))
    else
      match ReadHeader(s[i + 1..])
      case None => None
      case Some((lines, rest)) => Some(([s[..i]] + lines, rest))
  }

  /** The text of `line` after `key`. */
  function After(line: string, key: string): Option<string> {
    if HasPrefix(line, key) then Some(line[|key|..]) else None
  }

  function ParseRange(s: string): Option<(int, int)> {
    var i := Index(s, ':');
    if i == -1 then None
    else
      match (ParseBlankable(s[..i]), ParseBlankable(s[i + 1..]))
      case (Some(a), Some(b)) => Some((a, b))
      case _ => None
  }

  function ParseBlankable(s: string): Option<int> {
    if s == "" then Some(0) else ParseInt(s)
  }

  function ParseMode(s: string): Option<RateMode> {
    if s == "Adaptive" then Some(Adaptive)
    else if s == "Fixed" then Some(Fixed)
    else if s == "Trickle" then Some(Trickle)
    else None
  }

  /** A number after `key`. */
  function NumberAfter(line: string, key: string): Option<int> {
    match After(line, key)
    case Some(t) => ParseInt(t)
    case None => None
  }

  function DecodeWrite(lines: seq<string>, rest: string): (r: Option<(Frame, string)>)
    requires |lines| == 5
    ensures r.Some? ==> |r.value.1| <= |rest|
  {
    match (After(lines[2], DESTINATION), NumberAfter(lines[3], OFFSET), NumberAfter(lines[4], SIZE))
    case (Some(dest), Some(offset), Some(size)) =>
      if 0 <= size && size + 2 <= |rest| && rest[size..size + 2] == "\n\n"
      then Some((Write(dest, offset, rest[..size]), rest[size + 2..]))
      else None
    case _ => None
  }

  function DecodeStart(lines: seq<string>): Option<Frame>
    requires 4 <= |lines|
  {
    match (After(lines[2], SOURCE), After(lines[3], DESTINATION))
    case (Some(source), Some(dest)) =>
      if |lines| == 4 then Some(Start(source, dest, 0, 0))
      else
        (match After(lines[4], FILE_BYTES)
         case None => None
         case Some(range) =>
           match ParseRange(range)
           case Some((startByte, endByte)) => Some(Start(source, dest, startByte, endByte))
           case None => None)
    case _ => None
  }

  function DecodeRate(lines: seq<string>): Option<Frame>
    requires |lines| == 5
  {
    match (NumberAfter(lines[2], RATE), NumberAfter(lines[3], MIN_RATE), After(lines[4], ADAPTIVE))
    case (Some(target), Some(min), Some(text)) =>
      (match ParseMode(text)
       case Some(mode) => Some(Rate(target, min, mode))
       case None => None)
    case _ => None
  }

  /** A frame whose header is the whole frame. */
  function DecodeHeaderOnly(kind: Kind, lines: seq<string>): Option<Frame> {
    match kind
    case PutKind =>
      if |lines| != 3 then None else
      (match After(lines[2], DESTINATION) case Some(dest) => Some(Put(dest)) case None => None)
    case CloseKind =>
      if |lines| != 3 then None else
      (match After(lines[2], DESTINATION) case Some(dest) => Some(Close(dest)) case None => None)
    case StartKind => if |lines| < 4 then None else DecodeStart(lines)
    case RateKind => if |lines| != 5 then None else DecodeRate(lines)
    case DoneKind => if |lines| == 2 then Some(Done) else Some(Linger)
    case CancelKind => Some(Cancel)
    case WriteKind => None
  }

  function DecodeBody(lines: seq<string>, rest: string): (r: Option<(Frame, string)>)
    ensures r.Some? ==> |r.value.1| <= |rest|
  {
    if |lines| < 2 then None
    else
      match KindOf(lines[1])
      case None => None
      case Some(kind) =>
        if kind == WriteKind then (if |lines| == 5 then DecodeWrite(lines, rest) else None)
        else
          match DecodeHeaderOnly(kind, lines)
          case Some(f) => Some((f, rest))
          case None => None
  }

  /** The first frame of a byte stream and the bytes after it. */
  function Decode(s: string): (r: Option<(Frame, string)>)
    ensures r.Some? ==> |r.value.1| < |s|
  {
    match ReadHeader(s)
    case None => None
    case Some((lines, rest)) => DecodeBody(lines, rest)
  }

  /** All whole frames of a byte stream and the bytes of the unfinished one. */
  function DecodeAll(s: string): (seq<Frame>, string)
    decreases |s|
  {
    match Decode(s)
    case None => ([], s)
    case Some((f, rest)) =>
      var (fs, tail) := DecodeAll(rest);
      ([f] + fs, tail)
  }

  // ---------- Decoding inverts printing ----------

  function KindOfFrame(f: Frame): Kind {
    match f
    case Put(_) => PutKind
    case Write(_, _, _) => WriteKind
    case Close(_) => CloseKind
    case Start(_, _, _, _) => StartKind
    case Rate(_, _, _) => RateKind
    case Done => DoneKind
    case Cancel => CancelKind
    case Linger => DoneKind
  }

  predicate Printable(line: string) {
    OneLine(line) && line != ""
  }

  lemma {:induction false} ReadPrintedHeader(lines: seq<string>, rest: string)
    requires forall i :: 0 <= i < |lines| ==> Printable(lines[i])
    ensures ReadHeader(PrintHeader(lines) + rest) == Some((lines, rest))
  {
    if lines == [] {
      assert ("\n" + rest)[1..] == rest;
    } else {
      var head, tail := lines[0], PrintHeader(lines[1..]);
      ReadPrintedHeader(lines[1..], rest);
      Assoc(head + "\n", tail, rest);
      var s := head + "\n" + (tail + rest);
      IndexFirst(head, '\n', tail + rest);
      assert s[..|head|] == head;
      assert s[|head| + 1..] == tail + rest;
      assert [head] + lines[1..] == lines;
    }
  }

  lemma AfterPrinted(key: string, text: string)
    ensures After(key + text, key) == Some(text)
  {
    assert (key + text)[|key|..] == text;
  }

  lemma NumberAfterPrinted(key: string, n: int)
    ensures NumberAfter(key + PrintInt(n), key) == Some(n)
  {
    AfterPrinted(key, PrintInt(n));
    ParsePrint(n);
  }

  lemma BlankPrinted(n: int)
    ensures ParseBlankable(BlankForZero(n)) == Some(n)
  {
    hide ParseInt;
    hide PrintInt;
    ParsePrint(n);
  }

  lemma RangePrinted(a: int, b: int)
    ensures ParseRange(PrintRange(a, b)) == Some((a, b))
  {
    hide ParseBlankable;
    hide BlankForZero;
    hide Index;
    var left, right := BlankForZero(a), BlankForZero(b);
    IndexFirst(left, ':', right);
    var s := left + ":" + right;
    assert s[..|left|] == left && s[|left| + 1..] == right;
    BlankPrinted(a);
    BlankPrinted(b);
  }

  lemma KindPrinted(k: Kind)
    ensures KindOf(KindLine(k)) == Some(k)
    ensures Printable(KindLine(k))
  {
  }

  lemma PrintableField(key: string, text: string)
    requires Printable(key) && OneLine(text)
    ensures Printable(key + text)
  {
  }

  lemma PrintableKeys()
    ensures Printable(DESTINATION) && Printable(SOURCE) && Printable(OFFSET) && Printable(SIZE)
    ensures Printable(FILE_BYTES) && Printable(RATE) && Printable(MIN_RATE) && Printable(ADAPTIVE)
  {
  }

  lemma PrintableVersions()
    ensures Printable("FASPMGR 2") && Printable("FASPMGR 4") && Printable("Operation: Linger")
    ensures forall m :: OneLine(ModeText(m))
  {
  }

  lemma RangeOneLine(a: int, b: int)
    ensures OneLine(PrintRange(a, b))
  {
    hide PrintInt;
  }

  lemma HeaderLinesPrintable(f: Frame)
    requires f.Valid()
    ensures forall i :: 0 <= i < |HeaderLines(f)| ==> Printable(HeaderLines(f)[i])
  {
    hide KindLine;
    hide ModeText;
    hide Printable;
    hide PrintInt;
    hide PrintRange;
    KindPrinted(KindOfFrame(f));
    PrintableKeys();
    PrintableVersions();
    match f
    case Put(dest) => PrintableField(DESTINATION, dest);
    case Close(dest) => PrintableField(DESTINATION, dest);
    case Write(dest, offset, payload) =>
      PrintableField(DESTINATION, dest);
      PrintableField(OFFSET, PrintInt(offset));
      PrintableField(SIZE, PrintInt(|payload|));
    case Start(source, dest, startByte, endByte) =>
      PrintableField(SOURCE, source);
      PrintableField(DESTINATION, dest);
      RangeOneLine(startByte, endByte);
      PrintableField(FILE_BYTES, PrintRange(startByte, endByte));
    case Rate(target, min, mode) =>
      PrintableField(RATE, PrintInt(target));
      PrintableField(MIN_RATE, PrintInt(min));
      PrintableField(ADAPTIVE, ModeText(mode));
    case _ =>
  }

  /** What follows the header of a frame. */
  function Body(f: Frame): string {
    if f.Write? then f.payload + "\n\n" else ""
  }

  lemma EncodeIs(f: Frame)
    ensures Encode(f) == PrintHeader(HeaderLines(f)) + Body(f)
  {
    hide HeaderLines;
    hide PrintHeader;
    var h := PrintHeader(HeaderLines(f));
    if f.Write? {
      ConcatThree(h, f.payload, "\n\n");
    } else {
      ConcatOne(h);
    }
  }

  lemma ConcatOne(a: string)
    ensures Concat([a]) == a
  {
    assert [a][1..] == [];
  }

  lemma ConcatThree(a: string, b: string, c: string)
    ensures Concat([a, b, c]) == a + (b + c)
  {
    assert [a, b, c][1..] == [b, c];
    assert [b, c][1..] == [c];
    ConcatOne(c);
  }

  lemma DecodeWriteBody(f: Frame, rest: string)
    requires f.Write?
    ensures DecodeBody(HeaderLines(f), Body(f) + rest) == Some((f, rest))
  {
    hide KindOf;
    hide KindLine;
    hide PrintInt;
    hide After;
    hide NumberAfter;
    KindPrinted(WriteKind);
    AfterPrinted(DESTINATION, f.dest);
    NumberAfterPrinted(OFFSET, f.offset);
    NumberAfterPrinted(SIZE, |f.payload|);
    var body, size := Body(f) + rest, |f.payload|;
    assert body[..size] == f.payload;
    assert body[size..size + 2] == "\n\n";
    assert body[size + 2..] == rest;
  }

  lemma DecodeStartLines(f: Frame)
    requires f.Start?
    ensures DecodeHeaderOnly(StartKind, HeaderLines(f)) == Some(f)
  {
    hide KindLine;
    hide PrintRange;
    hide After;
    hide ParseRange;
    AfterPrinted(SOURCE, f.source);
    AfterPrinted(DESTINATION, f.dest);
    AfterPrinted(FILE_BYTES, PrintRange(f.startByte, f.endByte));
    RangePrinted(f.startByte, f.endByte);
  }

  lemma DecodeRateLines(f: Frame)
    requires f.Rate?
    ensures DecodeHeaderOnly(RateKind, HeaderLines(f)) == Some(f)
  {
    hide KindLine;
    hide PrintInt;
    hide After;
    hide NumberAfter;
    NumberAfterPrinted(RATE, f.target);
    NumberAfterPrinted(MIN_RATE, f.min);
    AfterPrinted(ADAPTIVE, ModeText(f.mode));
  }

  lemma DecodeHeaderLines(f: Frame)
    requires !f.Write?
    ensures DecodeHeaderOnly(KindOfFrame(f), HeaderLines(f)) == Some(f)
  {
    match f
    case Put(dest) => AfterPrinted(DESTINATION, dest);
    case Close(dest) => AfterPrinted(DESTINATION, dest);
    case Start(_, _, _, _) => DecodeStartLines(f);
    case Rate(_, _, _) => DecodeRateLines(f);
    case _ =>
  }

  lemma KindLineIsSecond(f: Frame)
    ensures |HeaderLines(f)| >= 2 && HeaderLines(f)[1] == KindLine(KindOfFrame(f))
  {
    hide KindLine;
  }

  lemma DecodePrintedBody(f: Frame, rest: string)
    ensures DecodeBody(HeaderLines(f), Body(f) + rest) == Some((f, rest))
  {
    hide HeaderLines;
    hide KindOf;
    hide KindLine;
    hide DecodeHeaderOnly;
    if f.Write? {
      DecodeWriteBody(f, rest);
    } else {
      KindLineIsSecond(f);
      KindPrinted(KindOfFrame(f));
      DecodeHeaderLines(f);
      assert "" + rest == rest;
    }
  }

  /** Reading back a frame, whatever bytes follow it: a payload may contain blank
      lines or a copy of another frame, its Size delimits it. */
  lemma DecodeEncode(f: Frame, rest: string)
    requires f.Valid()
    ensures Decode(Encode(f) + rest) == Some((f, rest))
  {
    hide HeaderLines;
    hide Encode;
    hide Body;
    hide DecodeBody;
    EncodeIs(f);
    HeaderLinesPrintable(f);
    Assoc(PrintHeader(HeaderLines(f)), Body(f), rest);
    ReadPrintedHeader(HeaderLines(f), Body(f) + rest);
    DecodePrintedBody(f, rest);
  }

  predicate AllValid(fs: seq<Frame>) {
    forall i :: 0 <= i < |fs| ==> fs[i].Valid()
  }

  /** A whole wire is read back frame by frame. */
  lemma {:induction false} DecodeAllEncodeAll(fs: seq<Frame>, tail: string)
    requires AllValid(fs)
    requires Decode(tail).None?
    ensures DecodeAll(EncodeAll(fs) + tail) == (fs, tail)
  {
    hide Encode;
    hide Decode;
    if fs == [] {
      assert "" + tail == tail;
    } else {
      Assoc(Encode(fs[0]), EncodeAll(fs[1..]), tail);
      DecodeEncode(fs[0], EncodeAll(fs[1..]) + tail);
      DecodeAllEncodeAll(fs[1..], tail);
      assert [fs[0]] + fs[1..] == fs;
    }
  }

  /** The outbound wire is uniquely decodable. */
  lemma EncodeAllInjective(fs: seq<Frame>, gs: seq<Frame>)
    requires AllValid(fs) && AllValid(gs)
    requires EncodeAll(fs) == EncodeAll(gs)
    ensures fs == gs
  {
    hide EncodeAll;
    DecodeAllEncodeAll(fs, "");
    DecodeAllEncodeAll(gs, "");
    assert EncodeAll(fs) + "" == EncodeAll(fs);
    assert EncodeAll(gs) + "" == EncodeAll(gs);
  }

  // ---------- Exactly the frames with newline-free paths are read back ----------

  lemma {:induction false} HeaderLinesAreLines(s: string)
    requires ReadHeader(s).Some?
    ensures AllOneLine(ReadHeader(s).value.0)
    decreases |s|
  {
    var i := Index(s, '\n');
    if i != 0 {
      HeaderLinesAreLines(s[i + 1..]);
    }
  }

  lemma AfterOneLine(line: string, key: string)
    requires OneLine(line) && After(line, key).Some?
    ensures OneLine(After(line, key).value)
  {
  }

  lemma DecodedBodyValid(lines: seq<string>, rest: string)
    requires AllOneLine(lines) && DecodeBody(lines, rest).Some?
    ensures DecodeBody(lines, rest).value.0.Valid()
  {
    hide KindOf;
    hide After;
    hide NumberAfter;
    hide ParseRange;
    hide ParseMode;
    if |lines| > 2 && After(lines[2], DESTINATION).Some? {
      AfterOneLine(lines[2], DESTINATION);
    }
    if |lines| > 2 && After(lines[2], SOURCE).Some? {
      AfterOneLine(lines[2], SOURCE);
    }
    if |lines| > 3 && After(lines[3], DESTINATION).Some? {
      AfterOneLine(lines[3], DESTINATION);
    }
  }

  /** Only frames with newline-free paths are ever read. */
  lemma DecodedValid(s: string)
    requires Decode(s).Some?
    ensures Decode(s).value.0.Valid()
  {
    hide ReadHeader;
    hide DecodeBody;
    HeaderLinesAreLines(s);
    var (lines, rest) := ReadHeader(s).value;
    DecodedBodyValid(lines, rest);
  }

  /** A frame is read back whatever follows it if and only if its paths are newline-free. */
  lemma ReadBackExactly(f: Frame)
    ensures f.Valid() <==> forall rest :: Decode(Encode(f) + rest) == Some((f, rest))
  {
    hide Decode;
    hide Encode;
    if f.Valid() {
      forall rest ensures Decode(Encode(f) + rest) == Some((f, rest)) {
        DecodeEncode(f, rest);
      }
    } else {
      var s := Encode(f) + "";
      if Decode(s).Some? {
        DecodedValid(s);
      }
    }
  }

  lemma {:induction false} AllDecodedValid(s: string)
    ensures AllValid(DecodeAll(s).0)
    decreases |s|
  {
    hide Decode;
    if Decode(s).Some? {
      DecodedValid(s);
      AllDecodedValid(Decode(s).value.1);
    }
  }

  /** A wire is read back as the frames put on it if and only if their paths are newline-free. */
  lemma WireReadBackExactly(fs: seq<Frame>)
    ensures AllValid(fs) <==> DecodeAll(EncodeAll(fs)) == (fs, "")
  {
    hide Decode;
    hide DecodeAll;
    hide EncodeAll;
    hide AllValid;
    if AllValid(fs) {
      NothingDecoded();
      DecodeAllEncodeAll(fs, "");
      assert EncodeAll(fs) + "" == EncodeAll(fs);
    } else {
      AllDecodedValid(EncodeAll(fs));
    }
  }

  lemma NothingDecoded()
    ensures Decode("").None?
  {
  }

  // ---------- An unfinished frame is not mistaken for a whole one ----------

  lemma {:induction false} ReadHeaderStable(s: string, t: string)
    requires ReadHeader(s).Some?
    ensures ReadHeader(s + t) == Some((ReadHeader(s).value.0, ReadHeader(s).value.1 + t))
    decreases |s|
  {
    var i := Index(s, '\n');
    var head, tail := s[..i], s[i + 1..];
    assert s == head + "\n" + tail;
    Assoc(head + "\n", tail, t);
    IndexFirst(head, '\n', tail + t);
    assert (s + t)[..i] == head;
    assert (s + t)[i + 1..] == tail + t;
    if i != 0 {
      ReadHeaderStable(tail, t);
    }
  }

  lemma DecodeBodyStable(lines: seq<string>, rest: string, t: string)
    requires DecodeBody(lines, rest).Some?
    ensures DecodeBody(lines, rest + t) == Some((DecodeBody(lines, rest).value.0, DecodeBody(lines, rest).value.1 + t))
  {
    hide KindOf;
    hide DecodeHeaderOnly;
    hide After;
    hide NumberAfter;
    var kind := KindOf(lines[1]).value;
    if kind == WriteKind {
      var size := NumberAfter(lines[4], SIZE).value;
      assert (rest + t)[..size] == rest[..size];
      assert (rest + t)[size..size + 2] == rest[size..size + 2];
      assert (rest + t)[size + 2..] == rest[size + 2..] + t;
    }
  }

  lemma DecodeStable(s: string, t: string)
    requires Decode(s).Some?
    ensures Decode(s + t) == Some((Decode(s).value.0, Decode(s).value.1 + t))
  {
    hide DecodeBody;
    hide ReadHeader;
    ReadHeaderStable(s, t);
    var (lines, rest) := ReadHeader(s).value;
    DecodeBodyStable(lines, rest, t);
  }

  /** No proper prefix of a frame holds a whole frame. */
  lemma PartialUndecodable(f: Frame, p: string, q: string)
    requires f.Valid() && p + q == Encode(f) && q != ""
    ensures Decode(p).None?
  {
    hide Decode;
    hide Encode;
    DecodeEncode(f, "");
    assert Encode(f) + "" == Encode(f);
    if Decode(p).Some? {
      DecodeStable(p, q);
    }
  }

  lemma {:induction false} JoinedLines(before: seq<string>, x: string, y: string)
    ensures PrintHeader(before + [x + "\n" + y]) == PrintHeader(before + [x, y])
  {
    if before == [] {
      assert [] + [x + "\n" + y] == [x + "\n" + y] && [x + "\n" + y][1..] == [];
      assert [] + [x, y] == [x, y] && [x, y][1..] == [y] && [y][1..] == [];
      Assoc(x + "\n", y, "\n");
      Assoc(x + "\n", y + "\n", "\n");
    } else {
      JoinedLines(before[1..], x, y);
      assert (before + [x + "\n" + y])[1..] == before[1..] + [x + "\n" + y];
      assert (before + [x, y])[1..] == before[1..] + [x, y];
    }
  }

  /** Some paths with a newline make two frames equal: here a destination that carries
      the byte range of another START. */
  lemma RangeInPathAmbiguous(source: string, dest: string, startByte: int, endByte: int)
    requires startByte != 0 || endByte != 0
    ensures var long := dest + "\n" + (FILE_BYTES + PrintRange(startByte, endByte));
            Encode(Start(source, long, 0, 0)) == Encode(Start(source, dest, startByte, endByte))
  {
    hide KindLine;
    hide PrintRange;
    hide PrintHeader;
    var range := FILE_BYTES + PrintRange(startByte, endByte);
    var long := dest + "\n" + range;
    var before := ["FASPMGR 2", KindLine(StartKind), SOURCE + source];
    EncodeIs(Start(source, long, 0, 0));
    EncodeIs(Start(source, dest, startByte, endByte));
    JoinedLines(before, DESTINATION + dest, range);
    Assoc(DESTINATION, dest + "\n", range);
    Assoc(DESTINATION, dest, "\n");
    assert HeaderLines(Start(source, long, 0, 0)) == before + [DESTINATION + dest + "\n" + range];
    assert HeaderLines(Start(source, dest, startByte, endByte)) == before + [DESTINATION + dest, range];
  }

  /** Others are read as the end of their frame and a frame of their own. */
  lemma NewlinePathAmbiguous(p: string)
    requires OneLine(p)
    ensures var long := p + "\n\n" + "FASPMGR 2" + "\n" + KindLine(CancelKind);
            EncodeAll([Put(long)]) == EncodeAll([Put(p), Cancel]) && !Put(long).Valid()
  {
    hide KindLine;
    var cancel := "FASPMGR 2" + "\n" + KindLine(CancelKind);
    var long := p + "\n\n" + "FASPMGR 2" + "\n" + KindLine(CancelKind);
    Assoc(p + "\n\n", "FASPMGR 2" + "\n", KindLine(CancelKind));
    Assoc(p + "\n\n", "FASPMGR 2", "\n");
    assert long == p + "\n\n" + cancel;
    PutBytes(p);
    PutBytes(long);
    CancelBytes();
    EncodeAllOne(Put(long));
    EncodeAllOne(Put(p));
    EncodeAllOne(Cancel);
    EncodeAllAppend([Put(p)], [Cancel]);
    assert [Put(p)] + [Cancel] == [Put(p), Cancel];
    var head := "FASPMGR 4" + "\n" + KindLine(PutKind) + "\n" + DESTINATION;
    PutTogether(head, p, cancel);
    assert long[|p|] == '\n';
  }

  lemma PutTogether(head: string, p: string, cancel: string)
    ensures head + (p + "\n\n" + cancel) + "\n\n" == head + p + "\n\n" + (cancel + "\n\n")
  {
    Assoc(head, p + "\n\n", cancel);
    Assoc(head, p, "\n\n");
    Assoc(head + p + "\n\n", cancel, "\n\n");
  }

  lemma PutBytes(d: string)
    ensures Encode(Put(d)) == "FASPMGR 4" + "\n" + KindLine(PutKind) + "\n" + DESTINATION + d + "\n\n"
  {
    hide KindLine;
    EncodeIs(Put(d));
    var lines := HeaderLines(Put(d));
    assert lines[1..][1..][1..] == [];
    assert lines[1..][0] == KindLine(PutKind) && lines[1..][1..][0] == DESTINATION + d;
    HeaderOfThree("FASPMGR 4", KindLine(PutKind), DESTINATION + d);
    assert PrintHeader(lines) + "" == PrintHeader(lines);
    var a := "FASPMGR 4" + "\n" + KindLine(PutKind) + "\n";
    Assoc(a, DESTINATION, d);
  }

  lemma HeaderOfThree(a: string, b: string, c: string)
    ensures PrintHeader([a, b, c]) == a + "\n" + b + "\n" + c + "\n\n"
  {
    HeaderOfTwo(b, c);
    assert [a, b, c][1..] == [b, c];
    Assoc(a + "\n", b + "\n" + c, "\n\n");
    Assoc(a + "\n", b + "\n", c);
    Assoc(a + "\n", b, "\n");
  }

  lemma HeaderOfTwo(a: string, b: string)
    ensures PrintHeader([a, b]) == a + "\n" + b + "\n\n"
  {
    assert [a, b][1..] == [b] && [b][1..] == [];
    assert PrintHeader([b]) == b + "\n" + PrintHeader([]);
    assert PrintHeader([]) == "\n" && "\n" + "\n" == "\n\n";
    Assoc(b, "\n", "\n");
    Assoc(a + "\n", b, "\n\n");
  }

  lemma CancelBytes()
    ensures Encode(Cancel) == "FASPMGR 2" + "\n" + KindLine(CancelKind) + "\n\n"
  {
    hide KindLine;
    EncodeIs(Cancel);
    HeaderOfTwo("FASPMGR 2", KindLine(CancelKind));
    assert PrintHeader(HeaderLines(Cancel)) + "" == PrintHeader(HeaderLines(Cancel));
  }

  // ---------- The bytes of each frame, written out ----------

  lemma HeaderCons(line: string, rest: seq<string>)
    ensures PrintHeader([line] + rest) == line + "\n" + PrintHeader(rest)
  {
    assert ([line] + rest)[1..] == rest;
  }

  lemma CloseText(d: string)
    ensures Encode(Close(d)) == "FASPMGR 4\nType: CLOSE\nDestination: " + d + "\n\n"
  {
    hide PrintHeader;
    EncodeIs(Close(d));
    HeaderOfThree("FASPMGR 4", "Type: CLOSE", "Destination: " + d);
    assert PrintHeader(HeaderLines(Close(d))) + "" == PrintHeader(HeaderLines(Close(d)));
    Together("FASPMGR 4" + "\n" + "Type: CLOSE" + "\n", "Destination: ", d);
    assert "FASPMGR 4" + "\n" + "Type: CLOSE" + "\n" + "Destination: " == "FASPMGR 4\nType: CLOSE\nDestination: ";
  }

  lemma PutText(d: string)
    ensures Encode(Put(d)) == "FASPMGR 4\nType: PUT\nDestination: " + d + "\n\n"
  {
    hide PrintHeader;
    EncodeIs(Put(d));
    HeaderOfThree("FASPMGR 4", "Type: PUT", "Destination: " + d);
    assert PrintHeader(HeaderLines(Put(d))) + "" == PrintHeader(HeaderLines(Put(d)));
    Together("FASPMGR 4" + "\n" + "Type: PUT" + "\n", "Destination: ", d);
    assert "FASPMGR 4" + "\n" + "Type: PUT" + "\n" + "Destination: " == "FASPMGR 4\nType: PUT\nDestination: ";
  }

  lemma Together(head: string, key: string, text: string)
    ensures head + (key + text) == head + key + text
  {
    Assoc(head, key, text);
  }

  lemma DoneText()
    ensures Encode(Done) == "FASPMGR 2\nType: DONE\n\n"
    ensures Encode(Cancel) == "FASPMGR 2\nType: CANCEL\n\n"
  {
    hide PrintHeader;
    EncodeIs(Done);
    EncodeIs(Cancel);
    HeaderOfTwo("FASPMGR 2", "Type: DONE");
    HeaderOfTwo("FASPMGR 2", "Type: CANCEL");
    assert PrintHeader(HeaderLines(Done)) + "" == PrintHeader(HeaderLines(Done));
    assert PrintHeader(HeaderLines(Cancel)) + "" == PrintHeader(HeaderLines(Cancel));
  }

  lemma LingerText()
    ensures Encode(Linger) == "FASPMGR 2\nType: DONE\nOperation: Linger\n\n"
  {
    hide PrintHeader;
    EncodeIs(Linger);
    HeaderOfThree("FASPMGR 2", "Type: DONE", "Operation: Linger");
    assert PrintHeader(HeaderLines(Linger)) + "" == PrintHeader(HeaderLines(Linger));
  }

  /** The text of five lines, each but the first two a key and its text. */
  lemma HeaderOfFive(a: string, b: string, c: string, d: string, e: string)
    ensures PrintHeader([a, b, c, d, e]) == a + "\n" + b + "\n" + c + "\n" + d + "\n" + e + "\n\n"
  {
    hide PrintHeader;
    HeaderOfThree(c, d, e);
    assert [b, c, d, e] == [b] + [c, d, e] && [a, b, c, d, e] == [a] + [b, c, d, e];
    HeaderCons(b, [c, d, e]);
    HeaderCons(a, [b, c, d, e]);
    var ab := a + "\n" + b + "\n";
    Assoc(a + "\n", b, "\n");
    Assoc(a + "\n", b + "\n", c + "\n" + d + "\n" + e + "\n\n");
    Assoc(ab, c + "\n" + d + "\n" + e, "\n\n");
    Assoc(ab, c + "\n" + d + "\n", e);
    Assoc(ab, c + "\n" + d, "\n");
    Assoc(ab, c + "\n", d);
    Assoc(ab, c, "\n");
  }

  lemma HeaderOfFour(a: string, b: string, c: string, d: string)
    ensures PrintHeader([a, b, c, d]) == a + "\n" + b + "\n" + c + "\n" + d + "\n\n"
  {
    hide PrintHeader;
    HeaderOfThree(b, c, d);
    assert [a, b, c, d] == [a] + [b, c, d];
    HeaderCons(a, [b, c, d]);
    Assoc(a + "\n", b + "\n" + c + "\n" + d, "\n\n");
    Assoc(a + "\n", b + "\n" + c + "\n", d);
    Assoc(a + "\n", b + "\n" + c, "\n");
    Assoc(a + "\n", b + "\n", c);
    Assoc(a + "\n", b, "\n");
  }

  lemma WriteText(d: string, offset: int, payload: string)
    ensures Encode(Write(d, offset, payload))
         == "FASPMGR 4\nType: WRITE\nDestination: " + d + "\nOffset: " + PrintInt(offset)
            + "\nSize: " + PrintInt(|payload|) + "\n\n" + (payload + "\n\n")
    ensures PrintHeader(HeaderLines(Write(d, offset, payload)))
         == "FASPMGR 4\nType: WRITE\nDestination: " + d + "\nOffset: " + PrintInt(offset)
            + "\nSize: " + PrintInt(|payload|) + "\n\n"
  {
    hide PrintHeader;
    hide PrintInt;
    EncodeIs(Write(d, offset, payload));
    var x, y := PrintInt(offset), PrintInt(|payload|);
    HeaderOfFive("FASPMGR 4", "Type: WRITE", "Destination: " + d, "Offset: " + x, "Size: " + y);
    WriteHeader(d, x, y);
  }

  lemma WriteHeader(d: string, x: string, y: string)
    ensures "FASPMGR 4" + "\n" + "Type: WRITE" + "\n" + ("Destination: " + d) + "\n" + ("Offset: " + x)
            + "\n" + ("Size: " + y)
         == "FASPMGR 4\nType: WRITE\nDestination: " + d + "\nOffset: " + x + "\nSize: " + y
  {
    var head := "FASPMGR 4" + "\n" + "Type: WRITE" + "\n";
    Together(head, "Destination: ", d);
    assert head + "Destination: " == "FASPMGR 4\nType: WRITE\nDestination: ";
    var second := head + ("Destination: " + d);
    NextKey(second, "Offset: ", x);
    NextKey(second + "\n" + ("Offset: " + x), "Size: ", y);
    assert "\n" + "Offset: " == "\nOffset: " && "\n" + "Size: " == "\nSize: ";
  }

  lemma NextKey(before: string, key: string, text: string)
    ensures before + "\n" + (key + text) == before + ("\n" + key) + text
  {
    Assoc(before + "\n", key, text);
    Assoc(before, "\n", key);
  }

  lemma RateTextIs(target: int, min: int, mode: RateMode)
    ensures Encode(Rate(target, min, mode))
         == "FASPMGR 2\nType: RATE\nRate: " + PrintInt(target) + "\nMinRate: " + PrintInt(min)
            + "\nAdaptive: " + ModeText(mode) + "\n\n"
  {
    hide PrintHeader;
    hide PrintInt;
    hide ModeText;
    var f := Rate(target, min, mode);
    EncodeIs(f);
    var x, y, z := PrintInt(target), PrintInt(min), ModeText(mode);
    HeaderOfFive("FASPMGR 2", "Type: RATE", "Rate: " + x, "MinRate: " + y, "Adaptive: " + z);
    assert PrintHeader(HeaderLines(f)) + "" == PrintHeader(HeaderLines(f));
    RateHeader(x, y, z);
  }

  lemma RateHeader(x: string, y: string, z: string)
    ensures "FASPMGR 2" + "\n" + "Type: RATE" + "\n" + ("Rate: " + x) + "\n" + ("MinRate: " + y)
            + "\n" + ("Adaptive: " + z)
         == "FASPMGR 2\nType: RATE\nRate: " + x + "\nMinRate: " + y + "\nAdaptive: " + z
  {
    var head := "FASPMGR 2" + "\n" + "Type: RATE" + "\n";
    Together(head, "Rate: ", x);
    assert head + "Rate: " == "FASPMGR 2\nType: RATE\nRate: ";
    var second := head + ("Rate: " + x);
    NextKey(second, "MinRate: ", y);
    NextKey(second + "\n" + ("MinRate: " + y), "Adaptive: ", z);
    assert "\n" + "MinRate: " == "\nMinRate: " && "\n" + "Adaptive: " == "\nAdaptive: ";
  }

  lemma StartText(source: string, dest: string, startByte: int, endByte: int)
    ensures Encode(Start(source, dest, startByte, endByte))
         == "FASPMGR 2\nType: START\nSource: " + source + "\nDestination: " + dest
            + (if startByte != 0 || endByte != 0
               then "\nFileBytes: " + ((if startByte != 0 then PrintInt(startByte) else "") + ":"
                                        + (if endByte != 0 then PrintInt(endByte) else ""))
               else "")
            + "\n\n"
  {
    hide PrintHeader;
    hide PrintInt;
    var f := Start(source, dest, startByte, endByte);
    EncodeIs(f);
    assert PrintHeader(HeaderLines(f)) + "" == PrintHeader(HeaderLines(f));
    StartHeader(source, dest);
    var four := "FASPMGR 2" + "\n" + "Type: START" + "\n" + ("Source: " + source) + "\n" + ("Destination: " + dest);
    if startByte != 0 || endByte != 0 {
      var range := PrintRange(startByte, endByte);
      assert HeaderLines(f)
          == ["FASPMGR 2", "Type: START", "Source: " + source, "Destination: " + dest, "FileBytes: " + range];
      HeaderOfFive("FASPMGR 2", "Type: START", "Source: " + source, "Destination: " + dest, "FileBytes: " + range);
      NextKey(four, "FileBytes: ", range);
      assert "\n" + "FileBytes: " == "\nFileBytes: ";
      Assoc(four, "\nFileBytes: ", range);
    } else {
      assert HeaderLines(f) == ["FASPMGR 2", "Type: START", "Source: " + source, "Destination: " + dest];
      HeaderOfFour("FASPMGR 2", "Type: START", "Source: " + source, "Destination: " + dest);
      assert four + "" == four;
    }
  }

  lemma StartHeader(source: string, dest: string)
    ensures "FASPMGR 2" + "\n" + "Type: START" + "\n" + ("Source: " + source) + "\n" + ("Destination: " + dest)
         == "FASPMGR 2\nType: START\nSource: " + source + "\nDestination: " + dest
  {
    var head := "FASPMGR 2" + "\n" + "Type: START" + "\n";
    Together(head, "Source: ", source);
    assert head + "Source: " == "FASPMGR 2\nType: START\nSource: ";
    NextKey(head + ("Source: " + source), "Destination: ", dest);
    assert "\n" + "Destination: " == "\nDestination: ";
  }
}
