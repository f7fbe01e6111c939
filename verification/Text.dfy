/** Byte strings as the repository uses them: searching, splitting into lines,
    splitting a stream into messages, and decimal numbers.  A Go string or byte
    slice is a `string` here, one `char` per byte. */
module Text {

  datatype Option<+T> = None | Some(value: T)

  lemma Assoc<T>(a: seq<T>, b: seq<T>, c: seq<T>)
    ensures a + b + c == a + (b + c)
  {
  }

  // ---------- Searching ----------

  /** strings.Index for a single byte: the first position of `c`, or -1. */
  function Index(s: string, c: char): (i: int)
    ensures -1 <= i < |s|
    ensures i == -1 <==> c !in s
    ensures 0 <= i ==> s[i] == c && c !in s[..i]
  {
    if s == [] then -1
    else if s[0] == c then 0
    else
      var r := Index(s[1..], c);
      assert 0 <= r ==> s[..r + 1] == [s[0]] + s[1..][..r];
      if r == -1 then -1 else r + 1
  }

  lemma {:induction false} IndexFirst(a: string, c: char, b: string)
    requires c !in a
    ensures Index(a + [c] + b, c) == |a|
  {
    if a != [] {
      IndexFirst(a[1..], c, b);
      assert (a + [c] + b)[1..] == a[1..] + [c] + b;
    }
  }

  predicate HasPrefix(s: string, p: string) {
    |p| <= |s| && s[..|p|] == p
  }

  /** strings.Contains */
  predicate Contains(s: string, p: string) {
    exists i {:trigger s[i..]} :: 0 <= i <= |s| && HasPrefix(s[i..], p)
  }

  lemma ContainsPrefix(p: string, s: string)
    ensures Contains(p + s, p)
  {
    var t := p + s;
    assert t[0..] == t && t[..|p|] == p;
    assert HasPrefix(t[0..], p);
  }

  // ---------- Lines ----------

  predicate OneLine(s: string) {
    '\n' !in s
  }

  predicate AllOneLine(lines: seq<string>) {
    forall i :: 0 <= i < |lines| ==> OneLine(lines[i])
  }

  /** strings.Split(s, "\n") */
  function Split(s: string): (lines: seq<string>)
    ensures lines != [] && AllOneLine(lines)
    decreases |s|
  {
    var i := Index(s, '\n');
    if i == -1 then [s] else [s[..i]] + Split(s[i + 1..])
  }

  function Join(lines: seq<string>): string
    requires lines != []
  {
    if |lines| == 1 then lines[0] else lines[0] + "\n" + Join(lines[1..])
  }

  lemma SplitCons(head: string, tail: string)
    requires OneLine(head)
    ensures Split(head + "\n" + tail) == [head] + Split(tail)
  {
    var s := head + "\n" + tail;
    IndexFirst(head, '\n', tail);
    assert s[..|head|] == head;
    assert s[|head| + 1..] == tail;
  }

  lemma CutLine(s: string) returns (head: string, tail: string)
    requires !OneLine(s)
    ensures s == head + "\n" + tail && OneLine(head) && |tail| < |s|
  {
    var i := Index(s, '\n');
    head, tail := s[..i], s[i + 1..];
  }

  lemma JoinCons(head: string, lines: seq<string>)
    requires lines != []
    ensures Join([head] + lines) == head + "\n" + Join(lines)
  {
    assert ([head] + lines)[1..] == lines;
  }

  lemma {:induction false} JoinSplit(s: string)
    ensures Join(Split(s)) == s
    decreases |s|
  {
    if !OneLine(s) {
      var head, tail := CutLine(s);
      JoinSplit(tail);
      SplitCons(head, tail);
      JoinCons(head, Split(tail));
    }
  }

  lemma {:induction false} SplitJoin(lines: seq<string>)
    requires lines != [] && AllOneLine(lines)
    ensures Split(Join(lines)) == lines
  {
    if |lines| > 1 {
      SplitJoin(lines[1..]);
      SplitCons(lines[0], Join(lines[1..]));
      assert lines == [lines[0]] + lines[1..];
    }
  }

  /** `b` keeps all lines of `a` but the last, which it may extend. */
  predicate Grows(a: seq<string>, b: seq<string>) {
    0 < |a| <= |b| && a[..|a| - 1] == b[..|a| - 1] && HasPrefix(b[|a| - 1], a[|a| - 1])
  }

  lemma GrowsKeeps(a: seq<string>, b: seq<string>)
    requires Grows(a, b)
    ensures forall j :: 0 <= j < |a| - 1 ==> b[j] == a[j]
  {
    var x := a[..|a| - 1];
    forall j | 0 <= j < |a| - 1 ensures b[j] == a[j] {
      assert x[j] == a[j];
    }
  }

  lemma GrowsCons(h: string, a: seq<string>, b: seq<string>)
    requires Grows(a, b)
    ensures Grows([h] + a, [h] + b)
  {
    var a', b' := [h] + a, [h] + b;
    assert a'[..|a'| - 1] == [h] + a[..|a| - 1];
    assert b'[..|a'| - 1] == [h] + b[..|a| - 1];
  }

  lemma SplitExtendsLine(s: string, t: string)
    requires OneLine(s)
    ensures HasPrefix(Split(s + t)[0], s)
    ensures t != [] && t[0] != '\n' ==> Split(s + t)[0] != s
  {
    var j := Index(s + t, '\n');
    if j != -1 {
      assert forall k :: 0 <= k < |s| ==> (s + t)[k] == s[k];
      assert t != [] && t[0] != '\n' ==> j != |s|;
    }
  }

  lemma SplitEndsLine(s: string, t: string)
    requires OneLine(s) && (t == [] || t[0] == '\n')
    ensures Split(s + t)[0] == s
  {
    hide OneLine;
    if t == [] {
      assert s + t == s;
      SplitOneLine(s);
    } else {
      assert t == ['\n'] + t[1..];
      Assoc(s, ['\n'], t[1..]);
      SplitCons(s, t[1..]);
    }
  }

  lemma SplitOneLine(s: string)
    requires OneLine(s)
    ensures Split(s) == [s]
  {
  }

  /** What is split off before the last newline does not change when more bytes
      follow; the unterminated last line grows unless the next byte ends it. */
  lemma {:induction false} SplitAppend(s: string, t: string)
    ensures Grows(Split(s), Split(s + t))
    ensures t != [] && t[0] != '\n' ==> Split(s + t)[|Split(s)| - 1] != Split(s)[|Split(s)| - 1]
    ensures t == [] || t[0] == '\n' ==> Split(s + t)[|Split(s)| - 1] == Split(s)[|Split(s)| - 1]
    decreases |s|
  {
    if OneLine(s) {
      SplitOneLine(s);
      SplitExtendsLine(s, t);
      if t == [] || t[0] == '\n' {
        SplitEndsLine(s, t);
      }
    } else {
      var head, tail := CutLine(s);
      Assoc(head + "\n", tail, t);
      SplitCons(head, tail);
      SplitCons(head, tail + t);
      SplitAppend(tail, t);
      GrowsCons(head, Split(tail), Split(tail + t));
    }
  }

  // ---------- Messages ----------

  predicate BlankAt(s: string, i: int) {
    0 <= i && i + 1 < |s| && s[i] == '\n' && s[i + 1] == '\n'
  }

  /** strings.Index(s, "\n\n") */
  function IndexBlank(s: string): (i: int)
    ensures i == -1 || BlankAt(s, i)
    ensures forall j :: 0 <= j && (i == -1 || j < i) ==> !BlankAt(s, j)
  {
    if |s| < 2 then -1
    else if BlankAt(s, 0) then 0
    else
      var r := IndexBlank(s[1..]);
      assert forall j :: 1 <= j ==> BlankAt(s, j) == BlankAt(s[1..], j - 1);
      if r == -1 then -1 else r + 1
  }

  lemma IndexBlankIs(s: string, i: int)
    requires BlankAt(s, i)
    requires forall j :: 0 <= j < i ==> !BlankAt(s, j)
    ensures IndexBlank(s) == i
  {
    var k := IndexBlank(s);
    assert k != -1 ==> BlankAt(s, k);
  }

  /** The first blank line stays the first one whatever bytes follow it. */
  lemma IndexBlankAppend(s: string, t: string)
    requires IndexBlank(s) != -1
    ensures IndexBlank(s + t) == IndexBlank(s)
  {
    var i := IndexBlank(s);
    assert forall j :: 0 <= j <= i ==> BlankAt(s + t, j) == BlankAt(s, j);
    IndexBlankIs(s + t, i);
  }

  /** The complete messages of a stream: the leftmost split at blank lines. */
  function Messages(s: string): seq<string>
    decreases |s|
  {
    var i := IndexBlank(s);
    if i == -1 then [] else [s[..i]] + Messages(s[i + 2..])
  }

  /** The bytes after the last complete message. */
  function Rest(s: string): (r: string)
    ensures IndexBlank(r) == -1
    decreases |s|
  {
    var i := IndexBlank(s);
    if i == -1 then s else Rest(s[i + 2..])
  }

  /** Each message followed by its blank line. */
  function Terminated(ms: seq<string>): string {
    if ms == [] then "" else ms[0] + "\n\n" + Terminated(ms[1..])
  }

  lemma {:induction false} TerminatedAppend(a: seq<string>, b: seq<string>)
    ensures Terminated(a + b) == Terminated(a) + Terminated(b)
  {
    if a == [] {
      assert a + b == b;
    } else {
      TerminatedAppend(a[1..], b);
      assert (a + b)[1..] == a[1..] + b;
      Assoc(a[0] + "\n\n", Terminated(a[1..]), Terminated(b));
    }
  }

  lemma CutMessage(s: string) returns (head: string, tail: string)
    requires IndexBlank(s) != -1
    ensures s == head + "\n\n" + tail && |head| == IndexBlank(s) && |tail| < |s|
    ensures Messages(s) == [head] + Messages(tail) && Rest(s) == Rest(tail)
  {
    var i := IndexBlank(s);
    head, tail := s[..i], s[i + 2..];
  }

  /** Splitting loses no byte. */
  lemma {:induction false} MessagesConserve(s: string)
    ensures Terminated(Messages(s)) + Rest(s) == s
    decreases |s|
  {
    if IndexBlank(s) != -1 {
      var head, tail := CutMessage(s);
      MessagesConserve(tail);
      assert Messages(s)[1..] == Messages(tail);
      Assoc(head + "\n\n", Terminated(Messages(tail)), Rest(tail));
    }
  }

  /** Splitting piecewise, carrying the rest over, is splitting at once. */
  lemma {:induction false} MessagesAppend(s: string, t: string)
    ensures Messages(s + t) == Messages(s) + Messages(Rest(s) + t)
    ensures Rest(s + t) == Rest(Rest(s) + t)
    decreases |s|
  {
    if IndexBlank(s) != -1 {
      var head, tail := CutMessage(s);
      IndexBlankAppend(s, t);
      var head', tail' := CutMessage(s + t);
      assert head' == head && tail' == tail + t by {
        Assoc(head + "\n\n", tail, t);
        assert (s + t)[..|head|] == head;
        assert (s + t)[|head| + 2..] == tail + t;
        assert (head' + "\n\n" + tail')[..|head|] == head';
        assert (head' + "\n\n" + tail')[|head| + 2..] == tail';
      }
      MessagesAppend(tail, t);
      Assoc([head], Messages(tail), Messages(Rest(tail) + t));
    }
  }

  function Concat(ss: seq<string>): string {
    if ss == [] then "" else ss[0] + Concat(ss[1..])
  }

  lemma {:induction false} ConcatAppend(a: seq<string>, b: seq<string>)
    ensures Concat(a + b) == Concat(a) + Concat(b)
  {
    if a == [] {
      assert a + b == b;
    } else {
      ConcatAppend(a[1..], b);
      assert (a + b)[1..] == a[1..] + b;
      Assoc(a[0], Concat(a[1..]), Concat(b));
    }
  }

  // ---------- Decimal numbers ----------

  function Digit(d: nat): char
    requires d < 10
  {
    ('0' as int + d) as char
  }

  predicate IsDigit(c: char) {
    '0' <= c <= '9'
  }

  predicate Digits(s: string) {
    forall i :: 0 <= i < |s| ==> IsDigit(s[i])
  }

  lemma DigitsPlain(s: string)
    requires Digits(s)
    ensures OneLine(s) && ':' !in s
  {
    assert forall i :: 0 <= i < |s| ==> IsDigit(s[i]);
  }

  function PrintNat(n: nat): (s: string)
    ensures s != [] && Digits(s)
  {
    if n < 10 then [Digit(n)] else PrintNat(n / 10) + [Digit(n % 10)]
  }

  function DigitsValue(s: string): nat
    requires Digits(s)
  {
    if s == [] then 0 else 10 * DigitsValue(s[..|s| - 1]) + (s[|s| - 1] as int - '0' as int)
  }

  lemma {:induction false} DigitsValuePrint(n: nat)
    ensures DigitsValue(PrintNat(n)) == n
  {
    if n < 10 {
      assert PrintNat(n)[..0] == [];
    } else {
      DigitsValuePrint(n / 10);
      var s := PrintNat(n);
      assert s[..|s| - 1] == PrintNat(n / 10);
    }
  }

  /** strconv.Itoa */
  function PrintInt(i: int): (s: string)
    ensures s != [] && OneLine(s) && ':' !in s
  {
    if i < 0 then "-" + PrintNat(-i) else PrintNat(i)
  }

  function ParseNat(s: string): Option<int> {
    if s != [] && Digits(s) then Some(DigitsValue(s)) else None
  }

  /** A decimal number with an optional sign. */
  function ParseInt(s: string): Option<int> {
    if s != [] && (s[0] == '-' || s[0] == '+') then
      match ParseNat(s[1..])
      case None => None
      case Some(n) => Some(if s[0] == '-' then -n else n)
    else ParseNat(s)
  }

  lemma ParsePrint(i: int)
    ensures ParseInt(PrintInt(i)) == Some(i)
  {
    if i < 0 {
      DigitsValuePrint(-i);
      assert PrintInt(i)[1..] == PrintNat(-i);
    } else {
      DigitsValuePrint(i);
      assert IsDigit(PrintNat(i)[0]);
    }
  }

  lemma PrintIntInjective(i: int, j: int)
    requires PrintInt(i) == PrintInt(j)
    ensures i == j
  {
    ParsePrint(i);
    ParsePrint(j);
  }

  /** Exactly the texts read as numbers: digits, alone or after one sign. */
  lemma NumberTexts(digits: string)
    requires digits != "" && Digits(digits)
    ensures ParseInt(digits) == ParseInt("+" + digits) == ParseNat(digits) == Some(DigitsValue(digits))
    ensures ParseInt("-" + digits) == Some(0 - DigitsValue(digits))
    ensures ParseNat("+" + digits) == ParseNat("-" + digits) == None
  {
    assert IsDigit(digits[0]);
    assert ("+" + digits)[1..] == digits && ("-" + digits)[1..] == digits;
    assert !IsDigit(("+" + digits)[0]) && !IsDigit(("-" + digits)[0]);
  }

  lemma OtherTexts(s: string)
    ensures ParseNat(s).Some? ==> s != "" && Digits(s)
    ensures ParseInt(s).Some? ==> s != "" && (Digits(s) || (|s| > 1 && (s[0] == '+' || s[0] == '-') && Digits(s[1..])))
  {
  }

  lemma NegativeIsSigned(n: int)
    requires n < 0
    ensures ParseNat(PrintInt(n)) == None
  {
    assert !IsDigit(PrintInt(n)[0]);
  }
}
