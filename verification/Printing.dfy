/** Round trip between printed management messages and what the engine reads:
    `FASPMGR n` followed by `Key: value` lines, ended by a blank line. */
module Printing {
  import opened Text
  import opened Management
  import opened Engine
  import Framing
  import Runs

  datatype Message = Message(version: nat, fields: seq<(string, string)>)

  /** Keys are colon-free; values may contain colons; neither contains a newline. */
  predicate Printable(m: Message) {
    forall i :: 0 <= i < |m.fields| ==>
      OneLine(m.fields[i].0) && ':' !in m.fields[i].0 && OneLine(m.fields[i].1)
  }

  function FieldLine(field: (string, string)): string {
    field.0 + ": " + field.1
  }

  function MessageLines(m: Message): (r: seq<string>)
    ensures |r| == |m.fields| + 1
  {
    ["FASPMGR " + PrintNat(m.version)] + seq(|m.fields|, i requires 0 <= i < |m.fields| => FieldLine(m.fields[i]))
  }

  function MessageText(m: Message): string {
    Join(MessageLines(m))
  }

  function Texts(ms: seq<Message>): (r: seq<string>)
    ensures |r| == |ms| && forall i :: 0 <= i < |ms| ==> r[i] == MessageText(ms[i])
  {
    seq(|ms|, i requires 0 <= i < |ms| => MessageText(ms[i]))
  }

  /** The lines a reader should see. */
  function Expected(m: Message): (r: seq<Line>)
    ensures |r| == |m.fields| + 1
  {
    [Header] + seq(|m.fields|, i requires 0 <= i < |m.fields| => KeyValue(m.fields[i].0, m.fields[i].1))
  }

  lemma ReadFieldLine(field: (string, string))
    requires ':' !in field.0
    ensures ReadLine(FieldLine(field)) == KeyValue(field.0, field.1)
  {
    var line := field.0 + ":" + (" " + field.1);
    assert FieldLine(field) == line;
    IndexFirst(field.0, ':', " " + field.1);
    assert line[..|field.0|] == field.0;
    assert line[|field.0| + 2..] == field.1;
  }

  const VERSION := "FASPMGR"

  lemma VersionPlain()
    ensures OneLine(VERSION + " ") && ':' !in VERSION + " "
  {
  }

  lemma ReadVersionLine(n: nat)
    ensures ReadLine("FASPMGR " + PrintNat(n)) == Header
    ensures OneLine("FASPMGR " + PrintNat(n))
  {
    hide PrintNat;
    hide Contains;
    var digits := PrintNat(n);
    DigitsPlain(digits);
    VersionPlain();
    var line := VERSION + " " + digits;
    assert "FASPMGR " + digits == line by {
      assert "FASPMGR " == VERSION + " ";
    }
    Assoc(VERSION, " ", digits);
    ContainsPrefix(VERSION, " " + digits);
    PlainConcat(VERSION + " ", digits);
  }

  lemma PlainConcat(a: string, b: string)
    requires OneLine(a) && ':' !in a && OneLine(b) && ':' !in b
    ensures OneLine(a + b) && ':' !in a + b
  {
  }

  lemma MessageLineFacts(m: Message, i: nat)
    requires Printable(m) && i <= |m.fields|
    ensures var line := MessageLines(m)[i];
            OneLine(line) && line != "" && ReadLine(line) == Expected(m)[i]
  {
    hide ReadLine;
    hide PrintNat;
    if i == 0 {
      ReadVersionLine(m.version);
    } else {
      var field := m.fields[i - 1];
      assert MessageLines(m)[i] == FieldLine(field);
      ReadFieldLine(field);
    }
  }

  lemma ReadMessage(m: Message)
    requires Printable(m)
    ensures LinesOf(MessageText(m)) == Expected(m)
    ensures forall i :: 0 <= i < |MessageLines(m)| ==> OneLine(MessageLines(m)[i]) && MessageLines(m)[i] != ""
  {
    hide ReadLine;
    hide MessageLines;
    hide Expected;
    var lines := MessageLines(m);
    forall i | 0 <= i < |lines|
      ensures OneLine(lines[i]) && lines[i] != "" && ReadLine(lines[i]) == Expected(m)[i]
    {
      MessageLineFacts(m, i);
    }
    SplitJoin(lines);
  }

  /** A text that a following blank line delimits exactly. */
  predicate Solid(s: string) {
    s != "" && s[0] != '\n' && s[|s| - 1] != '\n' && IndexBlank(s) == -1
  }

  lemma SolidCons(line: string, s: string)
    requires OneLine(line) && line != "" && Solid(s)
    ensures Solid(line + "\n" + s)
  {
    var t := line + "\n" + s;
    forall j ensures !BlankAt(t, j) {
      if 0 <= j < |line| {
        assert t[j] == line[j];
      } else if j == |line| {
        assert t[j + 1] == s[0];
      } else if |line| < j && j + 1 < |t| {
        assert !BlankAt(s, j - |line| - 1);
      }
    }
    assert IndexBlank(t) != -1 ==> BlankAt(t, IndexBlank(t));
  }

  lemma {:induction false} JoinSolid(lines: seq<string>)
    requires lines != [] && forall i :: 0 <= i < |lines| ==> OneLine(lines[i]) && lines[i] != ""
    ensures Solid(Join(lines))
  {
    if |lines| > 1 {
      JoinSolid(lines[1..]);
      SolidCons(lines[0], Join(lines[1..]));
    } else {
      assert forall j :: 0 <= j < |lines[0]| ==> lines[0][j] != '\n';
      assert IndexBlank(lines[0]) != -1 ==> BlankAt(lines[0], IndexBlank(lines[0]));
    }
  }

  lemma SolidDelimited(s: string, rest: string)
    requires Solid(s)
    ensures IndexBlank(s + "\n\n" + rest) == |s|
  {
    var t := s + "\n\n" + rest;
    forall j | 0 <= j < |s| ensures !BlankAt(t, j) {
      assert t[j] == s[j];
      assert !BlankAt(s, j);
    }
    IndexBlankIs(t, |s|);
  }

  lemma {:induction false} SplitTerminated(ss: seq<string>)
    requires forall i :: 0 <= i < |ss| ==> Solid(ss[i])
    ensures Messages(Terminated(ss)) == ss && Rest(Terminated(ss)) == ""
  {
    if ss != [] {
      var s, rest := ss[0], Terminated(ss[1..]);
      SolidDelimited(s, rest);
      SplitTerminated(ss[1..]);
      var t := s + "\n\n" + rest;
      assert t[..|s|] == s && t[|s| + 2..] == rest;
      assert [ss[0]] + ss[1..] == ss;
    }
  }

  /** Printed messages, concatenated and cut anywhere, are delivered in order as exactly
      their key and value lists: all of them if none errs, and otherwise at least
      up to and with the first one that errs. */
  lemma RoundTrip(st: Session, ms: seq<Message>, blobs: seq<string>)
    requires Fresh(st)
    requires forall i :: 0 <= i < |ms| ==> Printable(ms[i])
    requires Concat(blobs) == Terminated(Texts(ms))
    ensures var r := ReceiveAll(st, blobs);
            && |r.processed| <= |ms|
            && (forall i :: 0 <= i < |r.processed| ==> LinesOf(r.processed[i]) == Expected(ms[i]))
            && r.buffer == Terminated(Texts(ms[|r.processed|..]))
            && (Framing.AllAccepted(st, Texts(ms)) ==> |r.processed| == |ms|)
            && (forall k :: 0 <= k < |ms| && Framing.AllAccepted(st, Texts(ms)[..k]) ==> k < |r.processed|)
  {
    hide LinesOf;
    hide MessageText;
    hide Expected;
    hide Run;
    hide ReceiveAll;
    hide FreshCore;
    hide Framing.AllAccepted;
    hide Framing.AllButLast;
    hide Terminated;
    hide Messages;
    hide Concat;
    hide Texts;
    var texts, r := Texts(ms), ReceiveAll(st, blobs);
    forall i | 0 <= i < |ms| ensures Solid(texts[i]) && LinesOf(texts[i]) == Expected(ms[i]) {
      ReadMessage(ms[i]);
      SolidText(ms[i]);
    }
    SplitTerminated(texts);
    Framing.ProcessedIsPrefix(st, blobs);
    var k := |r.processed|;
    assert r.processed == texts[..k];
    TextsFrom(ms, k);
    RestOfTexts(texts, k, r.buffer);
    assert st.buffer + Concat(blobs) == Concat(blobs);
    forall k | 0 <= k < |ms| && Framing.AllAccepted(st, texts[..k]) ensures k < |r.processed| {
      Framing.Progress(st, blobs, k);
    }
    if Framing.AllAccepted(st, texts) {
      Framing.AllAcceptedButLast(st, texts);
      Framing.FragmentationInvariance(st, blobs);
      Framing.RunLogs(st, texts);
    }
  }

  lemma TextsFrom(ms: seq<Message>, k: nat)
    requires k <= |ms|
    ensures Texts(ms[k..]) == Texts(ms)[k..]
  {
    hide MessageText;
  }

  lemma RestOfTexts(texts: seq<string>, k: nat, rest: string)
    requires k <= |texts| && Terminated(texts[..k]) + rest == Terminated(texts)
    ensures rest == Terminated(texts[k..])
  {
    hide Terminated;
    assert texts == texts[..k] + texts[k..];
    TerminatedAppend(texts[..k], texts[k..]);
    var head := Terminated(texts[..k]);
    assert (head + rest)[|head|..] == rest;
    assert (head + Terminated(texts[k..]))[|head|..] == Terminated(texts[k..]);
  }

  lemma SolidText(m: Message)
    requires Printable(m)
    ensures Solid(MessageText(m))
  {
    ReadMessage(m);
    JoinSolid(MessageLines(m));
  }

  // ---------- A message that errs ----------

  /** The shortest message of type START. */
  const START_MESSAGE := Message(4, [("Type", "START")])

  lemma StartLines()
    ensures Expected(START_MESSAGE) == [Header, KeyValue("Type", "START")]
  {
  }

  lemma StartFold(msg: string)
    requires LinesOf(msg) == [Header, KeyValue("Type", "START")]
    ensures Runs.MessageEnd(msg) == Clean && Runs.LastType(msg) == Some(START)
  {
    hide LinesOf;
    hide Apply;
    var d := Draft(Runs.NO_STATS, 0, false, NO_FILE, None);
    var lines := LinesOf(msg);
    assert StepOf(Header) == Good(Nothing) && StepOf(KeyValue("Type", "START")) == Good(TypeIs(START));
    assert lines[1..] == [KeyValue("Type", "START")] && lines[1..][1..] == [];
    var mid := Apply(d, Nothing);
    assert FoldLines(d, lines) == FoldLines(mid, lines[1..]);
    assert FoldLines(mid, lines[1..]) == FoldLines(Apply(mid, TypeIs(START)), []);
    TypeOfApply(mid);
  }

  lemma TypeOfApply(d: Draft)
    ensures Apply(d, TypeIs(START)).last == Some(START)
  {
  }

  /** A START message is read without a fault, and still is an error for every session. */
  lemma StartErrs(st: Session)
    ensures !LastAccepted(Process(st, MessageText(START_MESSAGE)))
  {
    hide MessageText;
    hide StepCore;
    hide Expected;
    hide LinesOf;
    ReadMessage(START_MESSAGE);
    StartLines();
    StartFold(MessageText(START_MESSAGE));
    Runs.OutcomeIsVerdict(st.core, st.stream, st.started, MessageText(START_MESSAGE));
  }

  /** So a START followed by any other message is a stream on which the cuts matter. */
  lemma CutsMatterAfterStart(st: Session, next: Message)
    requires st.buffer == "" && Printable(next)
    ensures !Framing.CutsDoNotMatter(st, Terminated(Texts([START_MESSAGE, next])))
  {
    hide MessageText;
    hide Process;
    hide Framing.CutsDoNotMatter;
    var ms := [START_MESSAGE, next];
    var texts, stream := Texts(ms), Terminated(Texts(ms));
    SolidText(START_MESSAGE);
    SolidText(next);
    SplitTerminated(texts);
    assert "" + stream == stream;
    StartErrs(st);
    assert texts[..1] == [MessageText(START_MESSAGE)];
    assert !Framing.AllAccepted(st, texts[..1]);
    Framing.CutsMatterExactly(st, stream);
  }
}
