/** Properties of receiveManagementBlob over any sequence of blobs: no byte is
    lost or repeated, messages are processed in stream order, and the cuts between
    blobs do not matter. */
module Framing {
  import opened Text
  import opened Management
  import opened Engine

  // ---------- Runs ----------

  lemma {:induction false} RunAppend(st: Session, a: seq<string>, b: seq<string>)
    ensures Run(st, a + b) == Run(Run(st, a), b)
    decreases |a|
  {
    hide Process;
    if a == [] {
      assert a + b == b;
    } else {
      RunAppend(Process(st, a[0]), a[1..], b);
      assert (a + b)[1..] == a[1..] + b;
    }
  }

  lemma {:induction false} RunLogs(st: Session, msgs: seq<string>)
    ensures var r := Run(st, msgs);
            && r.processed == st.processed + msgs
            && |r.outcomes| == |st.outcomes| + |msgs| && r.outcomes[..|st.outcomes|] == st.outcomes
            && r.buffer == st.buffer && r.started == st.started && r.locked == st.locked && r.sent == st.sent
            && r.persistent == st.persistent && r.stream == st.stream
    decreases |msgs|
  {
    hide StepCore;
    if msgs != [] {
      RunLogs(Process(st, msgs[0]), msgs[1..]);
      assert [msgs[0]] + msgs[1..] == msgs;
      Assoc(st.processed, [msgs[0]], msgs[1..]);
    }
  }

  /** Messages are processed without looking at the buffer. */
  lemma {:induction false} RunBuffer(st: Session, buffer: string, msgs: seq<string>)
    ensures Run(st.(buffer := buffer), msgs) == Run(st, msgs).(buffer := buffer)
    decreases |msgs|
  {
    hide StepCore;
    if msgs != [] {
      RunBuffer(Process(st, msgs[0]), buffer, msgs[1..]);
    }
  }

  // ---------- Conservation ----------

  function Count(st: Session, r: Session): int {
    |r.processed| - |st.processed|
  }

  /** `r` is `st` after processing a prefix of the messages of `stream`, in order
      and each once, with every other byte still in its buffer. */
  predicate Consumed(st: Session, r: Session, stream: string) {
    var k, ms := Count(st, r), Messages(stream);
    && 0 <= k <= |ms|
    && r == Run(st, ms[..k]).(buffer := r.buffer)
    && Terminated(ms[..k]) + r.buffer == stream
    && Messages(r.buffer) == ms[k..]
    && Rest(r.buffer) == Rest(stream)
  }

  lemma ConsumedNone(st: Session)
    ensures Consumed(st, st, st.buffer)
  {
    hide Process;
    var ms := Messages(st.buffer);
    assert ms[..0] == [] && ms[0..] == ms;
    assert Terminated([]) + st.buffer == st.buffer;
  }

  lemma ConsumedOne(st: Session, r: Session)
    requires IndexBlank(st.buffer) != -1
    requires var i := IndexBlank(st.buffer); r == Process(st.(buffer := st.buffer[i + 2..]), st.buffer[..i])
    ensures Consumed(st, r, st.buffer)
  {
    hide StepCore;
    var head, tail := CutMessage(st.buffer);
    assert st.buffer[..|head|] == head && st.buffer[|head| + 2..] == tail;
    var ms := Messages(st.buffer);
    assert ms[..1] == [head] && ms[1..] == Messages(tail);
    assert Terminated([head]) + tail == st.buffer by {
      assert [head][1..] == [];
    }
    assert Run(st, [head]) == Process(st, head) by {
      assert [head][1..] == [];
    }
  }

  /** Consuming twice, with `blob` arriving in between, is consuming once. */
  lemma ConsumedCompose(st: Session, mid: Session, r: Session, stream: string, blob: string)
    requires Consumed(st, mid, stream)
    requires Consumed(mid.(buffer := mid.buffer + blob), r, mid.buffer + blob)
    ensures Consumed(st, r, stream + blob)
  {
    hide Process;
    hide Run;
    hide Messages;
    hide Rest;
    hide Terminated;
    var ms, ns := Messages(stream), Messages(mid.buffer + blob);
    var all := Messages(stream + blob);
    var j, k := Count(st, mid), Count(mid, r);
    assert all == ms[..j] + ns && Rest(stream + blob) == Rest(mid.buffer + blob) by {
      MessagesAppend(stream, blob);
      MessagesAppend(mid.buffer, blob);
      Assoc(ms[..j], ms[j..], Messages(Rest(stream) + blob));
      assert ms == ms[..j] + ms[j..];
    }
    assert all[..j + k] == ms[..j] + ns[..k] && all[j + k..] == ns[k..];
    assert Run(st, all[..j + k]).(buffer := r.buffer) == r by {
      RunAppend(st, ms[..j], ns[..k]);
      RunBuffer(Run(st, ms[..j]), mid.buffer + blob, ns[..k]);
    }
    assert Terminated(all[..j + k]) + r.buffer == stream + blob by {
      TerminatedAppend(ms[..j], ns[..k]);
      Assoc(Terminated(ms[..j]), Terminated(ns[..k]), r.buffer);
      Assoc(Terminated(ms[..j]), mid.buffer, blob);
    }
  }

  /** One call: a prefix of the complete messages is processed, all of them when it
      returns without an error. */
  lemma {:induction false} DrainConsumes(st: Session)
    ensures Consumed(st, Drain(st), st.buffer)
    ensures DrainOk(st) ==> IndexBlank(Drain(st).buffer) == -1
    decreases |st.buffer|
  {
    hide Process;
    hide Consumed;
    var i := IndexBlank(st.buffer);
    if i == -1 {
      ConsumedNone(st);
    } else {
      var mid := Process(st.(buffer := st.buffer[i + 2..]), st.buffer[..i]);
      ConsumedOne(st, mid);
      if LastAccepted(mid) {
        DrainConsumes(mid);
        assert mid.buffer + "" == mid.buffer && st.buffer + "" == st.buffer;
        ConsumedCompose(st, mid, Drain(mid), st.buffer, "");
      }
    }
  }

  /** Conservation: after any sequence of blobs, errors included, the processed
      messages each with its blank line, plus the buffer, are the bytes received,
      and the processed messages are an in-order prefix of the leftmost split. */
  lemma {:induction false} Conservation(st: Session, blobs: seq<string>)
    ensures Consumed(st, ReceiveAll(st, blobs), st.buffer + Concat(blobs))
    decreases |blobs|
  {
    hide Drain;
    hide Consumed;
    if blobs == [] {
      ConsumedNone(st);
      assert st.buffer + "" == st.buffer;
    } else {
      var mid := Receive(st, blobs[0]);
      assert Consumed(st, mid, st.buffer + blobs[0]) by {
        var input := st.(buffer := st.buffer + blobs[0]);
        DrainConsumes(input);
        ConsumedIgnoresBuffer(st, input, mid);
      }
      Conservation(mid, blobs[1..]);
      var rest := Concat(blobs[1..]);
      ConsumedIgnoresBuffer(mid.(buffer := mid.buffer + rest), mid, ReceiveAll(mid, blobs[1..]));
      ConsumedCompose(st, mid, ReceiveAll(mid, blobs[1..]), st.buffer + blobs[0], rest);
      Assoc(st.buffer, blobs[0], rest);
    }
  }

  /** Consumed does not depend on the buffer of its first argument. */
  lemma ConsumedIgnoresBuffer(st: Session, input: Session, r: Session)
    requires input == st.(buffer := input.buffer)
    ensures forall stream :: Consumed(input, r, stream) <==> Consumed(st, r, stream)
  {
    hide Run;
    hide Messages;
    forall stream ensures Consumed(input, r, stream) <==> Consumed(st, r, stream) {
      var k, ms := Count(st, r), Messages(stream);
      if 0 <= k <= |ms| {
        RunBuffer(st, input.buffer, ms[..k]);
      }
    }
  }

  /** The processed list in plain terms, for a session that has received nothing before. */
  lemma ProcessedIsPrefix(st: Session, blobs: seq<string>)
    requires Fresh(st)
    ensures var r := ReceiveAll(st, blobs);
            && Terminated(r.processed) + r.buffer == Concat(blobs)
            && r.processed <= Messages(Concat(blobs))
            && r == Run(st, r.processed).(buffer := r.buffer)
  {
    hide Run;
    hide ReceiveAll;
    hide FreshCore;
    hide Messages;
    hide Terminated;
    hide Rest;
    Conservation(st, blobs);
    assert st.buffer + Concat(blobs) == Concat(blobs);
    var r := ReceiveAll(st, blobs);
    var done := Messages(Concat(blobs))[..Count(st, r)];
    RunLogs(st, done);
    assert r.processed == done by { assert [] + done == done; }
  }

  // ---------- Fragmentation invariance ----------

  predicate AllAccepted(st: Session, msgs: seq<string>)
    decreases |msgs|
  {
    msgs == [] || (LastAccepted(Process(st, msgs[0])) && AllAccepted(Process(st, msgs[0]), msgs[1..]))
  }

  lemma {:induction false} AllAcceptedBuffer(st: Session, buffer: string, msgs: seq<string>)
    ensures AllAccepted(st.(buffer := buffer), msgs) == AllAccepted(st, msgs)
    decreases |msgs|
  {
    hide StepCore;
    if msgs != [] {
      AllAcceptedBuffer(Process(st, msgs[0]), buffer, msgs[1..]);
    }
  }

  lemma {:induction false} AllAcceptedAppend(st: Session, a: seq<string>, b: seq<string>)
    ensures AllAccepted(st, a + b) <==> AllAccepted(st, a) && AllAccepted(Run(st, a), b)
    decreases |a|
  {
    hide Process;
    if a == [] {
      assert a + b == b;
    } else {
      AllAcceptedAppend(Process(st, a[0]), a[1..], b);
      assert (a + b)[1..] == a[1..] + b;
    }
  }

  /** The session after a whole stream without errors. */
  function Whole(st: Session, stream: string): Session {
    Run(st, Messages(stream)).(buffer := Rest(stream))
  }

  /** No message but possibly the last one errs. */
  predicate AllButLast(st: Session, msgs: seq<string>) {
    msgs == [] || AllAccepted(st, msgs[..|msgs| - 1])
  }

  lemma AllAcceptedButLast(st: Session, msgs: seq<string>)
    requires AllAccepted(st, msgs)
    ensures AllButLast(st, msgs)
  {
    hide AllAccepted;
    if msgs != [] {
      var n := |msgs| - 1;
      AllAcceptedAppend(st, msgs[..n], msgs[n..]);
      assert msgs == msgs[..n] + msgs[n..];
    }
  }

  /** Splitting a list all of whose messages but the last are accepted. */
  lemma AllButLastAppend(st: Session, a: seq<string>, b: seq<string>)
    requires AllButLast(st, a + b)
    ensures AllButLast(st, a) && AllButLast(Run(st, a), b)
    ensures b != [] ==> AllAccepted(st, a)
  {
    hide AllAccepted;
    hide Run;
    if b == [] {
      assert a + b == a;
    } else {
      var n := |b| - 1;
      assert (a + b)[..|a| + n] == a + b[..n];
      AllAcceptedAppend(st, a, b[..n]);
      AllAcceptedButLast(st, a);
    }
  }

  lemma AllButLastBuffer(st: Session, buffer: string, msgs: seq<string>)
    ensures AllButLast(st.(buffer := buffer), msgs) == AllButLast(st, msgs)
  {
    hide AllAccepted;
    if msgs != [] {
      AllAcceptedBuffer(st, buffer, msgs[..|msgs| - 1]);
    }
  }

  lemma {:induction false} DrainWhole(st: Session)
    requires AllButLast(st, Messages(st.buffer))
    ensures Drain(st) == Whole(st, st.buffer)
    decreases |st.buffer|
  {
    hide StepCore;
    hide AllAccepted;
    if IndexBlank(st.buffer) != -1 {
      var head, tail := CutMessage(st.buffer);
      assert st.buffer[..|head|] == head && st.buffer[|head| + 2..] == tail;
      var ms, rest := Messages(st.buffer), Messages(tail);
      assert ms == [head] + rest && ms[0] == head && ms[1..] == rest;
      var next := Process(st.(buffer := tail), head);
      RunBuffer(Process(st, head), tail, rest);
      AllButLastAppend(st, [head], rest);
      RunOne(st, head);
      AllButLastBuffer(Process(st, head), tail, rest);
      if LastAccepted(next) {
        DrainWhole(next);
      } else if rest != [] {
        AcceptedOne(st, head);
        assert false;
      } else {
        NoMessages(tail);
      }
    }
  }

  lemma RunOne(st: Session, msg: string)
    ensures Run(st, [msg]) == Process(st, msg)
  {
    hide Process;
    assert [msg][1..] == [];
  }

  lemma AcceptedOne(st: Session, msg: string)
    ensures AllAccepted(st, [msg]) <==> LastAccepted(Process(st, msg))
  {
    hide Process;
    assert [msg][1..] == [];
  }

  lemma NoMessages(s: string)
    requires Messages(s) == []
    ensures Rest(s) == s && IndexBlank(s) == -1
  {
  }

  lemma ReceiveWhole(st: Session, blob: string)
    requires AllButLast(st, Messages(st.buffer + blob))
    ensures Receive(st, blob) == Whole(st, st.buffer + blob)
  {
    hide Drain;
    hide Run;
    hide AllButLast;
    var input := st.(buffer := st.buffer + blob);
    AllButLastBuffer(st, input.buffer, Messages(input.buffer));
    DrainWhole(input);
    RunBuffer(st, input.buffer, Messages(input.buffer));
  }

  /** However the stream is cut into blobs, a stream in which no message but possibly
      the last errs leaves the session (statistics, files, events, log and buffer) as
      one call does. */
  lemma {:induction false} FragmentationInvariance(st: Session, blobs: seq<string>)
    requires IndexBlank(st.buffer) == -1
    requires AllButLast(st, Messages(st.buffer + Concat(blobs)))
    ensures ReceiveAll(st, blobs) == Receive(st, Concat(blobs)) == Whole(st, st.buffer + Concat(blobs))
    decreases |blobs|
  {
    hide AllButLast;
    hide Run;
    hide Drain;
    hide Process;
    ReceiveWhole(st, Concat(blobs));
    if blobs == [] {
      assert st.buffer + "" == st.buffer;
      RunNothing(st);
    } else {
      var first, rest := st.buffer + blobs[0], Concat(blobs[1..]);
      Assoc(st.buffer, blobs[0], rest);
      MessagesAppend(first, rest);
      var a, b := Messages(first), Messages(Rest(first) + rest);
      AllButLastAppend(st, a, b);
      ReceiveWhole(st, blobs[0]);
      var mid := Receive(st, blobs[0]);
      AllButLastBuffer(Run(st, a), Rest(first), b);
      FragmentationInvariance(mid, blobs[1..]);
      RunAppend(st, a, b);
      RunBuffer(Run(st, a), Rest(first), b);
    }
  }

  /** One turn of the loop on a buffer that holds a message. */
  lemma DrainNext(st: Session) returns (head: string, tail: string)
    requires Messages(st.buffer) != []
    ensures Messages(st.buffer) == [head] + Messages(tail) && |tail| < |st.buffer|
    ensures var next := Process(st, head).(buffer := tail);
            && |next.processed| == |st.processed| + 1
            && Drain(st) == if LastAccepted(Process(st, head)) then Drain(next) else next
  {
    hide StepCore;
    hide IndexBlank;
    HasMessage(st.buffer);
    head, tail := CutMessage(st.buffer);
    assert st.buffer[..|head|] == head && st.buffer[|head| + 2..] == tail;
    ProcessBuffer(st, tail, head);
  }

  /** A call stops right after the first message that errs. */
  lemma {:induction false} DrainStops(st: Session, good: seq<string>, bad: string, more: seq<string>)
    requires Messages(st.buffer) == good + [bad] + more
    requires AllAccepted(st, good) && !LastAccepted(Process(Run(st, good), bad))
    ensures Count(st, Drain(st)) == |good| + 1
    decreases |good|
  {
    hide Process;
    hide Drain;
    hide Messages;
    hide AllAccepted;
    hide Run;
    var head, tail := DrainNext(st);
    UnconsMessages(head, Messages(tail), good, bad, more);
    if good == [] {
      RunNothing(st);
    } else {
      FirstAccepted(st, good);
      var first, later := Process(st, head), good[1..];
      AllAcceptedBuffer(first, tail, later);
      RunBuffer(first, tail, later);
      ProcessBuffer(Run(first, later), tail, bad);
      DrainStops(first.(buffer := tail), later, bad, more);
    }
  }

  lemma UnconsMessages(head: string, rest: seq<string>, good: seq<string>, bad: string, more: seq<string>)
    requires [head] + rest == good + [bad] + more
    ensures if good == [] then head == bad else good[0] == head && rest == good[1..] + [bad] + more
  {
    var all := good + [bad] + more;
    assert all[0] == head && all[1..] == rest;
    if good != [] {
      assert all[1..] == good[1..] + [bad] + more;
    }
  }

  lemma FirstAccepted(st: Session, good: seq<string>)
    requires good != [] && AllAccepted(st, good)
    ensures LastAccepted(Process(st, good[0])) && AllAccepted(Process(st, good[0]), good[1..])
    ensures Run(st, good) == Run(Process(st, good[0]), good[1..])
  {
    hide Process;
  }

  lemma ProcessBuffer(st: Session, buffer: string, msg: string)
    ensures Process(st.(buffer := buffer), msg) == Process(st, msg).(buffer := buffer)
  {
    hide StepCore;
  }

  /** The first messages of a stream, taken alone, are split the same way. */
  lemma {:induction false} MessagesOfPrefix(stream: string, k: nat)
    requires k <= |Messages(stream)|
    ensures var first := Terminated(Messages(stream)[..k]);
            Messages(first) == Messages(stream)[..k] && Rest(first) == "" && first <= stream
    decreases |stream|
  {
    hide IndexBlank;
    var ms := Messages(stream);
    if k == 0 {
      assert ms[..0] == [];
      NothingToSplit();
    } else {
      HasMessage(stream);
      var head, tail := CutMessage(stream);
      MessagesOfPrefix(tail, k - 1);
      assert ms[..k] == [head] + Messages(tail)[..k - 1];
      var rest := Terminated(Messages(tail)[..k - 1]);
      assert ([head] + Messages(tail)[..k - 1])[1..] == Messages(tail)[..k - 1];
      SplitHead(head, tail, rest);
    }
  }

  lemma NothingToSplit()
    ensures Messages("") == [] && Rest("") == "" && Terminated([]) == ""
  {
  }

  /** The first message is found by its own bytes. */
  lemma SplitHead(head: string, tail: string, rest: string)
    requires IndexBlank(head + "\n\n" + tail) == |head| && rest <= tail
    ensures Messages(head + "\n\n" + rest) == [head] + Messages(rest)
    ensures Rest(head + "\n\n" + rest) == Rest(rest)
    ensures head + "\n\n" + rest <= head + "\n\n" + tail
  {
    hide IndexBlank;
    var s, t := head + "\n\n" + rest, head + "\n\n" + tail;
    assert forall j :: 0 <= j < |head| + 2 ==> s[j] == t[j];
    forall j | 0 <= j < |head| ensures !BlankAt(s, j) {
      assert !BlankAt(t, j);
    }
    IndexBlankIs(s, |head|);
    assert s[..|head|] == head && s[|head| + 2..] == rest;
  }

  // ---------- Progress ----------

  /** A call processes every message before which all are accepted. */
  lemma {:induction false} DrainProgress(st: Session, k: nat)
    requires k < |Messages(st.buffer)| && AllAccepted(st, Messages(st.buffer)[..k])
    ensures Count(st, Drain(st)) > k
    decreases k
  {
    hide Process;
    hide Drain;
    hide Messages;
    hide AllAccepted;
    var head, tail := DrainNext(st);
    var first := Process(st, head);
    DrainGrows(first.(buffer := tail));
    if k > 0 {
      var ms := Messages(st.buffer);
      assert ms[..k][0] == head && ms[..k][1..] == Messages(tail)[..k - 1];
      FirstAccepted(st, ms[..k]);
      AllAcceptedBuffer(first, tail, Messages(tail)[..k - 1]);
      DrainProgress(first.(buffer := tail), k - 1);
    }
  }

  lemma NothingAccepted(st: Session)
    ensures AllAccepted(st, [])
  {
  }

  lemma ReceiveProgress(st: Session, blob: string, k: nat)
    requires k < |Messages(st.buffer + blob)| && AllAccepted(st, Messages(st.buffer + blob)[..k])
    ensures Count(st, Receive(st, blob)) > k
  {
    hide Drain;
    hide Messages;
    hide AllAccepted;
    var stream := st.buffer + blob;
    AllAcceptedBuffer(st, stream, Messages(stream)[..k]);
    DrainProgress(st.(buffer := stream), k);
  }

  /** However the stream is cut, every message before which all are accepted is
      processed, and so the first one that errs is. */
  lemma {:induction false} Progress(st: Session, blobs: seq<string>, k: nat)
    requires IndexBlank(st.buffer) == -1
    requires k < |Messages(st.buffer + Concat(blobs))| && AllAccepted(st, Messages(st.buffer + Concat(blobs))[..k])
    ensures Count(st, ReceiveAll(st, blobs)) > k
    decreases |blobs|
  {
    hide Receive;
    hide Messages;
    hide AllAccepted;
    hide Run;
    if blobs == [] {
      assert st.buffer + "" == st.buffer;
      NoBlankNoMessages(st.buffer);
      assert false;
    } else {
      var first, rest := st.buffer + blobs[0], Concat(blobs[1..]);
      Assoc(st.buffer, blobs[0], rest);
      MessagesAppend(first, rest);
      var a, b := Messages(first), Messages(Rest(first) + rest);
      var mid := Receive(st, blobs[0]);
      if k < |a| {
        assert (a + b)[..k] == a[..k];
        ReceiveProgress(st, blobs[0], k);
        ReceiveAllGrows(mid, blobs[1..]);
      } else {
        var j := k - |a|;
        assert (a + b)[..k] == a + b[..j];
        AllAcceptedAppend(st, a, b[..j]);
        AllAcceptedButLast(st, a);
        ReceiveWhole(st, blobs[0]);
        RunLogs(st, a);
        AllAcceptedBuffer(Run(st, a), Rest(first), b[..j]);
        Progress(mid, blobs[1..], j);
      }
    }
  }

  lemma NoBlankNoMessages(s: string)
    requires IndexBlank(s) == -1
    ensures Messages(s) == []
  {
  }

  lemma ReceiveAllGrows(st: Session, blobs: seq<string>)
    ensures |ReceiveAll(st, blobs).processed| >= |st.processed|
  {
    hide ReceiveAll;
    Conservation(st, blobs);
  }

  /** If a message other than the last errs, one call leaves the messages after it
      waiting, while a cut right behind it gets them processed. */
  lemma CutsMatter(st: Session, stream: string, good: seq<string>, bad: string, more: seq<string>)
    requires IndexBlank(st.buffer) == -1
    requires Messages(st.buffer + stream) == good + [bad] + more && more != []
    requires AllAccepted(st, good) && !LastAccepted(Process(Run(st, good), bad))
    ensures var n := |Terminated(good + [bad])| - |st.buffer|;
            0 <= n <= |stream|
            && |ReceiveAll(st, [stream[..n], stream[n..]]).buffer| < |Receive(st, stream).buffer|
  {
    hide Process;
    hide Run;
    hide AllAccepted;
    hide Drain;
    hide Terminated;
    hide Messages;
    hide Rest;
    hide IndexBlank;
    var n := CutBehind(st.buffer, stream, good + [bad], more);
    var a, b := stream[..n], stream[n..];
    StopsAfter(st, stream, good, bad, more);
    assert good + [bad] + [] == good + [bad];
    StopsAfter(st, a, good, bad, []);
    var mid := Receive(st, a);
    BufferEmptied(st, a, mid);
    assert "" + b == b;
    NothingAccepted(mid);
    assert more[..0] == [];
    ReceiveProgress(mid, b, 0);
    ReceiveTwo(st, a, b);
    ConcatTwo(a, b);
    assert a + b == stream;
    ReceiveOne(st, stream);
    MoreConsumed(st, [a, b], [stream]);
  }

  /** Of two ways to cut the same stream, the one that processes more messages leaves
      fewer bytes in the buffer. */
  lemma MoreConsumed(st: Session, more: seq<string>, less: seq<string>)
    requires Concat(more) == Concat(less)
    requires Count(st, ReceiveAll(st, more)) > Count(st, ReceiveAll(st, less))
    ensures |ReceiveAll(st, more).buffer| < |ReceiveAll(st, less).buffer|
  {
    hide ReceiveAll;
    hide Run;
    hide Messages;
    hide Rest;
    hide Terminated;
    Conservation(st, more);
    Conservation(st, less);
    var ms := Messages(st.buffer + Concat(more));
    var j, k := Count(st, ReceiveAll(st, less)), Count(st, ReceiveAll(st, more));
    assert ms[..k] == ms[..j] + ms[j..k];
    TerminatedAppend(ms[..j], ms[j..k]);
    TerminatedNotEmpty(ms[j..k]);
  }

  lemma TerminatedNotEmpty(ms: seq<string>)
    requires ms != []
    ensures |Terminated(ms)| > 0
  {
  }

  /** Where to cut a stream behind some of its messages. */
  lemma CutBehind(buffer: string, stream: string, first: seq<string>, more: seq<string>) returns (n: nat)
    requires IndexBlank(buffer) == -1 && first != []
    requires Messages(buffer + stream) == first + more
    ensures n == |Terminated(first)| - |buffer| && n <= |stream|
    ensures Messages(buffer + stream[..n]) == first && Rest(buffer + stream[..n]) == ""
    ensures Messages(stream[n..]) == more
  {
    hide Messages;
    hide Rest;
    hide IndexBlank;
    hide Terminated;
    var k, all := |first|, buffer + stream;
    assert (first + more)[..k] == first && (first + more)[k..] == more;
    MessagesOfPrefix(all, k);
    var head := Terminated(first);
    HasMessage(head);
    if |head| <= |buffer| {
      assert buffer == head + buffer[|head|..];
      IndexBlankAppend(head, buffer[|head|..]);
      assert false;
    }
    n := |head| - |buffer|;
    assert buffer + stream[..n] == head;
    assert head + stream[n..] == all;
    MessagesAppend(head, stream[n..]);
    assert "" + stream[n..] == stream[n..];
    assert (first + Messages(stream[n..]))[k..] == Messages(stream[n..]);
  }

  /** Every list with a message that errs has a first one. */
  lemma {:induction false} FirstError(st: Session, msgs: seq<string>)
    returns (good: seq<string>, bad: string, more: seq<string>)
    requires !AllAccepted(st, msgs)
    ensures msgs == good + [bad] + more
    ensures AllAccepted(st, good) && !LastAccepted(Process(Run(st, good), bad))
    decreases |msgs|
  {
    hide Process;
    var head, rest := msgs[0], msgs[1..];
    if LastAccepted(Process(st, head)) {
      var g;
      g, bad, more := FirstError(Process(st, head), rest);
      good := [head] + g;
      assert good[1..] == g;
    } else {
      good, bad, more := [], head, rest;
    }
  }

  ghost predicate CutsDoNotMatter(st: Session, stream: string) {
    forall blobs :: Concat(blobs) == stream ==> ReceiveAll(st, blobs) == Receive(st, stream)
  }

  /** Exactly when cuts do not matter: if and only if no message but possibly the last
      of the stream errs. */
  lemma CutsMatterExactly(st: Session, stream: string)
    requires IndexBlank(st.buffer) == -1
    ensures CutsDoNotMatter(st, stream) <==> AllButLast(st, Messages(st.buffer + stream))
  {
    hide ReceiveAll;
    hide Receive;
    hide Messages;
    hide AllAccepted;
    hide Run;
    hide Concat;
    var ms := Messages(st.buffer + stream);
    if AllButLast(st, ms) {
      forall blobs | Concat(blobs) == stream ensures ReceiveAll(st, blobs) == Receive(st, stream) {
        FragmentationInvariance(st, blobs);
      }
    } else {
      var n := |ms| - 1;
      var good, bad, more := FirstError(st, ms[..n]);
      assert ms == good + [bad] + (more + ms[n..]);
      CutsMatter(st, stream, good, bad, more + ms[n..]);
      var k := |Terminated(good + [bad])| - |st.buffer|;
      ConcatTwo(stream[..k], stream[k..]);
      assert stream[..k] + stream[k..] == stream;
    }
  }

  lemma ReceiveOne(st: Session, a: string)
    ensures ReceiveAll(st, [a]) == Receive(st, a) && Concat([a]) == a
  {
    hide Receive;
    assert [a][1..] == [];
  }

  lemma ConcatTwo(a: string, b: string)
    ensures Concat([a, b]) == a + b
  {
    assert [a, b][1..] == [b] && [b][1..] == [];
    assert Concat([b]) == b + Concat([]);
  }

  lemma HasMessage(s: string)
    requires Messages(s) != []
    ensures IndexBlank(s) != -1
  {
    hide IndexBlank;
  }

  /** A call that processes every message of a stream without rest empties the buffer. */
  lemma BufferEmptied(st: Session, blob: string, r: Session)
    requires r == Receive(st, blob) && Rest(st.buffer + blob) == ""
    requires Count(st, r) == |Messages(st.buffer + blob)|
    ensures r.buffer == ""
  {
    hide Drain;
    hide Run;
    hide Messages;
    hide IndexBlank;
    hide Terminated;
    hide Process;
    hide Rest;
    var stream := st.buffer + blob;
    var input, ms := st.(buffer := stream), Messages(stream);
    DrainConsumes(input);
    assert ms[..|ms|] == ms;
    MessagesConserve(stream);
    assert Consumed(input, r, stream);
    assert |Terminated(ms)| + |r.buffer| == |stream|;
  }

  lemma StopsAfter(st: Session, blob: string, good: seq<string>, bad: string, more: seq<string>)
    requires Messages(st.buffer + blob) == good + [bad] + more
    requires AllAccepted(st, good) && !LastAccepted(Process(Run(st, good), bad))
    ensures Count(st, Receive(st, blob)) == |good| + 1
  {
    hide Process;
    hide Drain;
    hide Messages;
    hide Run;
    hide AllAccepted;
    var stream := st.buffer + blob;
    AllAcceptedBuffer(st, stream, good);
    RunBuffer(st, stream, good);
    ProcessBuffer(Run(st, good), stream, bad);
    DrainStops(st.(buffer := stream), good, bad, more);
  }

  lemma ReceiveTwo(st: Session, a: string, b: string)
    ensures ReceiveAll(st, [a, b]) == Receive(Receive(st, a), b)
  {
    hide Receive;
    var mid := Receive(st, a);
    assert [a, b][1..] == [b] && [b][1..] == [];
    assert ReceiveAll(mid, [b]) == ReceiveAll(Receive(mid, b), []);
    assert ReceiveAll(Receive(mid, b), []) == Receive(mid, b);
  }

  lemma DrainGrows(st: Session)
    ensures |Drain(st).processed| >= |st.processed|
  {
    hide Drain;
    DrainConsumes(st);
  }

  lemma RunNothing(st: Session)
    ensures Run(st, []) == st
  {
  }
}
