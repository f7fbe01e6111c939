/** How the manager finds the session of a new connection, and how the bytes already
    read are handed over to it. */
module Routing {
  import opened Text
  import opened Engine
  import opened Commands
  import Framing
  import Runs

  const USER_STR := "UserStr: "

  /** The first line that contains `UserStr: `, or the number of lines. */
  function FindUserStr(lines: seq<string>): (i: nat)
    ensures i <= |lines|
    ensures i < |lines| ==> Contains(lines[i], USER_STR)
    ensures forall j :: 0 <= j < i ==> !Contains(lines[j], USER_STR)
  {
    if lines == [] || Contains(lines[0], USER_STR) then 0 else 1 + FindUserStr(lines[1..])
  }

  /** getSessionIdFromMessage */
  function GetSessionId(message: string): Option<string> {
    var lines := Split(message);
    var i := FindUserStr(lines);
    if i == |lines| then None
    else
      ContainsLength(lines[i], USER_STR);
      Some(lines[i][|USER_STR|..])
  }

  lemma ContainsLength(s: string, p: string)
    requires Contains(s, p)
    ensures |p| <= |s|
  {
  }

  lemma ContainsExtends(s: string, t: string, p: string)
    requires Contains(s, p) && HasPrefix(t, s)
    ensures Contains(t, p)
  {
    var i :| 0 <= i <= |s| && HasPrefix(s[i..], p);
    var a, u := s[i..], t[|s|..];
    assert t == s + u;
    assert t[i..] == a + u;
    assert (a + u)[..|p|] == a[..|p|];
    assert HasPrefix(t[i..], p);
  }

  lemma FindIs(lines: seq<string>, i: nat)
    requires i < |lines| && Contains(lines[i], USER_STR)
    requires forall j :: 0 <= j < i ==> !Contains(lines[j], USER_STR)
    ensures FindUserStr(lines) == i
  {
  }

  /** The matching line is not the unterminated last one. */
  predicate LineEnded(message: string) {
    FindUserStr(Split(message)) < |Split(message)| - 1
  }

  /** An id read from a newline-terminated line never changes, whatever bytes follow. */
  lemma TerminatedIdStable(message: string, more: string)
    requires GetSessionId(message).Some? && LineEnded(message)
    ensures GetSessionId(message + more) == GetSessionId(message)
  {
    hide Split;
    hide Contains;
    var a, b := Split(message), Split(message + more);
    SplitAppend(message, more);
    var i := FindUserStr(a);
    GrowsKeeps(a, b);
    FindIs(b, i);
  }

  /** An id read from an unterminated line changes as soon as the line goes on. */
  lemma UnterminatedIdChanges(message: string, more: string)
    requires GetSessionId(message).Some? && !LineEnded(message)
    requires more != [] && more[0] != '\n'
    ensures GetSessionId(message + more).Some? && GetSessionId(message + more) != GetSessionId(message)
  {
    hide Split;
    hide Contains;
    var a, b := Split(message), Split(message + more);
    SplitAppend(message, more);
    var i := FindUserStr(a);
    assert i == |a| - 1;
    GrowsKeeps(a, b);
    ContainsExtends(a[i], b[i], USER_STR);
    FindIs(b, i);
    ContainsLength(a[i], USER_STR);
    ProperlyLonger(a[i], b[i]);
    assert |b[i][|USER_STR|..]| > |a[i][|USER_STR|..]|;
  }

  lemma ProperlyLonger(s: string, t: string)
    requires HasPrefix(t, s) && t != s
    ensures |t| > |s|
  {
    assert t[..|t|] == t;
  }

  /** An id read from an unterminated line stays if nothing follows, or a newline. */
  lemma UnterminatedIdStays(message: string, more: string)
    requires GetSessionId(message).Some? && !LineEnded(message)
    requires more == "" || more[0] == '\n'
    ensures GetSessionId(message + more) == GetSessionId(message)
  {
    hide Split;
    hide Contains;
    var a, b := Split(message), Split(message + more);
    SplitAppend(message, more);
    var i := FindUserStr(a);
    assert i == |a| - 1;
    GrowsKeeps(a, b);
    FindIs(b, i);
  }

  /** The id read from the first bytes is that of the whole stream if and only if its
      line had ended, or nothing or a newline follows. */
  lemma IdOfWholeExactly(message: string, more: string)
    requires GetSessionId(message).Some?
    ensures GetSessionId(message + more) == GetSessionId(message)
            <==> LineEnded(message) || more == "" || more[0] == '\n'
  {
    hide GetSessionId;
    hide LineEnded;
    if LineEnded(message) {
      TerminatedIdStable(message, more);
    } else if more == "" || more[0] == '\n' {
      UnterminatedIdStays(message, more);
    } else {
      UnterminatedIdChanges(message, more);
    }
  }

  /** The id found does not depend on bytes still to come if and only if its line is
      newline-terminated. */
  lemma IdStableExactly(message: string)
    requires GetSessionId(message).Some?
    ensures LineEnded(message) <==> forall more :: GetSessionId(message + more) == GetSessionId(message)
  {
    hide GetSessionId;
    hide LineEnded;
    if LineEnded(message) {
      forall more ensures GetSessionId(message + more) == GetSessionId(message) {
        TerminatedIdStable(message, more);
      }
    } else {
      UnterminatedIdChanges(message, "x");
    }
  }

  /** The id is what follows the first nine bytes of the first line with `UserStr: ` in
      it, wherever in the line that is. */
  lemma IdOfFirstLine(before: seq<string>, line: string, after: string)
    requires AllOneLine(before) && forall j :: 0 <= j < |before| ==> !Contains(before[j], "UserStr: ")
    requires OneLine(line) && Contains(line, "UserStr: ") && OneLine(after)
    ensures var message := Join(before + [line] + [after]);
            |line| >= 9 && GetSessionId(message) == Some(line[9..]) && LineEnded(message)
  {
    hide Contains;
    hide Split;
    hide Join;
    hide OneLine;
    hide FindUserStr;
    assert USER_STR == "UserStr: " && |USER_STR| == 9;
    var lines := before + [line] + [after];
    ContainsLength(line, USER_STR);
    assert lines[|before|] == line;
    forall j | 0 <= j < |lines| ensures OneLine(lines[j]) && (j < |before| ==> !Contains(lines[j], USER_STR)) {
      assert j < |before| ==> lines[j] == before[j];
    }
    SplitJoin(lines);
    FindIs(lines, |before|);
  }

  /** The id of a message whose first UserStr line has the documented form. */
  lemma IdOfUserStrLine(before: seq<string>, id: string, after: string)
    requires AllOneLine(before) && forall j :: 0 <= j < |before| ==> !Contains(before[j], "UserStr: ")
    requires OneLine(id) && OneLine(after)
    ensures var message := Join(before + ["UserStr: " + id] + [after]);
            GetSessionId(message) == Some(id) && LineEnded(message)
  {
    hide Contains;
    hide Join;
    hide GetSessionId;
    hide LineEnded;
    hide OneLine;
    UserStrLine(id);
    IdOfFirstLine(before, "UserStr: " + id, after);
    AfterPrefix("UserStr: ", id);
  }

  /** A text names no session if and only if none of its lines contains `UserStr: `. */
  lemma NoIdExactly(message: string)
    ensures GetSessionId(message) == None
            <==> forall i :: 0 <= i < |Split(message)| ==> !Contains(Split(message)[i], "UserStr: ")
  {
    hide Contains;
    hide Split;
    assert USER_STR == "UserStr: ";
    var i := FindUserStr(Split(message));
    if i < |Split(message)| {
      assert Contains(Split(message)[i], USER_STR);
    }
  }

  lemma AfterPrefix(p: string, s: string)
    ensures (p + s)[|p|..] == s
  {
  }

  lemma UserStrLine(id: string)
    requires OneLine(id)
    ensures Contains(USER_STR + id, USER_STR) && OneLine(USER_STR + id)
  {
    var line := USER_STR + id;
    assert line[0..] == line && line[..|USER_STR|] == USER_STR;
    assert HasPrefix(line[0..], USER_STR);
  }

  // ---------- The connection ----------

  /** What the socket does next: deliver bytes, report that the remote host closed the
      connection, time out, or fail. */
  datatype Packet = Bytes(data: string) | Closed | Timeout | Fault

  datatype SocketError = NoError | EndOfFile | TimedOut | Broken

  /** All bytes of a script. */
  function Stream(script: seq<Packet>): string {
    if script == [] then ""
    else (if script[0].Bytes? then script[0].data else "") + Stream(script[1..])
  }

  /** The next packet holds bytes, and at most `room` of them. */
  predicate Fits(script: seq<Packet>, room: int) {
    script != [] && script[0].Bytes? && |script[0].data| <= room
  }

  class Socket {
    var script: seq<Packet>
    var open: bool
    ghost var readCount: nat         // how often Read was called
    ghost var last: SocketError      // what the last Read returned
    ghost var lastBytes: nat         // how many bytes it delivered

    constructor (script: seq<Packet>)
      ensures this.script == script && open && readCount == 0 && last == NoError
    {
      this.script, open, readCount, last, lastBytes := script, true, 0, NoError, 0;
    }

    /** The remote host closed the connection, or it failed. */
    ghost predicate Lost()
      reads this
    {
      last == EndOfFile || last == Broken
    }

    /** Read(buff[from:]): as many of the delivered bytes as fit; the rest stays. */
    method Read(buff: array<char>, from: nat) returns (n: nat, err: SocketError)
      requires from <= buff.Length
      modifies this`script, this`readCount, this`last, this`lastBytes, buff
      ensures readCount == old(readCount) + 1 && last == err && lastBytes == n
      ensures from + n <= buff.Length && |buff[..]| == buff.Length
      ensures buff[..from] == old(buff[..from])
      ensures buff[from..from + n] + Stream(script) == Stream(old(script))
      ensures err != NoError ==> n == 0
      ensures Fits(old(script), buff.Length - from) ==>
                err == NoError && n == |old(script)[0].data| && buff[from..from + n] == old(script)[0].data
    {
      n, err := 0, NoError;
      hide Stream;
      readCount, last, lastBytes := readCount + 1, NoError, 0;
      Skip(script, buff[from..from]);
      if script == [] {
        err := TimedOut;
        last := err;
        return;
      }
      var p := script[0];
      match p
      case Closed =>
        err := EndOfFile;
        last := err;
        script := script[1..];
      case Timeout =>
        err := TimedOut;
        last := err;
        script := script[1..];
      case Fault =>
        err := Broken;
        last := err;
        script := script[1..];
      case Bytes(data) =>
        n := if |data| <= buff.Length - from then |data| else buff.Length - from;
        CopyInto(buff, from, data[..n]);
        PutBack(script, n);
        lastBytes := n;
        script := if n == |data| then script[1..] else [Bytes(data[n..])] + script[1..];
    }
  }

  /** A packet without bytes. */
  lemma Skip(script: seq<Packet>, nothing: string)
    requires nothing == ""
    ensures nothing + Stream(script) == Stream(script)
    ensures script != [] && !script[0].Bytes? ==> nothing + Stream(script[1..]) == Stream(script)
  {
  }

  /** copy(buff[from:], data) */
  method CopyInto(buff: array<char>, from: nat, data: string)
    requires from + |data| <= buff.Length
    modifies buff
    ensures buff[..from] == old(buff[..from]) && buff[from..from + |data|] == data
  {
    ghost var before := buff[..from];
    for i := 0 to |data|
      invariant forall k :: 0 <= k < from ==> buff[k] == before[k]
      invariant forall k :: 0 <= k < i ==> buff[from + k] == data[k]
    {
      buff[from + i] := data[i];
    }
  }

  lemma PutBack(script: seq<Packet>, n: nat)
    requires script != [] && script[0].Bytes? && n <= |script[0].data|
    ensures var data := script[0].data;
            data[..n] + Stream(if n == |data| then script[1..] else [Bytes(data[n..])] + script[1..]) == Stream(script)
  {
    var data, rest := script[0].data, script[1..];
    assert data == data[..n] + data[n..];
    if n < |data| {
      assert ([Bytes(data[n..])] + rest)[1..] == rest;
      Assoc(data[..n], data[n..], Stream(rest));
    }
  }

  const BUFFER_SIZE := 2048

  /** The handshake loop of handleNewManagementConn: it reads into a fixed buffer until
      the text read so far names a session, and gives up only when the connection is
      lost or the manager terminates.  `patience` bounds how often the terminate
      channel is found open; a full buffer without an id makes it spin until then. */
  method Handshake(socket: Socket, patience: nat) returns (message: string, id: Option<string>)
    modifies socket
    ensures id == GetSessionId(message) && |message| <= 2048
    ensures message + Stream(socket.script) == Stream(old(socket.script))
    ensures socket.open == (id.Some? && old(socket.open))
    ensures old(socket.readCount) <= socket.readCount <= old(socket.readCount) + patience
    ensures id.Some? ==> socket.lastBytes <= |message| && GetSessionId(message[..|message| - socket.lastBytes]).None?
    ensures id.None? ==> socket.Lost() || socket.readCount == old(socket.readCount) + patience
    ensures patience > 0 && Fits(old(socket.script), 2048) && GetSessionId(old(socket.script)[0].data).Some? ==>
              message == old(socket.script)[0].data
  {
    hide GetSessionId;
    hide Stream;
    NoIdYet();
    var buff := new char[BUFFER_SIZE];
    var bytesReadSoFar, polls := 0, patience;
    message, id := "", None;
    Skip(socket.script, "");
    while polls > 0
      invariant 0 <= polls <= patience
      invariant 0 <= bytesReadSoFar <= buff.Length == BUFFER_SIZE && fresh(buff)
      invariant socket.open == old(socket.open) && socket.readCount == old(socket.readCount) + patience - polls
      invariant message == buff[..bytesReadSoFar] && id == GetSessionId(message) == None
      invariant message + Stream(socket.script) == Stream(old(socket.script))
      invariant polls == patience ==> socket.script == old(socket.script) && bytesReadSoFar == 0
      invariant polls < patience && Fits(old(socket.script), 2048) ==> GetSessionId(old(socket.script)[0].data).None?
      decreases polls
    {
      polls := polls - 1;
      ghost var soFar := message;
      var n, err := ReadOn(socket, buff, bytesReadSoFar, message);
      bytesReadSoFar := bytesReadSoFar + n;
      message := buff[..bytesReadSoFar];
      if err == EndOfFile || err == Broken {
        socket.open := false;
        return;
      }
      id := GetSessionId(message);
      if id.Some? {
        return;
      }
    }
    socket.open := false;
  }

  /** One read behind the bytes read so far. */
  method ReadOn(socket: Socket, buff: array<char>, from: nat, ghost soFar: string) returns (n: nat, err: SocketError)
    requires from <= buff.Length && soFar == buff[..from]
    modifies socket`script, socket`readCount, socket`last, socket`lastBytes, buff
    ensures socket.readCount == old(socket.readCount) + 1 && socket.last == err && socket.lastBytes == n
    ensures from + n <= buff.Length && (err != NoError ==> n == 0 && buff[..from + n] == soFar)
    ensures Fits(old(socket.script), buff.Length - from) ==>
              err == NoError && buff[..from + n] == soFar + old(socket.script)[0].data
    ensures buff[..from + n][..from] == soFar
    ensures buff[..from + n] + Stream(socket.script) == soFar + Stream(old(socket.script))
  {
    hide Stream;
    n, err := socket.Read(buff, from);
    assert buff[..from + n] == soFar + buff[from..from + n];
    Assoc(soFar, buff[from..from + n], Stream(socket.script));
  }

  lemma NoIdYet()
    ensures GetSessionId("") == None
  {
    assert forall i :: 0 <= i <= 0 ==> !HasPrefix(""[i..], USER_STR);
  }

  /** listenForManagementMessages: every read goes to the session as one blob; errors
      of the session are ignored, timeouts and faults retried, and the loop ends when
      the remote host closes the connection. */
  method Listen(socket: Socket, st: Session, patience: nat) returns (r: Session, fed: seq<string>)
    modifies socket
    ensures r == ReceiveAll(st, fed)
    ensures Concat(fed) + Stream(socket.script) == Stream(old(socket.script))
    ensures !socket.open
    ensures socket.last == EndOfFile || socket.readCount == old(socket.readCount) + patience
  {
    hide Receive;
    hide ReceiveAll;
    hide Concat;
    hide Stream;
    FeedNothing(st, Stream(socket.script));
    var buff := new char[BUFFER_SIZE];
    var polls := patience;
    r, fed := st, [];
    while polls > 0
      invariant fresh(buff) && buff.Length == BUFFER_SIZE
      invariant r == ReceiveAll(st, fed)
      invariant Concat(fed) + Stream(socket.script) == Stream(old(socket.script))
      invariant socket.readCount == old(socket.readCount) + patience - polls
      decreases polls
    {
      polls := polls - 1;
      var n, err := socket.Read(buff, 0);
      assert buff[0..n] == buff[..n];
      if err == EndOfFile {
        break;
      }
      if err == NoError {
        FeedOne(st, fed, buff[..n]);
        Assoc(Concat(fed), buff[..n], Stream(socket.script));
        r := Receive(r, buff[..n]);
        fed := fed + [buff[..n]];
      }
    }
    socket.open := false;
  }

  lemma FeedNothing(st: Session, stream: string)
    ensures ReceiveAll(st, []) == st && Concat([]) + stream == stream
  {
  }

  lemma {:induction false} FeedOne(st: Session, fed: seq<string>, blob: string)
    ensures ReceiveAll(st, fed + [blob]) == Receive(ReceiveAll(st, fed), blob)
    ensures Concat(fed + [blob]) == Concat(fed) + blob
    decreases |fed|
  {
    hide Receive;
    if fed == [] {
      assert [] + [blob] == [blob] && [blob][1..] == [];
    } else {
      FeedOne(Receive(st, fed[0]), fed[1..], blob);
      assert (fed + [blob])[1..] == fed[1..] + [blob];
      Assoc(fed[0], Concat(fed[1..]), blob);
    }
  }

  // ---------- Handing over ----------

  /** No message that is processed now is one that needs the stream worker, which
      exists only once the connection is set: a SESSION of a stream session. */
  predicate WorkerNotNeeded(st: Session)
    decreases |st.buffer|
  {
    var i := IndexBlank(st.buffer);
    i == -1 ||
    var msg := st.buffer[..i];
    && Runs.Verdict(st.stream, st.started, msg) == Runs.Verdict(st.stream, true, msg)
    && (Runs.Verdict(st.stream, st.started, msg) == Accepted ==>
          WorkerNotNeeded(Process(st.(buffer := st.buffer[i + 2..]), msg)))
  }

  lemma SameStep(c: Core, stream: bool, msg: string, started: bool)
    requires Runs.Verdict(stream, started, msg) == Runs.Verdict(stream, true, msg)
    ensures StepCore(c, stream, true, msg) == StepCore(c, stream, started, msg)
  {
    hide FoldLines;
    hide LinesOf;
    hide Deliver;
    hide MergeFiles;
    hide Snapshot;
    hide IsNewFile;
    hide Runs.MessageFold;
    Runs.DraftView(c, msg);
  }

  /** The first message of the buffer, with and without the connection set. */
  lemma FirstStep(st: Session, rest: string, msg: string)
    ensures var a, b := Process(st.(buffer := rest), msg), Process(Connect(st).(buffer := rest), msg);
            && LastAccepted(a) == (Runs.Verdict(st.stream, st.started, msg) == Accepted)
            && (Runs.Verdict(st.stream, st.started, msg) == Runs.Verdict(st.stream, true, msg) ==> b == Connect(a))
            && (Runs.Verdict(st.stream, st.started, msg) != Runs.Verdict(st.stream, true, msg) ==>
                  a.outcomes != b.outcomes && |a.outcomes| == |b.outcomes|)
  {
    hide StepCore;
    hide Runs.Verdict;
    Runs.OutcomeIsVerdict(st.core, st.stream, st.started, msg);
    Runs.OutcomeIsVerdict(st.core, st.stream, true, msg);
    if Runs.Verdict(st.stream, st.started, msg) == Runs.Verdict(st.stream, true, msg) {
      SameStep(st.core, st.stream, msg, st.started);
    } else {
      var n := |st.outcomes|;
      assert Process(st.(buffer := rest), msg).outcomes[n] != Process(Connect(st).(buffer := rest), msg).outcomes[n];
    }
  }

  lemma DrainOutcomes(st: Session)
    ensures st.outcomes <= Drain(st).outcomes
  {
    hide Drain;
    hide Run;
    hide Messages;
    Framing.DrainConsumes(st);
    Framing.RunLogs(st, Messages(st.buffer)[..Framing.Count(st, Drain(st))]);
  }

  lemma DifferentOutcomes(a: Session, b: Session, r: seq<Outcome>, s: seq<Outcome>)
    requires a.outcomes != b.outcomes && |a.outcomes| == |b.outcomes|
    requires a.outcomes <= r && b.outcomes <= s
    ensures r != s
  {
  }

  /** If the first message needs the worker, its outcome tells the two orders apart. */
  lemma WorkerNeeded(st: Session, rest: string, msg: string)
    requires IndexBlank(st.buffer) != -1
    requires msg == st.buffer[..IndexBlank(st.buffer)] && rest == st.buffer[IndexBlank(st.buffer) + 2..]
    requires Runs.Verdict(st.stream, st.started, msg) != Runs.Verdict(st.stream, true, msg)
    ensures Drain(Connect(st)) != Connect(Drain(st))
  {
    hide Process;
    hide IndexBlank;
    hide Runs.Verdict;
    var a, b := Process(st.(buffer := rest), msg), Process(Connect(st).(buffer := rest), msg);
    FirstStep(st, rest, msg);
    DrainOutcomes(a);
    DrainOutcomes(b);
    DifferentOutcomes(a, b, Drain(st).outcomes, Drain(Connect(st)).outcomes);
  }

  /** Setting the connection before or after processing what is buffered leaves the
      same session if and only if no message in it needs the worker. */
  lemma {:induction false} DrainConnectExactly(st: Session)
    ensures Drain(Connect(st)) == Connect(Drain(st)) <==> WorkerNotNeeded(st)
    decreases |st.buffer|
  {
    hide Process;
    hide IndexBlank;
    hide Runs.Verdict;
    var i := IndexBlank(st.buffer);
    if i != -1 {
      var rest, msg := st.buffer[i + 2..], st.buffer[..i];
      var a := Process(st.(buffer := rest), msg);
      FirstStep(st, rest, msg);
      if Runs.Verdict(st.stream, st.started, msg) != Runs.Verdict(st.stream, true, msg) {
        WorkerNeeded(st, rest, msg);
      } else if LastAccepted(a) {
        DrainConnectExactly(a);
      }
    }
  }

  predicate SafeBeforeConnect(st: Session, blob: string) {
    WorkerNotNeeded(st.(buffer := st.buffer + blob))
  }

  /** The whole life of a connection: the blob of the handshake, setManagementConn,
      then the blobs of the listener.  The session is as if it had had its connection
      from the start, and if no message but possibly the last errs, as if it had
      received all bytes of the connection in one piece. */
  lemma HandoffIsOneStream(st: Session, first: string, fed: seq<string>)
    requires SafeBeforeConnect(st, first)
    ensures ReceiveAll(Connect(Receive(st, first)), fed) == ReceiveAll(Connect(st), [first] + fed)
    ensures IndexBlank(st.buffer) == -1
            && Framing.AllButLast(Connect(st), Messages(st.buffer + (first + Concat(fed)))) ==>
              ReceiveAll(Connect(Receive(st, first)), fed) == Receive(Connect(st), first + Concat(fed))
  {
    hide Framing.AllButLast;
    hide Drain;
    hide WorkerNotNeeded;
    hide Messages;
    hide IndexBlank;
    var blobs := [first] + fed;
    assert blobs[1..] == fed && Concat(blobs) == first + Concat(fed);
    DrainConnectExactly(st.(buffer := st.buffer + first));
    if IndexBlank(st.buffer) == -1 && Framing.AllButLast(Connect(st), Messages(st.buffer + (first + Concat(fed)))) {
      Framing.FragmentationInvariance(Connect(st), blobs);
    }
  }

  /** handleNewManagementConn and the listener it starts.  `remote` is the new session
      made when no session has the id.  Every byte of the connection read so far went to
      the session, in order, and reading goes on until the connection is lost or the
      manager terminates; a second connection for a session hands over its first
      bytes and is then refused. */
  method ServeConnection(socket: Socket, sessions: map<string, Session>, remote: Session, patience: nat)
    returns (id: Option<string>, first: string, fed: seq<string>, r: Session)
    modifies socket
    ensures id == GetSessionId(first)
    ensures first + Concat(fed) + Stream(socket.script) == Stream(old(socket.script))
    ensures id.None? ==>
              !socket.open && fed == [] && (socket.Lost() || socket.readCount == old(socket.readCount) + patience)
    ensures id.Some? ==> IdIsFinal(first, Concat(fed) + Stream(socket.script), Stream(old(socket.script)))
    ensures id.Some? && id.value in sessions && sessions[id.value].started ==>
              fed == [] && r == Receive(sessions[id.value], first) && socket.open == old(socket.open)
    ensures id.Some? && id.value in sessions && !sessions[id.value].started ==>
              && r == ReceiveAll(Connect(Receive(sessions[id.value], first)), fed)
              && Heard(sessions[id.value], first, fed, r)
              && !socket.open
              && (socket.last == EndOfFile || socket.readCount >= old(socket.readCount) + patience)
    ensures id.Some? && id.value !in sessions && remote.started ==>
              fed == [] && r == Receive(remote, first) && socket.open == old(socket.open)
    ensures id.Some? && id.value !in sessions && !remote.started ==>
              && r == ReceiveAll(Connect(Receive(remote, first)), fed)
              && Heard(remote, first, fed, r)
              && !socket.open
              && (socket.last == EndOfFile || socket.readCount >= old(socket.readCount) + patience)
  {
    hide GetSessionId;
    hide IdIsFinal;
    hide Heard;
    hide Receive;
    hide ReceiveAll;
    hide Stream;
    ghost var whole := Stream(socket.script);
    first, id := Handshake(socket, patience);
    fed, r := [], remote;
    assert first + Concat([]) == first && Concat([]) + Stream(socket.script) == Stream(socket.script);
    if id.None? {
      return;
    }
    FinalId(first, Stream(socket.script), whole);
    var st := remote;
    if id.value in sessions {
      st := sessions[id.value];
    }
    r := Receive(st, first);
    if st.started {
      return;
    }
    r, fed := Listen(socket, Connect(r), patience);
    Assoc(first, Concat(fed), Stream(socket.script));
    WholeHeard(st, first, fed);
  }

  /** What a session has received from a connection set after its first bytes: if they
      need no worker, all bytes as if it had been connected before, and in one
      piece if no message but possibly the last errs. */
  ghost predicate Heard(st: Session, first: string, fed: seq<string>, r: Session) {
    SafeBeforeConnect(st, first) ==>
      && r == ReceiveAll(Connect(st), [first] + fed)
      && (IndexBlank(st.buffer) == -1
          && Framing.AllButLast(Connect(st), Messages(st.buffer + (first + Concat(fed)))) ==>
            r == Receive(Connect(st), first + Concat(fed)))
  }

  lemma WholeHeard(st: Session, first: string, fed: seq<string>)
    ensures Heard(st, first, fed, ReceiveAll(Connect(Receive(st, first)), fed))
  {
    hide SafeBeforeConnect;
    hide Receive;
    hide ReceiveAll;
    hide Messages;
    hide IndexBlank;
    hide Framing.AllButLast;
    if SafeBeforeConnect(st, first) {
      HandoffIsOneStream(st, first, fed);
    }
  }

  /** The id of the first bytes is that of the whole connection if and only if its line
      had ended, or the bytes after them are none or begin with a newline. */
  predicate IdIsFinal(first: string, more: string, whole: string) {
    GetSessionId(whole) == GetSessionId(first) <==> LineEnded(first) || more == "" || more[0] == '\n'
  }

  lemma FinalId(first: string, more: string, whole: string)
    requires GetSessionId(first).Some? && whole == first + more
    ensures IdIsFinal(first, more, whole)
  {
    hide GetSessionId;
    hide LineEnded;
    IdOfWholeExactly(first, more);
  }
}
