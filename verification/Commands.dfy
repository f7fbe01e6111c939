/** The commands an API caller sends over the management connection, and what the
    log of sent commands looks like however they interleave with messages. */
module Commands {
  import opened Text
  import opened Management
  import opened Frames
  import opened Engine
  import Runs

  /** A call of addFileSource, setRate, cancel or lock.  `None` is an unrecognised policy. */
  datatype Command =
    | AddFileSource(source: string, dest: string, startByte: int, endByte: int)
    | SetRate(target: int, min: int, policy: Option<Policy>)
    | CancelTransfer
    | Lock

  datatype Refusal = NonPersistent | NotStarted | AlreadyLocked | AlreadyComplete | NotLockable | BadPolicy

  function ModeOf(p: Policy): RateMode {
    match p
    case FairPolicy | HighPolicy => Adaptive
    case FixedPolicy => Fixed
    case LowPolicy => Trickle
  }

  /** The checks of each call, in the order of the code. */
  function Check(st: Session, c: Command): Option<Refusal> {
    match c
    case AddFileSource(_, _, _, _) =>
      if !st.persistent then Some(NonPersistent)
      else if !st.started then Some(NotStarted)
      else if st.locked then Some(AlreadyLocked)
      else if st.core.latch.complete then Some(AlreadyComplete)
      else None
    case SetRate(_, _, policy) =>
      if !st.started then Some(NotStarted)
      else if st.locked then Some(AlreadyLocked)
      else if st.core.latch.complete then Some(AlreadyComplete)
      else if policy.None? then Some(BadPolicy)
      else None
    case CancelTransfer =>
      if !st.started then Some(NotStarted)
      else if st.core.latch.complete then Some(AlreadyComplete)
      else None
    case Lock =>
      if !st.persistent && !st.stream then Some(NotLockable)
      else if !st.started then Some(NotStarted)
      else if st.locked then Some(AlreadyLocked)
      else if st.core.latch.complete then Some(AlreadyComplete)
      else None
  }

  /** Exactly when a call is accepted: always after the start and before completion;
      sources, rates and locking need an unlocked session, cancelling does not; sources
      need a persistent session, locking a persistent or a stream one. */
  lemma CallAcceptedExactly(st: Session, c: Command)
    ensures Check(st, c) == None
            <==> st.started && !st.core.latch.complete
                 && (c.CancelTransfer? || !st.locked)
                 && (c.AddFileSource? ==> st.persistent)
                 && (c.Lock? ==> st.persistent || st.stream)
                 && (c.SetRate? ==> c.policy.Some?)
  {
  }

  function FrameOf(st: Session, c: Command): Frame
    requires Check(st, c).None?
  {
    match c
    case AddFileSource(source, dest, startByte, endByte) => Start(source, dest, startByte, endByte)
    case SetRate(target, min, policy) => Rate(target, min, ModeOf(policy.value))
    case CancelTransfer => if st.persistent then Done else Cancel
    case Lock => Linger
  }

  /** The session after a call.  Locking takes effect even if the write fails. */
  function Issue(st: Session, c: Command): Session {
    if Check(st, c).Some? then st
    else st.(locked := st.locked || c.Lock?, sent := st.sent + [FrameOf(st, c)])
  }

  /** An accepted call adds one frame and locks only if it is a Lock; a refused one
      changes nothing. */
  lemma IssueDoes(st: Session, c: Command)
    ensures Check(st, c).Some? ==> Issue(st, c) == st
    ensures Check(st, c).None? ==>
              var r := Issue(st, c);
              && |r.sent| == |st.sent| + 1 && r.sent[..|st.sent|] == st.sent
              && (r.locked <==> st.locked || c.Lock?)
              && r == st.(sent := r.sent, locked := r.locked)
  {
  }

  /** What a call returns. */
  datatype Result = Sent | RefusedCall(why: Refusal) | WriteFailed

  /** setManagementConn */
  function Connect(st: Session): Session {
    st.(started := true)
  }

  datatype Op = Blob(bytes: string) | Connected | Call(command: Command)

  function Do(st: Session, op: Op): Session {
    match op
    case Blob(bytes) => Receive(st, bytes)
    case Connected => Connect(st)
    case Call(c) => Issue(st, c)
  }

  function DoAll(st: Session, ops: seq<Op>): Session
    decreases |ops|
  {
    if ops == [] then st else DoAll(Do(st, ops[0]), ops[1..])
  }

  /** A run really makes its calls, delivers its bytes and sets the connection. */
  lemma DoDoes(st: Session, op: Op)
    ensures op.Call? && Check(st, op.command).None? ==> Do(st, op).sent == st.sent + [FrameOf(st, op.command)]
    ensures op.Call? && Check(st, op.command).Some? ==> Do(st, op) == st
    ensures op.Connected? ==> Do(st, op).started && Do(st, op).core == st.core
    ensures op.Blob? ==> Do(st, op) == Receive(st, op.bytes)
  {
    hide Receive;
  }

  /** Receiving bytes neither sends nor locks nor starts; the latch does not reopen. */
  lemma {:induction false} DrainKeeps(st: Session)
    ensures var r := Drain(st);
            && r.sent == st.sent && r.started == st.started && r.locked == st.locked
            && r.persistent == st.persistent && r.stream == st.stream
            && (st.core.latch.complete ==> r.core.latch.complete)
    decreases |st.buffer|
  {
    hide StepCore;
    var i := IndexBlank(st.buffer);
    if i != -1 {
      var input := st.(buffer := st.buffer[i + 2..]);
      var next := Process(input, st.buffer[..i]);
      if st.core.latch.complete {
        LatchKept(st.core, st.stream, st.started, st.buffer[..i]);
      }
      if LastAccepted(next) {
        DrainKeeps(next);
      }
    }
  }

  lemma LatchKept(c: Core, stream: bool, started: bool, msg: string)
    requires c.latch.complete
    ensures StepCore(c, stream, started, msg).0.latch.complete
  {
    hide StepCore;
    if StepCore(c, stream, started, msg).1 == Accepted {
      Runs.AcceptedView(c, stream, started, msg);
    } else {
      Runs.RefusedView(c, stream, started, msg);
    }
  }

  /** What one operation may do to the log: nothing before the start or after
      completion, and at most one frame otherwise. */
  lemma DoSends(st: Session, op: Op)
    ensures var r := Do(st, op);
            && st.sent <= r.sent && |r.sent| <= |st.sent| + 1
            && (r.sent != st.sent ==> st.started && !st.core.latch.complete)
            && (st.started ==> r.started)
            && (st.core.latch.complete ==> r.core.latch.complete)
            && (st.locked ==> r.locked)
  {
    hide Drain;
    match op
    case Blob(bytes) => DrainKeeps(st.(buffer := st.buffer + bytes));
    case Connected =>
    case Call(_) =>
  }

  lemma {:induction false} DoAllGrows(st: Session, ops: seq<Op>)
    ensures var r := DoAll(st, ops);
            && st.sent <= r.sent
            && (st.started ==> r.started)
            && (st.core.latch.complete ==> r.core.latch.complete && r.sent == st.sent)
    decreases |ops|
  {
    hide Do;
    if ops != [] {
      DoSends(st, ops[0]);
      DoAllGrows(Do(st, ops[0]), ops[1..]);
    }
  }

  /** A run makes its operations one after the other. */
  lemma {:induction false} DoAllInOrder(st: Session, ops: seq<Op>, op: Op)
    ensures DoAll(st, []) == st
    ensures DoAll(st, ops + [op]) == Do(DoAll(st, ops), op)
    decreases |ops|
  {
    hide Do;
    if ops == [] {
      assert [] + [op] == [op] && [op][1..] == [];
    } else {
      assert (ops + [op])[0] == ops[0] && (ops + [op])[1..] == ops[1..] + [op];
      DoAllInOrder(Do(st, ops[0]), ops[1..], op);
    }
  }

  /** Sources and rates: what a locked session no longer sends. */
  predicate NeedsUnlocked(f: Frame) {
    f.Start? || f.Rate? || f.Linger?
  }

  /** Once a Linger frame is in the log, no START, RATE or second Linger frame follows. */
  predicate LingerLast(sent: seq<Frame>) {
    forall i, j :: 0 <= i < j < |sent| && sent[i].Linger? ==> !NeedsUnlocked(sent[j])
  }

  /** Sources and the closing DONE go to persistent sessions only, CANCEL to others,
      and Linger to sessions that can be locked. */
  predicate FitsSession(st: Session, f: Frame) {
    && !f.IsStream()
    && (f.Start? || f.Done? ==> st.persistent)
    && (f.Cancel? ==> !st.persistent)
    && (f.Linger? ==> st.persistent || st.stream)
  }

  predicate AllFit(st: Session) {
    forall i :: 0 <= i < |st.sent| ==> FitsSession(st, st.sent[i])
  }

  predicate LogInv(st: Session) {
    && (!st.started ==> st.sent == [])
    && AllFit(st)
    && (st.locked <==> exists i :: 0 <= i < |st.sent| && st.sent[i].Linger?)
    && LingerLast(st.sent)
  }

  lemma LogStep(st: Session, op: Op)
    requires LogInv(st)
    ensures LogInv(Do(st, op))
  {
    hide Drain;
    match op
    case Blob(bytes) => DrainKeeps(st.(buffer := st.buffer + bytes));
    case Connected =>
    case Call(c) =>
      if Check(st, c).None? {
        var r := Issue(st, c);
        assert forall i :: 0 <= i < |st.sent| ==> r.sent[i] == st.sent[i];
        assert r.sent[|st.sent|] == FrameOf(st, c);
      }
  }

  lemma {:induction false} LogRun(st: Session, ops: seq<Op>)
    requires LogInv(st)
    ensures LogInv(DoAll(st, ops))
    decreases |ops|
  {
    hide Do;
    hide LogInv;
    if ops != [] {
      LogStep(st, ops[0]);
      LogRun(Do(st, ops[0]), ops[1..]);
    }
  }

  /** The command log over every interleaving of API calls, messages and the
      connection: nothing is sent before the session has started, nothing is added
      after it is complete, at most one Linger frame is sent, with no START or RATE
      frame after it, and every frame fits the kind of the session. */
  lemma CommandLog(st: Session, before: seq<Op>, after: seq<Op>)
    requires Fresh(st)
    ensures var mid, end := DoAll(st, before), DoAll(DoAll(st, before), after);
            && mid.sent <= end.sent
            && (!mid.started ==> mid.sent == [])
            && (mid.core.latch.complete ==> end.sent == mid.sent)
            && LingerLast(end.sent)
            && AllFit(end)
  {
    hide DoAll;
    LogRun(st, before);
    LogRun(DoAll(st, before), after);
    DoAllGrows(DoAll(st, before), after);
  }

  /** What the peer reads from an accepted call, whatever bytes follow. */
  lemma PeerReadsCall(st: Session, c: Command, rest: string)
    requires Check(st, c).None? && FrameOf(st, c).Valid()
    ensures Frames.Decode(Encode(FrameOf(st, c)) + rest).Some?
    ensures var (f, tail) := Frames.Decode(Encode(FrameOf(st, c)) + rest).value;
            && tail == rest
            && match c
               case AddFileSource(source, dest, startByte, endByte) => f == Start(source, dest, startByte, endByte)
               case SetRate(target, min, policy) =>
                 f.Rate? && f.target == target && f.min == min
                 && PolicyOf(ModeText(f.mode)) == Some(if policy == Some(HighPolicy) then FairPolicy else policy.value)
               case CancelTransfer => f == (if st.persistent then Done else Cancel)
               case Lock => f == Linger
  {
    hide Frames.Decode;
    hide Encode;
    hide PolicyOf;
    hide ModeText;
    DecodeEncode(FrameOf(st, c), rest);
    if c.SetRate? {
      PolicyReadBack(c.policy.value);
    }
  }

  /** A policy sent in a RATE frame and reported back under Adaptive is the same
      policy, except that the high policy is sent as the fair one. */
  lemma PolicyReadBack(p: Policy)
    ensures PolicyOf(ModeText(ModeOf(p))) == Some(if p == HighPolicy then FairPolicy else p)
  {
  }
}
