/** The bounded job queue of the stream worker as a step machine: goroutines that
    enqueue, the channel of 32 jobs, and the workers that drain it. */
module JobQueue {
  import opened Text
  import opened Frames

  const CAPACITY := 32

  datatype Job = Job(id: nat, dest: string)

  /** An attempt to send a stream frame. */
  datatype Entry = Entry(frame: Frame, ok: bool)

  /** A finished job and the frames it sent. */
  datatype Block = Block(job: Job, entries: seq<Entry>)

  datatype Worker =
    | Waiting
    | Opening(job: Job)
    | Streaming(job: Job, sent: seq<Entry>)
    | Closing(job: Job, sent: seq<Entry>)
    | Gone

  datatype Machine = Machine(
    enqueued: multiset<Job>,     // every job ever passed to enqueue
    pending: multiset<Job>,      // goroutines blocked on the channel
    pushed: seq<Job>,            // jobs in the order the channel took them
    queue: seq<Job>,             // the channel
    workers: seq<Worker>,        // one per SESSION message
    finished: seq<Block>,
    dropped: multiset<Job>,      // given up after the session ended
    wire: seq<Entry>,            // stream frames in the order they were sent
    closed: bool)                // terminate or complete is closed

  datatype Action =
    | SessionMessage                                        // start(): another worker
    | Enqueue(job: Job)
    | Push(job: Job)
    | GiveUp(job: Job)
    | EndSession
    | Pop(k: nat)
    | SendPut(k: nat, ok: bool)
    | SendWrite(k: nat, offset: int, payload: string, ok: bool)
    | EndOfSource(k: nat)
    | SendClose(k: nat, ok: bool)

  predicate Enabled(m: Machine, a: Action) {
    match a
    case SessionMessage | Enqueue(_) | EndSession => true
    case Push(job) => job in m.pending && |m.queue| < CAPACITY
    case GiveUp(job) => job in m.pending && m.closed
    case Pop(k) => k < |m.workers| && m.workers[k].Waiting? && m.queue != []
    case SendPut(k, _) => k < |m.workers| && m.workers[k].Opening?
    case SendWrite(k, _, _, _) => k < |m.workers| && m.workers[k].Streaming?
    case EndOfSource(k) => k < |m.workers| && m.workers[k].Streaming?
    case SendClose(k, _) => k < |m.workers| && m.workers[k].Closing?
  }

  function After(m: Machine, a: Action): Machine
    requires Enabled(m, a)
  {
    match a
    case SessionMessage => m.(workers := m.workers + [Waiting])
    case Enqueue(job) => m.(enqueued := m.enqueued + multiset{job}, pending := m.pending + multiset{job})
    case Push(job) =>
      m.(pending := m.pending - multiset{job}, pushed := m.pushed + [job], queue := m.queue + [job])
    case GiveUp(job) => m.(pending := m.pending - multiset{job}, dropped := m.dropped + multiset{job})
    case EndSession => m.(closed := true)
    case Pop(k) =>
      var job, rest := m.queue[0], m.queue[1..];
      if m.closed
      then m.(queue := rest, workers := m.workers[k := Gone], dropped := m.dropped + multiset{job})
      else m.(queue := rest, workers := m.workers[k := Opening(job)])
    case SendPut(k, ok) =>
      var job := m.workers[k].job;
      var e := Entry(Put(job.dest), ok);
      if ok then m.(wire := m.wire + [e], workers := m.workers[k := Streaming(job, [e])])
      else m.(wire := m.wire + [e], workers := m.workers[k := Waiting], finished := m.finished + [Block(job, [e])])
    case SendWrite(k, offset, payload, ok) =>
      var w := m.workers[k];
      var e := Entry(Write(w.job.dest, offset, payload), ok);
      m.(wire := m.wire + [e],
         workers := m.workers[k := if ok then Streaming(w.job, w.sent + [e]) else Closing(w.job, w.sent + [e])])
    case EndOfSource(k) => m.(workers := m.workers[k := Closing(m.workers[k].job, m.workers[k].sent)])
    case SendClose(k, ok) =>
      var w := m.workers[k];
      var e := Entry(Close(w.job.dest), ok);
      m.(wire := m.wire + [e], workers := m.workers[k := Waiting],
         finished := m.finished + [Block(w.job, w.sent + [e])])
  }

  function Execute(m: Machine, schedule: seq<Action>): Option<Machine>
    decreases |schedule|
  {
    if schedule == [] then Some(m)
    else if !Enabled(m, schedule[0]) then None
    else Execute(After(m, schedule[0]), schedule[1..])
  }

  const START := Machine(multiset{}, multiset{}, [], [], [], [], multiset{}, [], false)

  // ---------- Conservation of jobs ----------

  predicate IsOn(w: Worker, job: Job) {
    (w.Opening? || w.Streaming? || w.Closing?) && w.job == job
  }

  /** How many workers are on a job, and how often it was finished. */
  function RunningOf(ws: seq<Worker>, job: Job): nat {
    if ws == [] then 0 else RunningOf(ws[..|ws| - 1], job) + (if IsOn(ws[|ws| - 1], job) then 1 else 0)
  }

  function FinishedOf(bs: seq<Block>, job: Job): nat {
    if bs == [] then 0 else FinishedOf(bs[..|bs| - 1], job) + (if bs[|bs| - 1].job == job then 1 else 0)
  }

  predicate Balanced(m: Machine, job: Job) {
    m.enqueued[job] ==
      m.pending[job] + multiset(m.queue)[job] + RunningOf(m.workers, job) + FinishedOf(m.finished, job) + m.dropped[job]
  }

  ghost predicate Conserved(m: Machine) {
    && (forall job :: Balanced(m, job))
    && |m.queue| <= CAPACITY
    && (!m.closed ==> m.dropped == multiset{})
  }

  lemma {:induction false} RunningUpdate(ws: seq<Worker>, k: nat, w: Worker, job: Job)
    requires k < |ws|
    ensures RunningOf(ws[k := w], job) + (if IsOn(ws[k], job) then 1 else 0)
         == RunningOf(ws, job) + (if IsOn(w, job) then 1 else 0)
    decreases |ws|
  {
    hide IsOn;
    var n := |ws| - 1;
    if k == n {
      assert ws[k := w][..n] == ws[..n];
    } else {
      assert ws[k := w][..n] == ws[..n][k := w];
      RunningUpdate(ws[..n], k, w, job);
    }
  }

  lemma RunningSnoc(ws: seq<Worker>, w: Worker, job: Job)
    ensures RunningOf(ws + [w], job) == RunningOf(ws, job) + (if IsOn(w, job) then 1 else 0)
  {
    assert (ws + [w])[..|ws|] == ws;
  }

  lemma FinishedOfSnoc(bs: seq<Block>, b: Block, job: Job)
    ensures FinishedOf(bs + [b], job) == FinishedOf(bs, job) + (if b.job == job then 1 else 0)
  {
    assert (bs + [b])[..|bs|] == bs;
  }

  lemma QueueCounts(q: seq<Job>, x: Job, job: Job)
    ensures multiset(q + [x])[job] == multiset(q)[job] + (if x == job then 1 else 0)
    ensures q != [] ==> multiset(q)[job] == multiset(q[1..])[job] + (if q[0] == job then 1 else 0)
  {
    if q != [] {
      assert q == [q[0]] + q[1..];
    }
  }

  lemma BagCounts(bag: multiset<Job>, x: Job, job: Job)
    ensures (bag + multiset{x})[job] == bag[job] + (if x == job then 1 else 0)
    ensures x in bag ==> (bag - multiset{x})[job] == bag[job] - (if x == job then 1 else 0)
  {
  }

  predicate OnQueue(a: Action) {
    a.SessionMessage? || a.Enqueue? || a.Push? || a.GiveUp? || a.EndSession?
  }

  lemma BalancedPush(m: Machine, x: Job, job: Job)
    requires Balanced(m, job) && Enabled(m, Push(x))
    ensures Balanced(After(m, Push(x)), job)
  {
    hide RunningOf;
    hide FinishedOf;
    QueueCounts(m.queue, x, job);
    BagCounts(m.pending, x, job);
  }

  lemma BalancedQueue(m: Machine, a: Action, job: Job)
    requires Balanced(m, job) && Enabled(m, a) && OnQueue(a)
    ensures Balanced(After(m, a), job)
  {
    hide RunningOf;
    hide FinishedOf;
    if a.Push? {
      BalancedPush(m, a.job, job);
    } else if a.Enqueue? {
      BagCounts(m.enqueued, a.job, job);
      BagCounts(m.pending, a.job, job);
    } else if a.GiveUp? {
      BagCounts(m.pending, a.job, job);
      BagCounts(m.dropped, a.job, job);
    } else if a.SessionMessage? {
      RunningSnoc(m.workers, Waiting, job);
    }
  }

  lemma BalancedWorker(m: Machine, a: Action, job: Job)
    requires Balanced(m, job) && Enabled(m, a) && !OnQueue(a)
    ensures Balanced(After(m, a), job)
  {
    hide RunningOf;
    hide FinishedOf;
    var k, r := a.k, After(m, a);
    RunningUpdate(m.workers, k, r.workers[k], job);
    match a
    case Pop(_) =>
      QueueCounts(m.queue, m.queue[0], job);
      BagCounts(m.dropped, m.queue[0], job);
    case SendPut(_, ok) =>
      if !ok {
        FinishedOfSnoc(m.finished, r.finished[|m.finished|], job);
      }
    case SendClose(_, _) => FinishedOfSnoc(m.finished, r.finished[|m.finished|], job);
    case _ =>
  }

  lemma BoundsStep(m: Machine, a: Action)
    requires |m.queue| <= CAPACITY && (!m.closed ==> m.dropped == multiset{}) && Enabled(m, a)
    ensures var r := After(m, a); |r.queue| <= CAPACITY && (!r.closed ==> r.dropped == multiset{})
  {
  }

  lemma {:induction false} ConservedExecute(m: Machine, schedule: seq<Action>)
    requires Conserved(m) && Execute(m, schedule).Some?
    ensures Conserved(Execute(m, schedule).value)
    decreases |schedule|
  {
    hide After;
    hide Balanced;
    hide OnQueue;
    if schedule != [] {
      var a := schedule[0];
      BoundsStep(m, a);
      forall job ensures Balanced(After(m, a), job) {
        if OnQueue(a) {
          BalancedQueue(m, a, job);
        } else {
          BalancedWorker(m, a, job);
        }
      }
      ConservedExecute(After(m, a), schedule[1..]);
    }
  }

  /** For every schedule and any number of workers: every enqueued job, as often as
      it was enqueued, is waiting to be pushed, in the queue, running, finished, or,
      once the session has ended, dropped; the queue never holds more than 32. */
  lemma JobConservation(schedule: seq<Action>)
    requires Execute(START, schedule).Some?
    ensures var m := Execute(START, schedule).value;
            && (forall job :: m.enqueued[job] == m.pending[job] + multiset(m.queue)[job] + RunningOf(m.workers, job)
                                                 + FinishedOf(m.finished, job) + m.dropped[job])
            && |m.queue| <= 32
            && (!m.closed ==> m.dropped == multiset{})
  {
    hide Execute;
    assert Conserved(START);
    ConservedExecute(START, schedule);
    var m := Execute(START, schedule).value;
    forall job
      ensures m.enqueued[job] == m.pending[job] + multiset(m.queue)[job] + RunningOf(m.workers, job)
                                 + FinishedOf(m.finished, job) + m.dropped[job]
    {
      assert Balanced(m, job);
    }
  }

  // ---------- Blocks ----------

  /** PUT and WRITE frames of a job, all sent but possibly the last. */
  predicate Opened(job: Job, es: seq<Entry>) {
    && es != [] && es[0] == Entry(Put(job.dest), true)
    && (forall i :: 1 <= i < |es| ==> es[i].frame.Write? && es[i].frame.dest == job.dest)
    && (forall i :: 1 <= i < |es| - 1 ==> es[i].ok)
  }

  /** The frames of a finished job: a failed PUT alone, or PUT WRITE* CLOSE. */
  predicate IsBlock(b: Block) {
    b.entries == [Entry(Put(b.job.dest), false)] ||
    (var n := |b.entries| - 1;
     1 <= n && Opened(b.job, b.entries[..n]) && b.entries[n].frame == Close(b.job.dest))
  }

  function SentBy(w: Worker): seq<Entry> {
    if w.Streaming? || w.Closing? then w.sent else []
  }

  predicate WorkerOk(w: Worker) {
    match w
    case Streaming(job, sent) => Opened(job, sent) && sent[|sent| - 1].ok
    case Closing(job, sent) => Opened(job, sent)
    case _ => true
  }

  function Flatten(bs: seq<Block>): seq<Entry> {
    if bs == [] then [] else Flatten(bs[..|bs| - 1]) + bs[|bs| - 1].entries
  }

  lemma FlattenSnoc(bs: seq<Block>, b: Block)
    ensures Flatten(bs + [b]) == Flatten(bs) + b.entries
  {
    assert (bs + [b])[..|bs|] == bs;
  }

  function FinishedJobs(bs: seq<Block>): (r: seq<Job>)
    ensures |r| == |bs|
  {
    seq(|bs|, i requires 0 <= i < |bs| => bs[i].job)
  }

  lemma FinishedSnoc(bs: seq<Block>, b: Block)
    ensures FinishedJobs(bs + [b]) == FinishedJobs(bs) + [b.job]
  {
  }

  predicate BlocksOk(m: Machine) {
    && (forall i :: 0 <= i < |m.finished| ==> IsBlock(m.finished[i]))
    && (forall k :: 0 <= k < |m.workers| ==> WorkerOk(m.workers[k]))
  }

  /** The job a worker is on. */
  function Current(w: Worker): seq<Job> {
    if w.Opening? || w.Streaming? || w.Closing? then [w.job] else []
  }

  /** With at most one worker the stream frames are the blocks of the finished jobs
      one after the other, then the frames of the current job; and until the session
      ends, jobs are finished in the order the channel took them. */
  predicate Contiguous(m: Machine) {
    && |m.workers| <= 1
    && m.wire == Flatten(m.finished) + (if m.workers == [] then [] else SentBy(m.workers[0]))
    && (!m.closed ==> m.pushed == Served(m) + m.queue)
  }

  lemma OpenedSnoc(job: Job, es: seq<Entry>, e: Entry)
    requires Opened(job, es) && es[|es| - 1].ok
    requires e.frame.Write? && e.frame.dest == job.dest
    ensures Opened(job, es + [e])
  {
  }

  lemma ClosedBlock(job: Job, sent: seq<Entry>, ok: bool)
    requires Opened(job, sent)
    ensures IsBlock(Block(job, sent + [Entry(Close(job.dest), ok)]))
  {
    hide Opened;
    OpenedSome(job, sent);
    var es := sent + [Entry(Close(job.dest), ok)];
    assert es[..|sent|] == sent;
  }

  lemma BlocksStep(m: Machine, a: Action)
    requires BlocksOk(m) && Enabled(m, a)
    ensures BlocksOk(After(m, a))
  {
    hide Opened;
    match a
    case SendPut(k, ok) =>
      OpenedPut(m.workers[k].job);
    case SendWrite(k, offset, payload, ok) =>
      hide IsBlock;
      var w := m.workers[k];
      OpenedSnoc(w.job, w.sent, Entry(Write(w.job.dest, offset, payload), ok));
    case SendClose(k, ok) =>
      hide IsBlock;
      ClosedBlock(m.workers[k].job, m.workers[k].sent, ok);
    case _ => hide IsBlock;
  }

  lemma OpenedPut(job: Job)
    ensures Opened(job, [Entry(Put(job.dest), true)])
  {
  }

  lemma OpenedSome(job: Job, es: seq<Entry>)
    requires Opened(job, es)
    ensures es != []
  {
  }

  /** The jobs at hand, in the order the channel took them. */
  function Served(m: Machine): seq<Job> {
    FinishedJobs(m.finished) + (if m.workers == [] then [] else Current(m.workers[0]))
  }

  lemma ContiguousQueue(m: Machine, a: Action)
    requires Contiguous(m) && Enabled(m, a) && |After(m, a).workers| <= 1
    requires OnQueue(a)
    ensures Contiguous(After(m, a))
  {
    hide Flatten;
    hide FinishedJobs;
    if a.Push? {
      Assoc(Served(m), m.queue, [a.job]);
    } else if a.SessionMessage? {
      assert m.workers + [Waiting] == [Waiting];
    }
  }

  lemma ContiguousPop(m: Machine, k: nat)
    requires Contiguous(m) && Enabled(m, Pop(k))
    ensures Contiguous(After(m, Pop(k)))
  {
    hide Flatten;
    hide FinishedJobs;
    var r, done := After(m, Pop(k)), FinishedJobs(m.finished);
    assert m.workers == [m.workers[0]] && r.workers == [r.workers[0]];
    if !m.closed {
      assert done + [] == done;
      assert m.queue == [m.queue[0]] + m.queue[1..];
      Assoc(done, [m.queue[0]], m.queue[1..]);
    }
  }

  lemma ContiguousSend(m: Machine, a: Action)
    requires Contiguous(m) && Enabled(m, a)
    requires !OnQueue(a) && !a.Pop?
    ensures Contiguous(After(m, a))
  {
    hide Flatten;
    hide FinishedJobs;
    var r, done := After(m, a), Flatten(m.finished);
    assert m.workers == [m.workers[0]];
    match a
    case SendPut(k, ok) =>
      assert done + [] == done;
      if !ok {
        Finish(m, r, r.finished[|m.finished|]);
      }
    case SendWrite(k, offset, payload, ok) =>
      Assoc(done, m.workers[k].sent, [r.wire[|m.wire|]]);
    case SendClose(k, ok) =>
      Assoc(done, m.workers[k].sent, [r.wire[|m.wire|]]);
      Finish(m, r, r.finished[|m.finished|]);
    case EndOfSource(k) =>
  }

  lemma Finish(m: Machine, r: Machine, b: Block)
    requires r.finished == m.finished + [b]
    ensures Flatten(r.finished) + [] == Flatten(m.finished) + b.entries
    ensures FinishedJobs(r.finished) + [] == FinishedJobs(m.finished) + [b.job]
  {
    FlattenSnoc(m.finished, b);
    FinishedSnoc(m.finished, b);
    assert Flatten(r.finished) + [] == Flatten(r.finished);
  }

  /** SESSION messages in a schedule. */
  function Sessions(schedule: seq<Action>): nat {
    if schedule == [] then 0 else (if schedule[0].SessionMessage? then 1 else 0) + Sessions(schedule[1..])
  }

  lemma {:induction false} BlocksExecute(m: Machine, schedule: seq<Action>)
    requires BlocksOk(m) && Contiguous(m) && Execute(m, schedule).Some?
    requires |m.workers| + Sessions(schedule) <= 1
    ensures BlocksOk(Execute(m, schedule).value) && Contiguous(Execute(m, schedule).value)
    decreases |schedule|
  {
    hide BlocksOk;
    hide Contiguous;
    if schedule != [] {
      var a := schedule[0];
      BlocksStep(m, a);
      if OnQueue(a) {
        ContiguousQueue(m, a);
      } else if a.Pop? {
        ContiguousPop(m, a.k);
      } else {
        ContiguousSend(m, a);
      }
      BlocksExecute(After(m, a), schedule[1..]);
    }
  }

  /** With one SESSION message: the stream frames on the wire are a sequence of whole
      job blocks, each PUT WRITE* CLOSE or a failed PUT alone, followed by the frames
      of the job being sent; and jobs are served first in, first out. */
  lemma JobsAreBlocks(schedule: seq<Action>)
    requires Execute(START, schedule).Some? && Sessions(schedule) <= 1
    ensures var m := Execute(START, schedule).value;
            && (forall i :: 0 <= i < |m.finished| ==> IsBlock(m.finished[i]))
            && |m.workers| <= 1
            && m.wire == Flatten(m.finished) + (if m.workers == [] then [] else SentBy(m.workers[0]))
            && (m.workers != [] ==> WorkerOk(m.workers[0]))
            && (!m.closed ==> m.pushed == Served(m) + m.queue)
  {
    hide Execute;
    BlocksExecute(START, schedule);
  }

  // ---------- Exactly when the stream frames are job blocks ----------

  /** The frames can be read as whole job blocks and the first frames of one more job. */
  ghost predicate InBlocks(wire: seq<Entry>) {
    exists bs, tail :: Readable(wire, bs, tail)
  }

  ghost predicate Readable(wire: seq<Entry>, bs: seq<Block>, tail: seq<Entry>) {
    && wire == Flatten(bs) + tail
    && (forall i :: 0 <= i < |bs| ==> IsBlock(bs[i]))
    && (tail == [] || exists job :: Opened(job, tail))
  }

  lemma SentIsOpened(w: Worker)
    requires WorkerOk(w)
    ensures SentBy(w) == [] || exists job :: Opened(job, SentBy(w))
  {
    hide Opened;
    if w.Streaming? || w.Closing? {
      assert Opened(w.job, SentBy(w));
    }
  }

  lemma OneWorkerInBlocks(schedule: seq<Action>)
    requires Execute(START, schedule).Some? && Sessions(schedule) <= 1
    ensures InBlocks(Execute(START, schedule).value.wire)
  {
    hide Execute;
    hide Flatten;
    hide IsBlock;
    hide WorkerOk;
    hide SentBy;
    JobsAreBlocks(schedule);
    var m := Execute(START, schedule).value;
    var tail := if m.workers == [] then [] else SentBy(m.workers[0]);
    if m.workers != [] {
      SentIsOpened(m.workers[0]);
    }
    assert Readable(m.wire, m.finished, tail);
  }

  lemma {:induction false} FlattenFirst(bs: seq<Block>)
    requires bs != []
    ensures bs[0].entries <= Flatten(bs)
  {
    if |bs| > 1 {
      FlattenFirst(bs[..|bs| - 1]);
    } else {
      assert bs[..0] == [] && [] + bs[0].entries == bs[0].entries;
    }
  }

  lemma BlockStart(b: Block)
    requires IsBlock(b)
    ensures |b.entries| >= 1
    ensures b.entries[0].ok ==> |b.entries| >= 2 && (b.entries[1].frame.Write? || b.entries[1].frame.Close?)
  {
    var n := |b.entries| - 1;
    if b.entries != [Entry(Put(b.job.dest), false)] {
      assert b.entries[..n][0] == b.entries[0];
      assert n > 1 ==> b.entries[..n][1] == b.entries[1];
    }
  }

  /** A frame that was sent is followed by a WRITE or CLOSE at the start of the wire. */
  lemma SecondFrame(wire: seq<Entry>, bs: seq<Block>, tail: seq<Entry>)
    requires Readable(wire, bs, tail) && |wire| >= 2 && wire[0].ok
    ensures wire[1].frame.Write? || wire[1].frame.Close?
  {
    hide IsBlock;
    hide Flatten;
    if bs == [] {
      EmptyFlatten();
      assert wire == tail;
      var job :| Opened(job, tail);
      assert tail[1] == wire[1];
    } else {
      FlattenFirst(bs);
      BlockStart(bs[0]);
      var es := bs[0].entries;
      assert es == Flatten(bs)[..|es|];
      assert es[0] == wire[0] && es[1] == wire[1];
    }
  }

  /** Two PUT frames in a row, the first one sent, are not the start of any blocks. */
  lemma TwoPutsNotInBlocks(a: Job, b: Job)
    ensures !InBlocks([Entry(Put(a.dest), true), Entry(Put(b.dest), true)])
  {
    hide Readable;
    var wire := [Entry(Put(a.dest), true), Entry(Put(b.dest), true)];
    forall bs: seq<Block>, tail: seq<Entry> ensures !Readable(wire, bs, tail) {
      if Readable(wire, bs, tail) {
        SecondFrame(wire, bs, tail);
      }
    }
  }

  lemma EmptyFlatten()
    ensures Flatten([]) == []
  {
  }

  predicate Reaches(schedule: seq<Action>, m: Machine) {
    Execute(START, schedule) == Some(m)
  }

  lemma {:induction false} ExecuteSnoc(m: Machine, schedule: seq<Action>, a: Action)
    requires Execute(m, schedule).Some? && Enabled(Execute(m, schedule).value, a)
    ensures Execute(m, schedule + [a]) == Some(After(Execute(m, schedule).value, a))
    decreases |schedule|
  {
    hide After;
    hide Enabled;
    if schedule == [] {
      assert [] + [a] == [a] && [a][1..] == [];
    } else {
      ExecuteSnoc(After(m, schedule[0]), schedule[1..], a);
      assert (schedule + [a])[1..] == schedule[1..] + [a];
    }
  }

  lemma {:induction false} SessionsSnoc(schedule: seq<Action>, a: Action)
    ensures Sessions(schedule + [a]) == Sessions(schedule) + (if a.SessionMessage? then 1 else 0)
  {
    if schedule == [] {
      assert [] + [a] == [a] && [a][1..] == [];
    } else {
      SessionsSnoc(schedule[1..], a);
      assert (schedule + [a])[1..] == schedule[1..] + [a];
    }
  }

  lemma Extend(schedule: seq<Action>, m: Machine, a: Action) returns (longer: seq<Action>, next: Machine)
    requires Reaches(schedule, m) && Enabled(m, a)
    ensures next == After(m, a) && Reaches(longer, next)
    ensures Sessions(longer) == Sessions(schedule) + (if a.SessionMessage? then 1 else 0)
  {
    hide After;
    hide Enabled;
    longer, next := schedule + [a], After(m, a);
    ExecuteSnoc(START, schedule, a);
    SessionsSnoc(schedule, a);
  }

  /** One job from enqueue to its PUT, on a waiting worker with an empty queue. */
  lemma Serve(schedule: seq<Action>, m: Machine, job: Job, k: nat) returns (longer: seq<Action>, next: Machine)
    requires Reaches(schedule, m) && !m.closed && m.queue == [] && k < |m.workers| && m.workers[k].Waiting?
    ensures Reaches(longer, next) && Sessions(longer) == Sessions(schedule)
    ensures next.wire == m.wire + [Entry(Put(job.dest), true)]
    ensures next.workers == m.workers[k := Streaming(job, [Entry(Put(job.dest), true)])]
    ensures !next.closed && next.queue == []
  {
    hide Reaches;
    hide Sessions;
    longer, next := Extend(schedule, m, Enqueue(job));
    longer, next := Extend(longer, next, Push(job));
    longer, next := Extend(longer, next, Pop(k));
    longer, next := Extend(longer, next, SendPut(k, true));
  }

  /** A second SESSION message starts a second worker on the same queue, and then the
      frames of two jobs can interleave: here two PUT frames in a row. */
  lemma TwoWorkersInterleave(a: Job, b: Job) returns (schedule: seq<Action>, m: Machine)
    ensures Sessions(schedule) == 2 && Reaches(schedule, m)
    ensures m.wire == [Entry(Put(a.dest), true), Entry(Put(b.dest), true)]
  {
    schedule, m := [], START;
    assert Reaches(schedule, m);
    hide Reaches;
    schedule, m := Extend(schedule, m, SessionMessage);
    schedule, m := Extend(schedule, m, SessionMessage);
    schedule, m := Serve(schedule, m, a, 0);
    schedule, m := Serve(schedule, m, b, 1);
  }

  /** More SESSION messages change nothing on the wire. */
  lemma {:induction false} MoreSessions(schedule: seq<Action>, m: Machine, n: nat)
    returns (longer: seq<Action>, next: Machine)
    requires Reaches(schedule, m)
    ensures Reaches(longer, next) && next.wire == m.wire && Sessions(longer) == Sessions(schedule) + n
    decreases n
  {
    hide Reaches;
    hide Sessions;
    longer, next := schedule, m;
    if n > 0 {
      longer, next := Extend(schedule, m, SessionMessage);
      longer, next := MoreSessions(longer, next, n - 1);
    }
  }

  /** Every schedule with `n` SESSION messages keeps the frames of each job together. */
  ghost predicate AlwaysInBlocks(n: nat) {
    forall schedule :: Execute(START, schedule).Some? && Sessions(schedule) == n ==>
      InBlocks(Execute(START, schedule).value.wire)
  }

  /** Exactly when the stream frames are job blocks: all schedules with `n` SESSION
      messages keep the frames of each job together if and only if n is at most one. */
  lemma JobsAreBlocksExactly(n: nat)
    ensures AlwaysInBlocks(n) <==> n <= 1
  {
    hide Execute;
    hide Sessions;
    hide InBlocks;
    if n <= 1 {
      forall schedule | Execute(START, schedule).Some? && Sessions(schedule) == n
        ensures InBlocks(Execute(START, schedule).value.wire)
      {
        OneWorkerInBlocks(schedule);
      }
    } else {
      var a, b := Job(0, "a"), Job(1, "b");
      var schedule, m := TwoWorkersInterleave(a, b);
      schedule, m := MoreSessions(schedule, m, n - 2);
      TwoPutsNotInBlocks(a, b);
      assert Execute(START, schedule) == Some(m);
    }
  }

  // ---------- Progress ----------

  /** Steps of the workers and of goroutines that are already waiting. */
  predicate OnlyServes(schedule: seq<Action>) {
    forall i :: 0 <= i < |schedule| ==>
      !schedule[i].Enqueue? && !schedule[i].SessionMessage? && !schedule[i].EndSession? && !schedule[i].GiveUp?
  }

  predicate NobodyGone(m: Machine) {
    !m.closed ==> forall k :: 0 <= k < |m.workers| ==> !m.workers[k].Gone?
  }

  lemma {:induction false} NobodyGoneExecute(m: Machine, schedule: seq<Action>)
    requires NobodyGone(m) && Execute(m, schedule).Some?
    ensures NobodyGone(Execute(m, schedule).value)
    decreases |schedule|
  {
    if schedule != [] {
      NobodyGoneExecute(After(m, schedule[0]), schedule[1..]);
    }
  }

  /** In every reachable machine of an open session no worker has stopped. */
  lemma WorkersStay(schedule: seq<Action>)
    requires Execute(START, schedule).Some?
    ensures var m := Execute(START, schedule).value;
            !m.closed ==> forall k :: 0 <= k < |m.workers| ==> !m.workers[k].Gone?
  {
    hide Execute;
    NobodyGoneExecute(START, schedule);
  }

  /** `next` is reached from `m` by serving steps only. */
  ghost predicate Serves(m: Machine, schedule: seq<Action>, next: Machine) {
    OnlyServes(schedule) && Execute(m, schedule) == Some(next)
  }

  lemma ServeStep(m: Machine, schedule: seq<Action>, mid: Machine, a: Action)
    returns (longer: seq<Action>, next: Machine)
    requires Serves(m, schedule, mid) && Enabled(mid, a)
    requires !a.Enqueue? && !a.SessionMessage? && !a.EndSession? && !a.GiveUp?
    ensures next == After(mid, a) && Serves(m, longer, next)
  {
    hide After;
    hide Enabled;
    longer, next := schedule + [a], After(mid, a);
    ExecuteSnoc(m, schedule, a);
  }

  lemma ServeNothing(m: Machine)
    ensures Serves(m, [], m)
  {
  }

  /** A worker can always finish the job it is on. */
  lemma FinishCurrent(m: Machine, schedule: seq<Action>, mid: Machine, k: nat)
    returns (longer: seq<Action>, next: Machine)
    requires Serves(m, schedule, mid) && !mid.closed && k < |mid.workers| && !mid.workers[k].Gone?
    ensures Serves(m, longer, next) && !next.closed && |next.workers| == |mid.workers| && next.workers[k].Waiting?
    ensures next.queue == mid.queue && next.pending == mid.pending
    ensures FinishedJobs(next.finished) == FinishedJobs(mid.finished) + Current(mid.workers[k])
  {
    hide Serves;
    hide FinishedJobs;
    longer, next := schedule, mid;
    if next.workers[k].Opening? {
      longer, next := ServeStep(m, longer, next, SendPut(k, true));
    }
    if next.workers[k].Streaming? {
      longer, next := ServeStep(m, longer, next, EndOfSource(k));
    }
    if next.workers[k].Closing? {
      ghost var b := Block(next.workers[k].job, next.workers[k].sent + [Entry(Close(next.workers[k].job.dest), true)]);
      FinishedSnoc(next.finished, b);
      longer, next := ServeStep(m, longer, next, SendClose(k, true));
    } else {
      assert FinishedJobs(mid.finished) + [] == FinishedJobs(mid.finished);
    }
  }

  /** A waiting worker can serve the whole queue, first in, first out. */
  lemma {:induction false} ServeQueue(m: Machine, schedule: seq<Action>, mid: Machine, k: nat)
    returns (longer: seq<Action>, next: Machine)
    requires Serves(m, schedule, mid) && !mid.closed && k < |mid.workers| && mid.workers[k].Waiting?
    ensures Serves(m, longer, next) && !next.closed && |next.workers| == |mid.workers| && next.workers[k].Waiting?
    ensures next.queue == [] && next.pending == mid.pending
    ensures FinishedJobs(next.finished) == FinishedJobs(mid.finished) + mid.queue
    decreases |mid.queue|
  {
    hide Serves;
    hide FinishedJobs;
    longer, next := schedule, mid;
    if mid.queue == [] {
      assert FinishedJobs(mid.finished) + [] == FinishedJobs(mid.finished);
    } else {
      var job, rest := mid.queue[0], mid.queue[1..];
      longer, next := ServeStep(m, longer, next, Pop(k));
      longer, next := FinishCurrent(m, longer, next, k);
      longer, next := ServeQueue(m, longer, next, k);
      assert mid.queue == [job] + rest;
      Assoc(FinishedJobs(mid.finished), [job], rest);
    }
  }

  /** Everything pending can be pushed and served. */
  lemma {:induction false} ServePending(m: Machine, schedule: seq<Action>, mid: Machine, k: nat)
    returns (longer: seq<Action>, next: Machine)
    requires Serves(m, schedule, mid) && !mid.closed && k < |mid.workers| && mid.workers[k].Waiting? && mid.queue == []
    ensures Serves(m, longer, next) && !next.closed && next.queue == [] && next.pending == multiset{}
    ensures FinishedJobs(mid.finished) <= FinishedJobs(next.finished)
    ensures multiset(FinishedJobs(next.finished)) == multiset(FinishedJobs(mid.finished)) + mid.pending
    decreases |mid.pending|
  {
    hide Serves;
    hide FinishedJobs;
    longer, next := schedule, mid;
    if mid.pending != multiset{} {
      var job :| job in mid.pending;
      longer, next := ServeStep(m, longer, next, Push(job));
      var pushed := next;
      assert [] + [job] == [job];
      longer, next := ServeQueue(m, longer, next, k);
      assert mid.pending == pushed.pending + multiset{job};
      longer, next := ServePending(m, longer, next, k);
    }
  }

  /** No job is stuck: from every reachable machine of an open session with a worker,
      serving steps alone lead to an empty queue and nobody waiting; the worker's
      job and then the queue, in its order, are finished first, and then exactly
      the jobs that were waiting for the channel. */
  lemma JobsAreServed(schedule: seq<Action>, k: nat) returns (ext: seq<Action>)
    requires Execute(START, schedule).Some?
    requires var m := Execute(START, schedule).value; !m.closed && k < |m.workers|
    ensures var m := Execute(START, schedule).value;
            OnlyServes(ext) && Execute(m, ext).Some? &&
            var r := Execute(m, ext).value;
            && r.queue == [] && r.pending == multiset{} && !r.closed
            && var first := FinishedJobs(m.finished) + Current(m.workers[k]) + m.queue;
               first <= FinishedJobs(r.finished)
               && multiset(FinishedJobs(r.finished)) == multiset(first) + m.pending
  {
    hide Execute;
    hide FinishedJobs;
    WorkersStay(schedule);
    var m := Execute(START, schedule).value;
    ServeNothing(m);
    var next := m;
    ext, next := FinishCurrent(m, [], m, k);
    ext, next := ServeQueue(m, ext, next, k);
    ext, next := ServePending(m, ext, next, k);
  }

  /** Once the session is over no worker opens another job. */
  lemma {:induction false} ClosedOpensNothing(m: Machine, schedule: seq<Action>)
    requires m.closed && Execute(m, schedule).Some?
    ensures var r := Execute(m, schedule).value;
            r.closed && |r.workers| >= |m.workers| && forall k :: 0 <= k < |r.workers| && r.workers[k].Opening? ==>
              k < |m.workers| && r.workers[k] == m.workers[k]
    decreases |schedule|
  {
    if schedule != [] {
      ClosedOpensNothing(After(m, schedule[0]), schedule[1..]);
    }
  }

  /** The channel takes a waiting job exactly while it holds fewer than 32. */
  lemma PushExactly(m: Machine, job: Job)
    ensures Enabled(m, Push(job)) <==> job in m.pending && |m.queue| < 32
    ensures Enabled(m, Push(job)) ==> After(m, Push(job)).queue == m.queue + [job]
  {
  }

  /** The session is over exactly if it was ended. */
  lemma {:induction false} ClosedExactly(m: Machine, schedule: seq<Action>)
    requires Execute(m, schedule).Some?
    ensures Execute(m, schedule).value.closed <==> m.closed || EndSession in schedule
    decreases |schedule|
  {
    if schedule != [] {
      ClosedExactly(After(m, schedule[0]), schedule[1..]);
      assert schedule == [schedule[0]] + schedule[1..];
    }
  }

  /** A worker that takes a job after the end gives the job up and stops. */
  lemma ClosedWorkerStops(m: Machine, k: nat)
    requires m.closed && Enabled(m, Pop(k))
    ensures var r := After(m, Pop(k));
            && r.workers[k].Gone? && r.queue == m.queue[1..] && r.dropped == m.dropped + multiset{m.queue[0]}
            && r.wire == m.wire && r.finished == m.finished
  {
  }

  /** WRITEs that all go out. */
  function Writes(dest: string, pieces: seq<(int, string)>): (r: seq<Entry>)
    ensures |r| == |pieces|
    ensures forall i :: 0 <= i < |pieces| ==> r[i] == Entry(Write(dest, pieces[i].0, pieces[i].1), true)
  {
    seq(|pieces|, i requires 0 <= i < |pieces| => Entry(Write(dest, pieces[i].0, pieces[i].1), true))
  }

  /** A worker that is sending can send any further WRITEs. */
  lemma {:induction false} SendsOn(m: Machine, schedule: seq<Action>, mid: Machine, k: nat, pieces: seq<(int, string)>)
    returns (longer: seq<Action>, next: Machine)
    requires Serves(m, schedule, mid) && k < |mid.workers| && mid.workers[k].Streaming?
    ensures Serves(m, longer, next) && next.finished == mid.finished && |next.workers| == |mid.workers|
    ensures next.workers[k]
         == Streaming(mid.workers[k].job, mid.workers[k].sent + Writes(mid.workers[k].job.dest, pieces))
    decreases |pieces|
  {
    hide Serves;
    longer, next := schedule, mid;
    var w := mid.workers[k];
    if pieces == [] {
      assert w.sent + Writes(w.job.dest, []) == w.sent;
    } else {
      longer, next := ServeStep(m, longer, next, SendWrite(k, pieces[0].0, pieces[0].1, true));
      longer, next := SendsOn(m, longer, next, k, pieces[1..]);
      var first := [Entry(Write(w.job.dest, pieces[0].0, pieces[0].1), true)];
      assert Writes(w.job.dest, pieces) == first + Writes(w.job.dest, pieces[1..]);
      Assoc(w.sent, first, Writes(w.job.dest, pieces[1..]));
    }
  }

  /** A job's block may hold any WRITEs: a worker that has taken a job can send its PUT,
      these WRITEs and its CLOSE, and finish it. */
  lemma AnyBlock(m: Machine, k: nat, pieces: seq<(int, string)>) returns (schedule: seq<Action>)
    requires k < |m.workers| && m.workers[k].Opening?
    ensures var job := m.workers[k].job;
            OnlyServes(schedule) && Execute(m, schedule).Some? &&
            var r := Execute(m, schedule).value;
            && k < |r.workers| && r.workers[k].Waiting?
            && r.finished == m.finished + [Block(job, [Entry(Put(job.dest), true)] + Writes(job.dest, pieces)
                                                      + [Entry(Close(job.dest), true)])]
  {
    hide Execute;
    hide OnlyServes;
    ServeNothing(m);
    var next;
    schedule, next := ServeStep(m, [], m, SendPut(k, true));
    schedule, next := SendsOn(m, schedule, next, k, pieces);
    schedule, next := ServeStep(m, schedule, next, EndOfSource(k));
    schedule, next := ServeStep(m, schedule, next, SendClose(k, true));
  }
}
