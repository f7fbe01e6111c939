/** Any number of goroutines sending frames over one connection under one mutex,
    with partial writes of any size and arbitrary scheduling: the wire is always a
    list of whole frames followed by a part of the frame of the mutex holder. */
module WireMutex {
  import opened Text
  import opened Frames

  /** A goroutine with the frames it still has to send; inside a frame it has
      written `seg` whole segments and `written` bytes of the next one. */
  datatype Thread =
    | Idle(todo: seq<Frame>)
    | Sending(frame: Frame, seg: nat, written: nat, todo: seq<Frame>)

  datatype World = World(
    wire: string,
    holder: Option<nat>,               // who holds mgmtWriteSync
    threads: seq<Thread>,
    programs: seq<seq<Frame>>,         // what each goroutine was started with
    log: seq<(nat, Frame)>)            // frames completed, by whom

  datatype Action =
    | Spawn(program: seq<Frame>)       // a new goroutine
    | Acquire(t: nat)                  // Lock
    | Push(t: nat, n: nat)             // conn.Write accepts n bytes
    | NextSegment(t: nat)              // writeAll returns, the next one starts
    | Release(t: nat)                  // Unlock

  function Segment(th: Thread): string
    requires th.Sending? && th.seg < |Segments(th.frame)|
  {
    Segments(th.frame)[th.seg]
  }

  predicate AtSegment(th: Thread) {
    th.Sending? && th.seg < |Segments(th.frame)| && th.written <= |Segment(th)|
  }

  predicate SegmentDone(th: Thread) {
    AtSegment(th) && th.written == |Segment(th)|
  }

  predicate Enabled(w: World, a: Action) {
    match a
    case Spawn(_) => true
    case Acquire(t) => w.holder.None? && t < |w.threads| && w.threads[t].Idle? && w.threads[t].todo != []
    case Push(t, n) =>
      t < |w.threads| && AtSegment(w.threads[t]) && 0 < n <= |Segment(w.threads[t])| - w.threads[t].written
    case NextSegment(t) =>
      t < |w.threads| && SegmentDone(w.threads[t]) && w.threads[t].seg + 1 < |Segments(w.threads[t].frame)|
    case Release(t) =>
      t < |w.threads| && SegmentDone(w.threads[t]) && w.threads[t].seg + 1 == |Segments(w.threads[t].frame)|
  }

  function After(w: World, a: Action): World
    requires Enabled(w, a)
  {
    match a
    case Spawn(program) =>
      w.(threads := w.threads + [Idle(program)], programs := w.programs + [program])
    case Acquire(t) =>
      var todo := w.threads[t].todo;
      w.(holder := Some(t), threads := w.threads[t := Sending(todo[0], 0, 0, todo[1..])])
    case Push(t, n) =>
      var th := w.threads[t];
      w.(wire := w.wire + Segment(th)[th.written..th.written + n],
         threads := w.threads[t := th.(written := th.written + n)])
    case NextSegment(t) =>
      w.(threads := w.threads[t := w.threads[t].(seg := w.threads[t].seg + 1, written := 0)])
    case Release(t) =>
      var th := w.threads[t];
      w.(holder := None, threads := w.threads[t := Idle(th.todo)], log := w.log + [(t, th.frame)])
  }

  /** The worlds reached by a schedule, if every step of it was possible. */
  function Execute(w: World, schedule: seq<Action>): Option<World>
    decreases |schedule|
  {
    if schedule == [] then Some(w)
    else if !Enabled(w, schedule[0]) then None
    else Execute(After(w, schedule[0]), schedule[1..])
  }

  const START := World("", None, [], [], [])

  // ---------- The invariant ----------

  function LogFrames(log: seq<(nat, Frame)>): (r: seq<Frame>)
    ensures |r| == |log|
  {
    seq(|log|, i requires 0 <= i < |log| => log[i].1)
  }

  /** The frames of one goroutine, in the order they were completed. */
  function Own(log: seq<(nat, Frame)>, t: nat): seq<Frame> {
    if log == [] then []
    else Own(log[..|log| - 1], t) + (if log[|log| - 1].0 == t then [log[|log| - 1].1] else [])
  }

  /** What the holder has written of its frame. */
  function Partial(th: Thread): string {
    if AtSegment(th) then Concat(Segments(th.frame)[..th.seg]) + Segment(th)[..th.written] else ""
  }

  /** What a goroutine has in hand and still to do. */
  function Pending(th: Thread): seq<Frame> {
    if th.Sending? then [th.frame] + th.todo else th.todo
  }

  ghost predicate Exclusive(w: World) {
    && (w.holder.Some? ==> w.holder.value < |w.threads|)
    && (forall t :: 0 <= t < |w.threads| ==> (w.threads[t].Sending? <==> w.holder == Some(t)))
    && (forall t :: 0 <= t < |w.threads| && w.threads[t].Sending? ==> AtSegment(w.threads[t]))
  }

  function Held(w: World): string {
    if w.holder.Some? && w.holder.value < |w.threads| then Partial(w.threads[w.holder.value]) else ""
  }

  ghost predicate Accounted(w: World) {
    && |w.programs| == |w.threads|
    && (forall i :: 0 <= i < |w.log| ==> w.log[i].0 < |w.threads|)
    && (forall t :: 0 <= t < |w.threads| ==> Own(w.log, t) + Pending(w.threads[t]) == w.programs[t])
  }

  ghost predicate Inv(w: World) {
    Exclusive(w) && Accounted(w) && w.wire == EncodeAll(LogFrames(w.log)) + Held(w)
  }

  lemma ExclusiveStep(w: World, a: Action)
    requires Exclusive(w) && Enabled(w, a)
    ensures Exclusive(After(w, a))
  {
    hide Segments;
  }

  lemma OwnSnoc(log: seq<(nat, Frame)>, t: nat, f: Frame, u: nat)
    ensures Own(log + [(t, f)], u) == Own(log, u) + (if t == u then [f] else [])
  {
    assert (log + [(t, f)])[..|log|] == log;
  }

  lemma {:induction false} OwnNobody(log: seq<(nat, Frame)>, t: nat)
    requires forall i :: 0 <= i < |log| ==> log[i].0 != t
    ensures Own(log, t) == []
  {
    if log != [] {
      OwnNobody(log[..|log| - 1], t);
    }
  }

  lemma AccountedStep(w: World, a: Action)
    requires Exclusive(w) && Accounted(w) && Enabled(w, a)
    ensures Accounted(After(w, a))
  {
    hide Segments;
    hide Own;
    var r := After(w, a);
    forall u | 0 <= u < |r.threads| ensures Own(r.log, u) + Pending(r.threads[u]) == r.programs[u] {
      match a
      case Spawn(program) =>
        if u == |w.threads| {
          OwnNobody(w.log, u);
          assert [] + program == program;
        }
      case Acquire(t) =>
        if u == t {
          assert [w.threads[t].todo[0]] + w.threads[t].todo[1..] == w.threads[t].todo;
        }
      case Release(t) =>
        OwnSnoc(w.log, t, w.threads[t].frame, u);
        assert Own(w.log, u) + [] == Own(w.log, u);
        if u == t {
          Assoc(Own(w.log, u), [w.threads[t].frame], w.threads[t].todo);
        }
      case _ =>
    }
  }

  lemma PartialPush(th: Thread, n: nat)
    requires AtSegment(th) && n <= |Segment(th)| - th.written
    ensures Partial(th.(written := th.written + n)) == Partial(th) + Segment(th)[th.written..th.written + n]
  {
    hide Segments;
    var s := Segment(th);
    assert s[..th.written + n] == s[..th.written] + s[th.written..th.written + n];
    Assoc(Concat(Segments(th.frame)[..th.seg]), s[..th.written], s[th.written..th.written + n]);
  }

  lemma ConcatSnoc(ss: seq<string>, i: nat)
    requires i < |ss|
    ensures Concat(ss[..i + 1]) == Concat(ss[..i]) + ss[i]
  {
    assert ss[..i + 1] == ss[..i] + [ss[i]];
    ConcatAppend(ss[..i], [ss[i]]);
    ConcatOne(ss[i]);
  }

  lemma PartialNext(th: Thread)
    requires SegmentDone(th)
    ensures Partial(th) == Concat(Segments(th.frame)[..th.seg + 1])
    ensures th.seg + 1 < |Segments(th.frame)| ==> Partial(th.(seg := th.seg + 1, written := 0)) == Partial(th)
  {
    hide Segments;
    hide Concat;
    var ss := Segments(th.frame);
    assert Segment(th)[..th.written] == Segment(th);
    ConcatSnoc(ss, th.seg);
    if th.seg + 1 < |ss| {
      assert ss[th.seg + 1][..0] == "" && Partial(th) + "" == Partial(th);
    }
  }

  lemma PartialWhole(th: Thread)
    requires SegmentDone(th) && th.seg + 1 == |Segments(th.frame)|
    ensures Partial(th) == Encode(th.frame)
  {
    hide Segments;
    hide Concat;
    PartialNext(th);
    assert Segments(th.frame)[..th.seg + 1] == Segments(th.frame);
  }

  lemma PartialStart(f: Frame, todo: seq<Frame>)
    ensures Partial(Sending(f, 0, 0, todo)) == ""
  {
    assert Segments(f)[..0] == [];
  }

  lemma LogSnoc(log: seq<(nat, Frame)>, t: nat, f: Frame)
    ensures EncodeAll(LogFrames(log + [(t, f)])) == EncodeAll(LogFrames(log)) + Encode(f)
  {
    hide Encode;
    hide EncodeAll;
    assert LogFrames(log + [(t, f)]) == LogFrames(log) + [f];
    LogSnocEncode(LogFrames(log), f);
  }

  lemma WireStep(w: World, a: Action)
    requires Inv(w) && Enabled(w, a)
    ensures After(w, a).wire == EncodeAll(LogFrames(After(w, a).log)) + Held(After(w, a))
  {
    hide Segments;
    hide EncodeAll;
    hide Encode;
    hide LogFrames;
    hide Partial;
    hide Accounted;
    var done := EncodeAll(LogFrames(w.log));
    match a
    case Spawn(_) =>
    case Acquire(t) => PartialStart(w.threads[t].todo[0], w.threads[t].todo[1..]);
    case Push(t, n) =>
      var th := w.threads[t];
      PartialPush(th, n);
      Assoc(done, Partial(th), Segment(th)[th.written..th.written + n]);
    case NextSegment(t) => PartialNext(w.threads[t]);
    case Release(t) =>
      PartialWhole(w.threads[t]);
      LogSnoc(w.log, t, w.threads[t].frame);
      assert w.wire + "" == w.wire;
  }

  lemma {:induction false} InvExecute(w: World, schedule: seq<Action>)
    requires Inv(w) && Execute(w, schedule).Some?
    ensures Inv(Execute(w, schedule).value)
    decreases |schedule|
  {
    hide After;
    hide Exclusive;
    hide Accounted;
    hide Held;
    hide EncodeAll;
    hide LogFrames;
    if schedule != [] {
      ExclusiveStep(w, schedule[0]);
      AccountedStep(w, schedule[0]);
      WireStep(w, schedule[0]);
      InvExecute(After(w, schedule[0]), schedule[1..]);
    }
  }

  lemma StartInv()
    ensures Inv(START)
  {
  }

  // ---------- What every reachable wire looks like ----------

  lemma ConcatSplit(ss: seq<string>, i: nat, k: nat)
    requires i < |ss| && k <= |ss[i]|
    ensures Concat(ss[..i]) + ss[i][..k] + (ss[i][k..] + Concat(ss[i + 1..])) == Concat(ss)
  {
    var a, b, c, d := Concat(ss[..i]), ss[i][..k], ss[i][k..], Concat(ss[i + 1..]);
    assert ss == ss[..i] + ss[i..];
    ConcatAppend(ss[..i], ss[i..]);
    assert ss[i..][0] == ss[i] && ss[i..][1..] == ss[i + 1..];
    assert ss[i] == b + c;
    Assoc(b, c, d);
    Assoc(a, b, c + d);
  }

  /** The bytes the holder has yet to write. */
  function Missing(th: Thread): string
    requires AtSegment(th)
  {
    Segment(th)[th.written..] + Concat(Segments(th.frame)[th.seg + 1..])
  }

  lemma PartialAndMissing(th: Thread)
    requires AtSegment(th)
    ensures Partial(th) + Missing(th) == Encode(th.frame)
  {
    hide Segments;
    hide Concat;
    ConcatSplit(Segments(th.frame), th.seg, th.written);
  }

  /** Frame atomicity, for every schedule of any number of goroutines: the wire is
      the encoding of the completed frames followed by a prefix of the frame of the
      mutex holder, and by nothing when nobody holds it.  Each goroutine's completed
      frames are a prefix of its program, in its order, none lost or repeated. */
  lemma FrameAtomicity(schedule: seq<Action>)
    requires Execute(START, schedule).Some?
    ensures var w := Execute(START, schedule).value;
            && w.wire == EncodeAll(LogFrames(w.log)) + Held(w)
            && (w.holder.None? ==> Held(w) == "")
            && (w.holder.Some? ==>
                  w.holder.value < |w.threads| && AtSegment(w.threads[w.holder.value])
                  && Held(w) + Missing(w.threads[w.holder.value]) == Encode(w.threads[w.holder.value].frame))
            && |w.programs| == |w.threads|
            && (forall t :: 0 <= t < |w.threads| ==> Own(w.log, t) + Pending(w.threads[t]) == w.programs[t])
  {
    hide Execute;
    hide EncodeAll;
    hide LogFrames;
    hide Own;
    hide Pending;
    hide Partial;
    hide Missing;
    StartInv();
    InvExecute(START, schedule);
    var w := Execute(START, schedule).value;
    if w.holder.Some? {
      PartialAndMissing(w.threads[w.holder.value]);
    }
  }

  /** What a peer should have decoded: the completed frames, the holder's frame too
      once all of it is written, and the bytes of an unfinished frame. */
  function Decodable(w: World): (seq<Frame>, string) {
    if w.holder.Some? && w.holder.value < |w.threads| && AtSegment(w.threads[w.holder.value])
       && Missing(w.threads[w.holder.value]) == ""
    then (LogFrames(w.log) + [w.threads[w.holder.value].frame], "")
    else (LogFrames(w.log), Held(w))
  }

  /** With newline-free paths the peer decodes exactly that from any reachable wire. */
  lemma PeerDecodes(schedule: seq<Action>)
    requires Execute(START, schedule).Some?
    requires var w := Execute(START, schedule).value;
             forall t :: 0 <= t < |w.programs| ==> AllValid(w.programs[t])
    ensures var w := Execute(START, schedule).value; DecodeAll(w.wire) == Decodable(w)
  {
    hide Execute;
    hide Segments;
    hide EncodeAll;
    hide DecodeAll;
    hide Decode;
    hide Encode;
    hide Own;
    hide Missing;
    hide Held;
    FrameAtomicity(schedule);
    StartInv();
    InvExecute(START, schedule);
    var w := Execute(START, schedule).value;
    LogValid(w);
    EmptyUndecodable();
    if w.holder.Some? {
      var th := w.threads[w.holder.value];
      ProgramValid(w, w.holder.value);
      if Missing(th) == "" {
        assert Held(w) == Encode(th.frame) by { assert Held(w) + "" == Held(w); }
        LogSnocEncode(LogFrames(w.log), th.frame);
        assert w.wire + "" == w.wire;
        DecodeAllEncodeAll(LogFrames(w.log) + [th.frame], "");
      } else {
        PartialUndecodable(th.frame, Held(w), Missing(th));
        DecodeAllEncodeAll(LogFrames(w.log), Held(w));
      }
    } else {
      DecodeAllEncodeAll(LogFrames(w.log), Held(w));
    }
  }

  lemma LogSnocEncode(fs: seq<Frame>, f: Frame)
    ensures EncodeAll(fs + [f]) == EncodeAll(fs) + Encode(f)
  {
    hide EncodeAll;
    hide Encode;
    EncodeAllAppend(fs, [f]);
    EncodeAllOne(f);
  }

  lemma EmptyUndecodable()
    ensures Decode("").None?
  {
  }

  lemma ProgramValid(w: World, t: nat)
    requires Accounted(w) && t < |w.threads| && AllValid(w.programs[t])
    ensures AllValid(Own(w.log, t)) && AllValid(Pending(w.threads[t]))
    ensures w.threads[t].Sending? ==> w.threads[t].frame.Valid()
  {
    hide Own;
    var a, b := Own(w.log, t), Pending(w.threads[t]);
    assert forall i :: 0 <= i < |a| ==> (a + b)[i] == a[i];
    assert forall i :: 0 <= i < |b| ==> (a + b)[|a| + i] == b[i];
    assert w.threads[t].Sending? ==> b[0] == w.threads[t].frame;
  }

  lemma {:induction false} InOwn(log: seq<(nat, Frame)>, i: nat)
    requires i < |log|
    ensures log[i].1 in Own(log, log[i].0)
  {
    if i < |log| - 1 {
      InOwn(log[..|log| - 1], i);
    }
  }

  lemma LogValid(w: World)
    requires Accounted(w)
    requires forall t :: 0 <= t < |w.programs| ==> AllValid(w.programs[t])
    ensures AllValid(LogFrames(w.log))
  {
    hide Own;
    hide Pending;
    forall i | 0 <= i < |w.log| ensures w.log[i].1.Valid() {
      InOwn(w.log, i);
      ProgramValid(w, w.log[i].0);
    }
  }

  // ---------- Progress ----------

  /** `r` is reached from `w` without starting goroutines. */
  ghost predicate Leads(w: World, schedule: seq<Action>, r: World) {
    (forall i :: 0 <= i < |schedule| ==> !schedule[i].Spawn?) && Execute(w, schedule) == Some(r)
  }

  lemma {:induction false} ExecuteSnoc(w: World, schedule: seq<Action>, a: Action)
    requires Execute(w, schedule).Some? && Enabled(Execute(w, schedule).value, a)
    ensures Execute(w, schedule + [a]) == Some(After(Execute(w, schedule).value, a))
    decreases |schedule|
  {
    hide After;
    hide Enabled;
    if schedule == [] {
      assert [] + [a] == [a] && [a][1..] == [];
    } else {
      ExecuteSnoc(After(w, schedule[0]), schedule[1..], a);
      assert (schedule + [a])[1..] == schedule[1..] + [a];
    }
  }

  lemma TakeStep(w: World, schedule: seq<Action>, mid: World, a: Action) returns (longer: seq<Action>, r: World)
    requires Leads(w, schedule, mid) && Enabled(mid, a) && !a.Spawn?
    ensures r == After(mid, a) && Leads(w, longer, r)
  {
    hide After;
    hide Enabled;
    longer, r := schedule + [a], After(mid, a);
    ExecuteSnoc(w, schedule, a);
  }

  /** The holder can always finish its frame and release the mutex. */
  lemma {:induction false} FinishFrame(w: World, schedule: seq<Action>, mid: World, t: nat)
    returns (longer: seq<Action>, r: World)
    requires Leads(w, schedule, mid) && t < |mid.threads| && AtSegment(mid.threads[t])
    ensures Leads(w, longer, r) && r.holder == None
    ensures r.threads == mid.threads[t := Idle(mid.threads[t].todo)] && r.programs == mid.programs
    decreases |Segments(mid.threads[t].frame)| - mid.threads[t].seg
  {
    hide Leads;
    hide Segments;
    longer, r := schedule, mid;
    var n := |Segment(r.threads[t])| - r.threads[t].written;
    if n > 0 {
      longer, r := TakeStep(w, longer, r, Push(t, n));
    }
    if r.threads[t].seg + 1 < |Segments(r.threads[t].frame)| {
      longer, r := TakeStep(w, longer, r, NextSegment(t));
      longer, r := FinishFrame(w, longer, r, t);
    } else {
      longer, r := TakeStep(w, longer, r, Release(t));
    }
  }

  /** With the mutex free a goroutine can send all its frames. */
  lemma {:induction false} FinishThread(w: World, schedule: seq<Action>, mid: World, t: nat)
    returns (longer: seq<Action>, r: World)
    requires Leads(w, schedule, mid) && mid.holder == None && t < |mid.threads| && mid.threads[t].Idle?
    ensures Leads(w, longer, r) && r.holder == None
    ensures r.threads == mid.threads[t := Idle([])] && r.programs == mid.programs
    decreases |mid.threads[t].todo|
  {
    hide Leads;
    hide Segments;
    longer, r := schedule, mid;
    if mid.threads[t].todo != [] {
      longer, r := TakeStep(w, longer, r, Acquire(t));
      longer, r := FinishFrame(w, longer, r, t);
      longer, r := FinishThread(w, longer, r, t);
    }
  }

  /** With the mutex free all goroutines from `t` on can send all their frames. */
  lemma {:induction false} FinishThreads(w: World, schedule: seq<Action>, mid: World, t: nat)
    returns (longer: seq<Action>, r: World)
    requires Leads(w, schedule, mid) && mid.holder == None && t <= |mid.threads|
    requires forall u :: 0 <= u < |mid.threads| ==> mid.threads[u].Idle?
    requires forall u :: 0 <= u < t ==> mid.threads[u].todo == []
    ensures Leads(w, longer, r) && r.holder == None && r.programs == mid.programs && |r.threads| == |mid.threads|
    ensures forall u :: 0 <= u < |r.threads| ==> r.threads[u] == Idle([])
    decreases |mid.threads| - t
  {
    hide Leads;
    longer, r := schedule, mid;
    if t < |mid.threads| {
      longer, r := FinishThread(w, longer, r, t);
      longer, r := FinishThreads(w, longer, r, t + 1);
    }
  }

  /** No deadlock: from every reachable world some schedule without new goroutines sends
      every frame that is still to be sent; then the mutex is free, the wire is a list
      of whole frames, and each goroutine's frames among them are its program. */
  lemma EverythingIsSent(schedule: seq<Action>) returns (ext: seq<Action>)
    requires Execute(START, schedule).Some?
    ensures var w := Execute(START, schedule).value;
            (forall i :: 0 <= i < |ext| ==> !ext[i].Spawn?) && Execute(w, ext).Some? &&
            var r := Execute(w, ext).value;
            && r.holder == None && r.programs == w.programs && |r.threads| == |r.programs|
            && r.wire == EncodeAll(LogFrames(r.log))
            && (forall t :: 0 <= t < |r.programs| ==> Own(r.log, t) == r.programs[t])
  {
    hide Execute;
    hide AtSegment;
    hide EncodeAll;
    hide LogFrames;
    hide Own;
    hide After;
    StartInv();
    InvExecute(START, schedule);
    var w := Execute(START, schedule).value;
    StayHere(w);
    var r := w;
    ext := [];
    if w.holder.Some? {
      ext, r := FinishFrame(w, ext, r, w.holder.value);
    }
    ext, r := FinishThreads(w, ext, r, 0);
    InvExecute(w, ext);
    assert r.wire + "" == r.wire && EncodeAll(LogFrames(r.log)) + "" == EncodeAll(LogFrames(r.log));
    forall t | 0 <= t < |r.programs| ensures Own(r.log, t) == r.programs[t] {
      assert Own(r.log, t) + Pending(r.threads[t]) == r.programs[t];
      assert Own(r.log, t) + [] == Own(r.log, t);
    }
  }

  lemma StayHere(w: World)
    ensures Leads(w, [], w)
  {
  }

  // ---------- What is possible ----------

  /** A goroutine may take the mutex exactly if nobody holds it and it has a frame to
      send; whoever holds it may be given any number of bytes of what is left. */
  lemma AnyOrderAnyCut(w: World, t: nat, n: nat)
    ensures Enabled(w, Acquire(t))
            <==> w.holder == None && t < |w.threads| && w.threads[t].Idle? && w.threads[t].todo != []
    ensures t < |w.threads| && AtSegment(w.threads[t]) ==>
              var left := Segment(w.threads[t])[w.threads[t].written..];
              && (Enabled(w, Push(t, n)) <==> 0 < n <= |left|)
              && (0 < n <= |left| ==> After(w, Push(t, n)).wire == w.wire + left[..n])
  {
    hide Segments;
  }

  /** Any goroutines may be started. */
  lemma {:induction false} AnyPrograms(programs: seq<seq<Frame>>) returns (schedule: seq<Action>)
    ensures Execute(START, schedule).Some?
    ensures var w := Execute(START, schedule).value;
            && w.programs == programs && w.wire == "" && w.holder == None && w.log == []
            && |w.threads| == |programs| && forall t :: 0 <= t < |programs| ==> w.threads[t] == Idle(programs[t])
    decreases |programs|
  {
    if programs == [] {
      schedule := [];
    } else {
      var n := |programs| - 1;
      schedule := AnyPrograms(programs[..n]);
      ExecuteSnoc(START, schedule, Spawn(programs[n]));
      schedule := schedule + [Spawn(programs[n])];
    }
  }
}
