/** The stream worker and the session API on one wire: what a peer reads of the jobs
    when commands come in between. */
module SharedWire {
  import opened Text
  import opened Frames
  import WireMutex
  import JobQueue

  /** The frames of the stream worker among others. */
  function StreamPart(fs: seq<Frame>): seq<Frame> {
    if fs == [] then []
    else StreamPart(fs[..|fs| - 1]) + (if fs[|fs| - 1].IsStream() then [fs[|fs| - 1]] else [])
  }

  lemma StreamPartSnoc(fs: seq<Frame>, f: Frame)
    ensures StreamPart(fs + [f]) == StreamPart(fs) + (if f.IsStream() then [f] else [])
  {
    assert (fs + [f])[..|fs|] == fs;
  }

  /** Goroutine `t` is the stream worker: it sends stream frames, the others commands. */
  predicate WorkerIs(programs: seq<seq<Frame>>, t: nat) {
    && t < |programs|
    && (forall f :: f in programs[t] ==> f.IsStream())
    && (forall u :: 0 <= u < |programs| && u != t ==> forall f :: f in programs[u] ==> !f.IsStream())
  }

  lemma {:induction false} StreamPartIsOwn(log: seq<(nat, Frame)>, t: nat)
    requires forall i :: 0 <= i < |log| ==> (log[i].1.IsStream() <==> log[i].0 == t)
    ensures StreamPart(WireMutex.LogFrames(log)) == WireMutex.Own(log, t)
  {
    if log != [] {
      var n := |log| - 1;
      StreamPartIsOwn(log[..n], t);
      assert WireMutex.LogFrames(log) == WireMutex.LogFrames(log[..n]) + [log[n].1];
      StreamPartSnoc(WireMutex.LogFrames(log[..n]), log[n].1);
    }
  }

  /** Who completed a stream frame, and who has one in hand. */
  lemma OnlyWorkerStreams(w: WireMutex.World, t: nat)
    requires WireMutex.Accounted(w) && WorkerIs(w.programs, t)
    ensures forall i :: 0 <= i < |w.log| ==> (w.log[i].1.IsStream() <==> w.log[i].0 == t)
    ensures forall u :: 0 <= u < |w.threads| && w.threads[u].Sending? ==> (w.threads[u].frame.IsStream() <==> u == t)
  {
    hide WireMutex.Own;
    forall i | 0 <= i < |w.log| ensures w.log[i].1.IsStream() <==> w.log[i].0 == t {
      WireMutex.InOwn(w.log, i);
      assert w.log[i].1 in w.programs[w.log[i].0];
    }
    forall u | 0 <= u < |w.threads| && w.threads[u].Sending? ensures w.threads[u].frame.IsStream() <==> u == t {
      assert w.threads[u].frame in WireMutex.Pending(w.threads[u]);
      assert w.threads[u].frame in w.programs[u];
    }
  }

  lemma StreamPartDecodable(w: WireMutex.World, t: nat)
    requires WireMutex.Exclusive(w) && WireMutex.Accounted(w) && WorkerIs(w.programs, t)
    ensures StreamPart(WireMutex.Decodable(w).0) <= w.programs[t]
  {
    hide WireMutex.Own;
    hide WireMutex.LogFrames;
    hide WireMutex.Missing;
    hide WireMutex.Held;
    hide StreamPart;
    OnlyWorkerStreams(w, t);
    StreamPartIsOwn(w.log, t);
    var own := WireMutex.Own(w.log, t);
    assert own + WireMutex.Pending(w.threads[t]) == w.programs[t];
    if w.holder.Some? {
      var th := w.threads[w.holder.value];
      StreamPartSnoc(WireMutex.LogFrames(w.log), th.frame);
      if w.holder.value == t {
        Assoc(own, [th.frame], th.todo);
      }
    }
  }

  function FramesOf(es: seq<JobQueue.Entry>): (r: seq<Frame>)
    ensures |r| == |es| && forall i :: 0 <= i < |es| ==> r[i] == es[i].frame
  {
    seq(|es|, i requires 0 <= i < |es| => es[i].frame)
  }

  lemma {:induction false} QueueSendsStreamFrames(m: JobQueue.Machine, schedule: seq<JobQueue.Action>)
    requires JobQueue.Execute(m, schedule).Some?
    requires forall i :: 0 <= i < |m.wire| ==> m.wire[i].frame.IsStream()
    ensures var r := JobQueue.Execute(m, schedule).value;
            forall i :: 0 <= i < |r.wire| ==> r.wire[i].frame.IsStream()
    decreases |schedule|
  {
    if schedule != [] {
      QueueSendsStreamFrames(JobQueue.After(m, schedule[0]), schedule[1..]);
    }
  }

  /** One SESSION message, no write failure, newline-free paths: from every reachable
      wire the peer reads, among the commands in between, stream frames that are a
      prefix of the job blocks PUT WRITE* CLOSE of the worker. */
  lemma PeerReadsJobBlocks(jobs: seq<JobQueue.Action>, schedule: seq<WireMutex.Action>, t: nat)
    requires JobQueue.Execute(JobQueue.START, jobs).Some? && JobQueue.Sessions(jobs) <= 1
    requires WireMutex.Execute(WireMutex.START, schedule).Some?
    requires var w := WireMutex.Execute(WireMutex.START, schedule).value;
             var m := JobQueue.Execute(JobQueue.START, jobs).value;
             && (forall u :: 0 <= u < |w.programs| ==> AllValid(w.programs[u]))
             && t < |w.programs| && w.programs[t] == FramesOf(m.wire)
             && (forall u :: 0 <= u < |w.programs| && u != t ==> forall f :: f in w.programs[u] ==> !f.IsStream())
    ensures var w := WireMutex.Execute(WireMutex.START, schedule).value;
            var m := JobQueue.Execute(JobQueue.START, jobs).value;
            StreamPart(DecodeAll(w.wire).0) <= FramesOf(m.wire) && JobQueue.InBlocks(m.wire)
  {
    hide WireMutex.Execute;
    hide JobQueue.Execute;
    hide DecodeAll;
    hide StreamPart;
    hide AllValid;
    hide JobQueue.InBlocks;
    hide WireMutex.Decodable;
    hide WireMutex.Exclusive;
    hide WireMutex.Accounted;
    hide EncodeAll;
    hide WireMutex.LogFrames;
    hide WireMutex.Held;
    var w := WireMutex.Execute(WireMutex.START, schedule).value;
    QueueSendsStreamFrames(JobQueue.START, jobs);
    JobQueue.OneWorkerInBlocks(jobs);
    WireMutex.PeerDecodes(schedule);
    WireMutex.StartInv();
    WireMutex.InvExecute(WireMutex.START, schedule);
    StreamPartDecodable(w, t);
  }
}
