/** The stream worker: it turns a reader into PUT, WRITE and CLOSE frames on the
    management connection. */
module StreamWorker {
  import opened Text
  import opened Frames
  import opened Connection

  /** The error variable of the read loops.  `WriteFailure` is an error of the
      connection, which sendStreamReader keeps in the same variable. */
  datatype ReadError = NoError | EndOfFile | SourceFailure | WriteFailure

  /** What one call of io.Reader.Read returned. */
  datatype ReadStep = ReadStep(data: string, err: ReadError)

  /** What one call of StreamReader.Read returned. */
  datatype BlockStep = BlockStep(buffer: string, position: int, err: ReadError)

  /** An io.Reader, as the script of the results it will return. */
  class Reader {
    var script: seq<ReadStep>

    constructor (script: seq<ReadStep>)
      ensures this.script == script
    {
      this.script := script;
    }

    /** Read(buff[from:]).  A reader may use the rest of the slice as scratch space. */
    method Read(buff: array<char>, from: nat) returns (n: nat, err: ReadError)
      requires script != [] && from + |script[0].data| <= buff.Length
      modifies this, buff
      ensures script == old(script)[1..]
      ensures n == |old(script)[0].data| && err == old(script)[0].err
      ensures buff[..from + n] == old(buff[..from]) + old(script)[0].data
    {
      var step := script[0];
      script := script[1..];
      n, err := |step.data|, step.err;
      ghost var before := buff[..from];
      for i := 0 to n
        invariant script == old(script)[1..]
        invariant forall k :: 0 <= k < from ==> buff[k] == before[k]
        invariant forall k :: 0 <= k < i ==> buff[from + k] == step.data[k]
      {
        buff[from + i] := step.data[i];
      }
      assert buff[..from + n] == before + step.data;
    }
  }

  /** A StreamReader, as a script; when the script is used up it keeps returning
      an empty block and the end-of-file error. */
  class BlockReader {
    var script: seq<BlockStep>

    constructor (script: seq<BlockStep>)
      ensures this.script == script
    {
      this.script := script;
    }

    method Read() returns (block: BlockStep)
      modifies this
      ensures old(script) != [] ==> block == old(script)[0] && script == old(script)[1..]
      ensures old(script) == [] ==> block == BlockStep("", 0, EndOfFile) && script == []
    {
      if script == [] {
        block := BlockStep("", 0, EndOfFile);
      } else {
        block := script[0];
        script := script[1..];
      }
    }
  }

  /** What onStreamErr is told. */
  datatype StreamErr = OpenErr | TransferErr(readErr: ReadError, sendErr: bool, closeErr: bool)

  // ---------- What is sent ----------

  /** `held` bytes wait in a buffer of `chunk` bytes; a full buffer, or what is held
      when the reader reports an error, goes out as one WRITE at `offset`. */
  function StreamFrames(dest: string, script: seq<ReadStep>, chunk: nat, held: string, offset: nat): seq<Frame>
    decreases |script|
  {
    if script == [] then []
    else
      var now, failed := held + script[0].data, script[0].err != NoError;
      var flush := |now| == chunk || (|now| > 0 && failed);
      var head := if flush then [Write(dest, offset, now)] else [];
      if failed then head
      else if flush then head + StreamFrames(dest, script[1..], chunk, "", offset + |now|)
      else StreamFrames(dest, script[1..], chunk, now, offset)
  }

  /** A reader that never returns more than it is offered, and at last an error. */
  predicate WellBehaved(script: seq<ReadStep>, chunk: nat, held: nat)
    decreases |script|
  {
    && script != []
    && held + |script[0].data| <= chunk
    && (script[0].err == NoError ==>
          WellBehaved(script[1..], chunk, if held + |script[0].data| == chunk then 0 else held + |script[0].data|))
  }

  /** The error the reader ends with. */
  function FinalError(script: seq<ReadStep>): ReadError
    decreases |script|
  {
    if script == [] then NoError
    else if script[0].err != NoError then script[0].err
    else FinalError(script[1..])
  }

  /** The frames of a StreamReader: each block at its position, or at the running
      total of bytes for position -1.  An error that comes with data is dropped. */
  function BlockFrames(dest: string, script: seq<BlockStep>, total: nat): seq<Frame>
    decreases |script|
  {
    if script == [] || (script[0].buffer == "" && script[0].err != NoError) then []
    else
      var b := script[0];
      [Write(dest, if b.position == -1 then total else b.position, b.buffer)]
      + BlockFrames(dest, script[1..], total + |b.buffer|)
  }

  /** The error that ends a StreamReader. */
  function BlockError(script: seq<BlockStep>): ReadError
    decreases |script|
  {
    if script == [] then EndOfFile
    else if script[0].buffer == "" && script[0].err != NoError then script[0].err
    else BlockError(script[1..])
  }

  /** The wire after some frames: all of them, or a prefix of them and a part of the
      next one when a write failed. */
  ghost predicate WroteFrames(before: string, after: string, fs: seq<Frame>, ok: bool) {
    if ok then after == before + EncodeAll(fs)
    else exists k :: 0 <= k < |fs| && Appended(before + EncodeAll(fs[..k]), after, Encode(fs[k]), false)
  }

  /** The wire after a whole job and its report: a PUT that failed, or PUT, the WRITE
      frames as far as they could be sent, and CLOSE.  Each failure is one failed write
      of the connection, so that CLOSE is tried also after a WRITE has failed. */
  ghost predicate JobWire(before: string, after: string, dest: string, fs: seq<Frame>, err: ReadError,
                          report: Option<StreamErr>, failures: int) {
    (failures == 1 && report == Some(OpenErr) && Appended(before, after, Encode(Put(dest)), false)) ||
    exists mid, e, sendErr, closeErr ::
      JobParts(before, mid, after, dest, fs, e, sendErr, closeErr)
      && failures == CountIf(sendErr) + CountIf(closeErr)
      && (e == err || (sendErr && e == NoError))
      && report == Report(e, sendErr, closeErr)
  }

  ghost predicate JobParts(before: string, mid: string, after: string, dest: string, fs: seq<Frame>,
                           readErr: ReadError, sendErr: bool, closeErr: bool) {
    && WroteFrames(before + Encode(Put(dest)), mid, fs, !sendErr)
    && Appended(mid, after, Encode(Close(dest)), !closeErr)
  }

  /** The same for a StreamReader, whose write failures end up in the read error. */
  ghost predicate BlockJobWire(before: string, after: string, dest: string, fs: seq<Frame>, err: ReadError,
                               report: Option<StreamErr>, failures: int) {
    (failures == 1 && report == Some(OpenErr) && Appended(before, after, Encode(Put(dest)), false)) ||
    exists mid, e, sendErr, closeErr ::
      JobParts(before, mid, after, dest, fs, e, sendErr, closeErr)
      && failures == CountIf(sendErr) + CountIf(closeErr)
      && e == (if sendErr then WriteFailure else err)
      && report == Report(e, false, closeErr)
  }

  /** The condition under which onStreamErr is called. */
  function Report(readErr: ReadError, sendErr: bool, closeErr: bool): Option<StreamErr> {
    if (readErr != NoError && readErr != EndOfFile) || sendErr || closeErr
    then Some(TransferErr(readErr, sendErr, closeErr))
    else None
  }

  /** A job is reported exactly if the reader failed or a frame could not be sent, and
      the report tells which. */
  lemma ReportTells(readErr: ReadError, sendErr: bool, closeErr: bool)
    ensures Report(readErr, sendErr, closeErr) == None
            <==> (readErr == NoError || readErr == EndOfFile) && !sendErr && !closeErr
    ensures match Report(readErr, sendErr, closeErr)
            case None => true
            case Some(report) =>
              report.TransferErr? && report.readErr == readErr
              && (report.sendErr <==> sendErr) && (report.closeErr <==> closeErr)
  {
  }

  class Worker {
    const conn: Conn
    var chunkSize: int

    constructor (conn: Conn, chunkSize: int)
      ensures this.conn == conn && this.chunkSize == chunkSize
    {
      this.conn, this.chunkSize := conn, chunkSize;
    }

    method SendPut(dest: string) returns (ok: bool)
      modifies conn
      ensures Appended(old(conn.wire), conn.wire, Encode(Put(dest)), ok)
      ensures conn.failures == old(conn.failures) + CountIf(!ok)
    {
      hide Encode;
      PutText(dest);
      ok := WriteAll(conn, "FASPMGR 4\nType: PUT\nDestination: " + dest + "\n\n");
    }

    method SendClose(dest: string) returns (ok: bool)
      modifies conn
      ensures Appended(old(conn.wire), conn.wire, Encode(Close(dest)), ok)
      ensures conn.failures == old(conn.failures) + CountIf(!ok)
    {
      hide Encode;
      CloseText(dest);
      ok := WriteAll(conn, "FASPMGR 4\nType: CLOSE\nDestination: " + dest + "\n\n");
    }

    /** Header, payload and blank line are written one after the other. */
    method SendWrite(dest: string, offset: int, payload: string) returns (ok: bool)
      modifies conn
      ensures Appended(old(conn.wire), conn.wire, Encode(Write(dest, offset, payload)), ok)
      ensures conn.failures == old(conn.failures) + CountIf(!ok)
    {
      hide Encode;
      hide PrintInt;
      ghost var before := conn.wire;
      var header := "FASPMGR 4\nType: WRITE\nDestination: " + dest + "\nOffset: " + PrintInt(offset)
                    + "\nSize: " + PrintInt(|payload|) + "\n\n";
      WriteText(dest, offset, payload);
      ok := WriteAll(conn, header);
      AppendedFirst(before, conn.wire, header, payload + "\n\n", ok);
      if !ok { return; }
      ghost var second := conn.wire;
      ok := WriteAll(conn, payload);
      AppendedFirst(second, conn.wire, payload, "\n\n", ok);
      if !ok {
        AppendedThen(before, second, conn.wire, header, payload + "\n\n", false);
        return;
      }
      ghost var third := conn.wire;
      ok := WriteAll(conn, "\n\n");
      AppendedThen(second, third, conn.wire, payload, "\n\n", ok);
      AppendedThen(before, second, conn.wire, header, payload + "\n\n", ok);
    }

    /** sendStream.  The `select` on the terminate channel inside the loop does not
        leave it, so it is not modelled. */
    method SendStream(dest: string, source: Reader) returns (report: Option<StreamErr>)
      requires chunkSize >= 0 && WellBehaved(source.script, chunkSize, 0)
      modifies conn, source
      ensures JobWire(old(conn.wire), conn.wire, dest,
                      StreamFrames(dest, old(source.script), chunkSize, "", 0), FinalError(old(source.script)),
                      report, conn.failures - old(conn.failures))
      ensures old(conn.failures) <= conn.failures
      ensures conn.failures == old(conn.failures) ==> report == Report(FinalError(old(source.script)), false, false)
    {
      hide Encode;
      hide HeaderLines;
      ghost var before, script := conn.wire, source.script;
      var ok := SendPut(dest);
      if !ok {
        return Some(OpenErr);
      }
      ghost var start := before + Encode(Put(dest));
      assert conn.wire == start by { AppendedWhole(before, conn.wire, Encode(Put(dest))); }
      var readErr, sendErr := ReadLoop(dest, source, start);
      ghost var mid := conn.wire;
      var closed := SendClose(dest);
      report := Report(readErr, sendErr, !closed);
      assert JobParts(before, mid, conn.wire, dest, StreamFrames(dest, script, chunkSize, "", 0),
                      readErr, sendErr, !closed);
    }

    /** Sends one more WRITE of a list of frames. */
    method SendNext(dest: string, offset: int, payload: string,
                    ghost start: string, ghost done: seq<Frame>, ghost rest: seq<Frame>) returns (ok: bool)
      requires conn.wire == start + EncodeAll(done)
      modifies conn
      ensures ok ==> conn.wire == start + EncodeAll(done + [Write(dest, offset, payload)])
      ensures !ok ==> WroteFrames(start, conn.wire, done + [Write(dest, offset, payload)] + rest, false)
      ensures conn.failures == old(conn.failures) + CountIf(!ok)
    {
      hide Encode;
      ghost var f, before := Write(dest, offset, payload), conn.wire;
      ok := SendWrite(dest, offset, payload);
      if ok {
        AppendedWhole(before, conn.wire, Encode(f));
        EncodeAllAppend(done, [f]);
        EncodeAllOne(f);
        Assoc(start, EncodeAll(done), Encode(f));
      } else {
        ghost var all := done + [f] + rest;
        assert all[..|done|] == done && all[|done|] == f;
      }
    }

    method ReadLoop(dest: string, source: Reader, ghost start: string) returns (readErr: ReadError, sendErr: bool)
      requires chunkSize >= 0 && WellBehaved(source.script, chunkSize, 0) && conn.wire == start
      modifies conn, source
      ensures WroteFrames(start, conn.wire, StreamFrames(dest, old(source.script), chunkSize, "", 0), !sendErr)
      ensures readErr == FinalError(old(source.script)) || (sendErr && readErr == NoError)
      ensures conn.failures == old(conn.failures) + CountIf(sendErr)
    {
      hide EncodeAll;
      hide WroteFrames;
      hide StreamFrames;
      hide FinalError;
      StartOfFrames(start);
      ghost var all := StreamFrames(dest, source.script, chunkSize, "", 0);
      ghost var done: seq<Frame> := [];
      var bytesRead, currOffset, buff := 0, 0, new char[chunkSize];
      var n;
      readErr, sendErr := NoError, false;
      assert buff[..0] == "";
      while readErr == NoError && !sendErr
        invariant fresh(buff) && buff.Length == chunkSize && 0 <= bytesRead <= chunkSize && 0 <= currOffset
        invariant sendErr ==> WroteFrames(start, conn.wire, all, false)
        invariant conn.failures == old(conn.failures) + CountIf(sendErr)
        invariant !sendErr ==> conn.wire == start + EncodeAll(done)
        invariant !sendErr && readErr == NoError ==>
            all == done + StreamFrames(dest, source.script, chunkSize, buff[..bytesRead], currOffset)
            && WellBehaved(source.script, chunkSize, bytesRead)
            && FinalError(source.script) == FinalError(old(source.script))
        invariant !sendErr && readErr != NoError ==> all == done
        invariant readErr != NoError ==> readErr == FinalError(old(source.script))
        decreases |source.script|, readErr == NoError
      {
        ghost var script, held := source.script, buff[..bytesRead];
        n, readErr := source.Read(buff, bytesRead);
        bytesRead := bytesRead + n;
        assert buff[..bytesRead] == held + script[0].data;
        StreamStep(dest, script, chunkSize, held, currOffset);
        if bytesRead == buff.Length || (bytesRead > 0 && readErr != NoError) {
          ghost var f := Write(dest, currOffset, buff[..bytesRead]);
          ghost var rest := if readErr != NoError then []
                            else StreamFrames(dest, source.script, chunkSize, "", currOffset + bytesRead);
          Assoc(done, [f], rest);
          var ok := SendNext(dest, currOffset, buff[..bytesRead], start, done, rest);
          done := done + [f];
          sendErr := !ok;
          currOffset := currOffset + bytesRead;
          bytesRead := 0;
        }
      }
    }

    /** sendStreamReader.  The result of a write replaces the reader's error. */
    method SendStreamReader(dest: string, source: BlockReader) returns (report: Option<StreamErr>)
      modifies conn, source
      ensures BlockJobWire(old(conn.wire), conn.wire, dest,
                           BlockFrames(dest, old(source.script), 0), BlockError(old(source.script)),
                           report, conn.failures - old(conn.failures))
      ensures old(conn.failures) <= conn.failures
      ensures conn.failures == old(conn.failures) ==> report == Report(BlockError(old(source.script)), false, false)
    {
      hide Encode;
      hide HeaderLines;
      ghost var before, script := conn.wire, source.script;
      var ok := SendPut(dest);
      if !ok {
        return Some(OpenErr);
      }
      ghost var start := before + Encode(Put(dest));
      assert conn.wire == start by { AppendedWhole(before, conn.wire, Encode(Put(dest))); }
      var readErr, failed := BlockLoop(dest, source, start);
      ghost var mid := conn.wire;
      var closed := SendClose(dest);
      report := Report(readErr, false, !closed);
      assert JobParts(before, mid, conn.wire, dest, BlockFrames(dest, script, 0), readErr, failed, !closed);
    }

    method BlockLoop(dest: string, source: BlockReader, ghost start: string)
      returns (readErr: ReadError, ghost failed: bool)
      requires conn.wire == start
      modifies conn, source
      ensures WroteFrames(start, conn.wire, BlockFrames(dest, old(source.script), 0), !failed)
      ensures readErr == if failed then WriteFailure else BlockError(old(source.script))
      ensures conn.failures == old(conn.failures) + CountIf(failed)
    {
      hide EncodeAll;
      hide WroteFrames;
      StartOfFrames(start);
      ghost var all := BlockFrames(dest, source.script, 0);
      ghost var done: seq<Frame> := [];
      var numBytesWritten := 0;
      readErr, failed := NoError, false;
      while readErr == NoError
        invariant 0 <= numBytesWritten
        invariant readErr == if failed then WriteFailure else NoError
        invariant failed ==> WroteFrames(start, conn.wire, all, false)
        invariant conn.failures == old(conn.failures) + CountIf(failed)
        invariant !failed ==>
            && conn.wire == start + EncodeAll(done)
            && all == done + BlockFrames(dest, source.script, numBytesWritten)
            && BlockError(source.script) == BlockError(old(source.script))
        decreases |source.script|, readErr == NoError
      {
        var block := source.Read();
        readErr := block.err;
        if |block.buffer| == 0 && readErr != NoError {
          assert done + [] == done;
          break;
        }
        var position := block.position;
        if position == -1 {
          position := numBytesWritten;
        }
        ghost var f := Write(dest, position, block.buffer);
        ghost var rest := BlockFrames(dest, source.script, numBytesWritten + |block.buffer|);
        Assoc(done, [f], rest);
        var ok := SendNext(dest, position, block.buffer, start, done, rest);
        done := done + [f];
        failed := !ok;
        readErr := if ok then NoError else WriteFailure;
        numBytesWritten := numBytesWritten + |block.buffer|;
      }
    }
  }

  /** A write of the first part of a frame. */
  lemma AppendedFirst(before: string, after: string, first: string, rest: string, ok: bool)
    requires Appended(before, after, first, ok)
    ensures !ok ==> Appended(before, after, first + rest, false)
    ensures ok ==> after == before + first
  {
    var k :| 0 <= k <= |first| && after == before + first[..k] && (ok ==> k == |first|);
    assert (first + rest)[..k] == first[..k];
    assert first[..|first|] == first;
  }

  /** A write of the rest of a frame after its first part. */
  lemma AppendedThen(before: string, mid: string, after: string, first: string, rest: string, ok: bool)
    requires mid == before + first
    requires Appended(mid, after, rest, ok)
    ensures Appended(before, after, first + rest, ok)
  {
    var k :| 0 <= k <= |rest| && after == mid + rest[..k] && (ok ==> k == |rest|);
    assert (first + rest)[..|first| + k] == first + rest[..k];
    Assoc(before, first, rest[..k]);
  }

  lemma AppendedWhole(before: string, after: string, payload: string)
    requires Appended(before, after, payload, true)
    ensures after == before + payload
  {
    assert payload[..|payload|] == payload;
  }

  /** One result of the reader. */
  lemma StreamStep(dest: string, script: seq<ReadStep>, chunk: nat, held: string, offset: nat)
    requires script != []
    ensures var now, failed := held + script[0].data, script[0].err != NoError;
            var flush := |now| == chunk || (|now| > 0 && failed);
            var rest := if failed then []
                        else if flush then StreamFrames(dest, script[1..], chunk, "", offset + |now|)
                        else StreamFrames(dest, script[1..], chunk, now, offset);
            StreamFrames(dest, script, chunk, held, offset)
            == (if flush then [Write(dest, offset, now)] + rest else rest)
    ensures script[0].err != NoError ==> FinalError(script) == script[0].err
    ensures script[0].err == NoError ==> FinalError(script) == FinalError(script[1..])
    ensures WellBehaved(script, chunk, |held|) ==>
              |held + script[0].data| <= chunk
              && (script[0].err == NoError ==>
                    var n := |held + script[0].data|; WellBehaved(script[1..], chunk, if n == chunk then 0 else n))
  {
  }

  lemma StartOfFrames(start: string)
    ensures start + EncodeAll([]) == start
    ensures WroteFrames(start, start, [], true)
    ensures forall after, fs :: after == start + EncodeAll(fs) ==> WroteFrames(start, after, fs, true)
  {
  }

  /** A job whose writes all succeeded is on the wire as one block of whole frames. */
  lemma SuccessfulJob(before: string, mid: string, after: string, dest: string, fs: seq<Frame>, readErr: ReadError)
    requires JobParts(before, mid, after, dest, fs, readErr, false, false)
    ensures after == before + EncodeAll([Put(dest)] + fs + [Close(dest)])
  {
    hide Encode;
    hide EncodeAll;
    AppendedWhole(mid, after, Encode(Close(dest)));
    EncodeAllOne(Put(dest));
    EncodeAllOne(Close(dest));
    EncodeAllAppend([Put(dest)], fs);
    EncodeAllAppend([Put(dest)] + fs, [Close(dest)]);
    Assoc(before, Encode(Put(dest)), EncodeAll(fs));
    Assoc(before, Encode(Put(dest)) + EncodeAll(fs), Encode(Close(dest)));
  }

  /** When sendStream reports nothing, the wire holds exactly PUT, its frames and CLOSE. */
  lemma SilentJob(before: string, after: string, dest: string, fs: seq<Frame>, err: ReadError, failures: int)
    requires JobWire(before, after, dest, fs, err, None, failures)
    ensures after == before + EncodeAll([Put(dest)] + fs + [Close(dest)]) && (err == EndOfFile || err == NoError)
  {
    hide JobParts;
    var mid :| JobParts(before, mid, after, dest, fs, err, false, false) && Report(err, false, false) == None;
    SuccessfulJob(before, mid, after, dest, fs, err);
  }

  /** Without a failed write the whole job is on the wire, whatever error
      the reader ended with, and the report is about that error only. */
  lemma UnbrokenJob(before: string, after: string, dest: string, fs: seq<Frame>, err: ReadError,
                    report: Option<StreamErr>)
    requires JobWire(before, after, dest, fs, err, report, 0)
    ensures after == before + EncodeAll([Put(dest)] + fs + [Close(dest)]) && report == Report(err, false, false)
  {
    hide JobParts;
    hide Report;
    var mid :| JobParts(before, mid, after, dest, fs, err, false, false) && report == Report(err, false, false);
    SuccessfulJob(before, mid, after, dest, fs, err);
  }

  lemma UnbrokenBlockJob(before: string, after: string, dest: string, fs: seq<Frame>, err: ReadError,
                         report: Option<StreamErr>)
    requires BlockJobWire(before, after, dest, fs, err, report, 0)
    ensures after == before + EncodeAll([Put(dest)] + fs + [Close(dest)]) && report == Report(err, false, false)
  {
    hide JobParts;
    hide Report;
    var mid :| JobParts(before, mid, after, dest, fs, err, false, false) && report == Report(err, false, false);
    SuccessfulJob(before, mid, after, dest, fs, err);
  }
}
