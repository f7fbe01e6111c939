/** What the WRITE frames of the stream worker do to the destination file. */
module StreamLaws {
  import opened Text
  import opened Frames
  import opened StreamWorker

  // ---------- The destination file ----------

  function Zeros(n: nat): (z: string)
    ensures |z| == n
  {
    seq(n, _ => 0 as char)
  }

  /** Writing bytes at an offset: a gap is filled with zeros, an empty write does nothing. */
  function WriteAt(file: string, offset: nat, data: string): (r: string)
    ensures data == "" ==> r == file
    ensures data != "" ==> |r| == if offset + |data| > |file| then offset + |data| else |file|
  {
    if data == "" then file
    else
      var base := if |file| < offset then file + Zeros(offset - |file|) else file;
      base[..offset] + data + (if offset + |data| < |base| then base[offset + |data|..] else "")
  }

  predicate WritesAt(f: Frame) {
    f.Write? && f.offset >= 0
  }

  function ApplyFrames(file: string, fs: seq<Frame>): string
    requires forall i :: 0 <= i < |fs| ==> WritesAt(fs[i])
    decreases |fs|
  {
    if fs == [] then file
    else
      assert WritesAt(fs[0]);
      ApplyFrames(WriteAt(file, fs[0].offset, fs[0].payload), fs[1..])
  }

  lemma {:induction false} ApplyAppend(file: string, a: seq<Frame>, b: seq<Frame>)
    requires forall i :: 0 <= i < |a + b| ==> WritesAt((a + b)[i])
    ensures forall i :: 0 <= i < |a| ==> WritesAt(a[i])
    ensures forall i :: 0 <= i < |b| ==> WritesAt(b[i])
    ensures ApplyFrames(file, a + b) == ApplyFrames(ApplyFrames(file, a), b)
    decreases |a|
  {
    hide WriteAt;
    forall i | 0 <= i < |a| ensures WritesAt(a[i]) { assert (a + b)[i] == a[i]; }
    forall i | 0 <= i < |b| ensures WritesAt(b[i]) { assert (a + b)[i + |a|] == b[i]; }
    if a == [] {
      assert a + b == b;
    } else {
      assert (a + b)[1..] == a[1..] + b;
      ApplyAppend(WriteAt(file, a[0].offset, a[0].payload), a[1..], b);
    }
  }

  lemma WriteAtEnd(file: string, data: string)
    ensures WriteAt(file, |file|, data) == file + data
  {
    assert file[..|file|] == file;
  }

  // ---------- Chunks ----------

  /** The bytes a reader delivers up to and with its first error. */
  function Data(script: seq<ReadStep>): string
    decreases |script|
  {
    if script == [] then ""
    else if script[0].err != NoError then script[0].data
    else script[0].data + Data(script[1..])
  }

  /** Data cut into pieces of `chunk` bytes, the last one possibly shorter. */
  function Chunks(dest: string, data: string, chunk: nat, offset: nat): seq<Frame>
    requires chunk > 0
    decreases |data|
  {
    if data == "" then []
    else if |data| <= chunk then [Write(dest, offset, data)]
    else [Write(dest, offset, data[..chunk])] + Chunks(dest, data[chunk..], chunk, offset + chunk)
  }

  lemma ChunksFull(dest: string, data: string, rest: string, chunk: nat, offset: nat)
    requires |data| == chunk > 0
    ensures Chunks(dest, data + rest, chunk, offset)
         == [Write(dest, offset, data)] + Chunks(dest, rest, chunk, offset + chunk)
  {
    assert (data + rest)[..chunk] == data && (data + rest)[chunk..] == rest;
    if rest == "" {
      assert data + rest == data;
    }
  }

  /** However the reader slices its data, the frames are the chunks of the data. */
  lemma {:induction false} FramesAreChunks(dest: string, script: seq<ReadStep>, chunk: nat, held: string, offset: nat)
    requires |held| < chunk && WellBehaved(script, chunk, |held|)
    ensures StreamFrames(dest, script, chunk, held, offset) == Chunks(dest, held + Data(script), chunk, offset)
    decreases |script|
  {
    hide Chunks;
    StreamStep(dest, script, chunk, held, offset);
    var now := held + script[0].data;
    if script[0].err != NoError {
      LastChunk(dest, now, chunk, offset);
    } else {
      var rest := Data(script[1..]);
      Assoc(held, script[0].data, rest);
      if |now| == chunk {
        FramesAreChunks(dest, script[1..], chunk, "", offset + |now|);
        assert "" + rest == rest;
        ChunksFull(dest, now, rest, chunk, offset);
      } else {
        FramesAreChunks(dest, script[1..], chunk, now, offset);
      }
    }
  }

  lemma LastChunk(dest: string, now: string, chunk: nat, offset: nat)
    requires |now| <= chunk && chunk > 0
    ensures Chunks(dest, now, chunk, offset) == if |now| > 0 then [Write(dest, offset, now)] else []
  {
  }

  /** `n` is the least number of pieces of `chunk` that hold `size` bytes: ceil(size / chunk). */
  predicate CeilDiv(size: nat, chunk: nat, n: nat) {
    (n - 1) * chunk < size <= n * chunk
  }

  lemma CeilStep(size: nat, chunk: nat, n: nat)
    requires CeilDiv(size, chunk, n)
    ensures CeilDiv(size + chunk, chunk, n + 1)
  {
    assert (n + 1) * chunk == n * chunk + chunk;
    assert (n - 1) * chunk + chunk == n * chunk;
  }

  /** How many chunks, and what they hold. */
  lemma {:induction false} ChunkCount(dest: string, data: string, chunk: nat, offset: nat)
    requires chunk > 0
    ensures var fs := Chunks(dest, data, chunk, offset);
            && CeilDiv(|data|, chunk, |fs|)
            && (forall i :: 0 <= i < |fs| ==> fs[i].Write? && fs[i].dest == dest && 0 < |fs[i].payload| <= chunk)
            && (forall i :: 0 <= i < |fs| - 1 ==> |fs[i].payload| == chunk)
    decreases |data|
  {
    if |data| > chunk {
      ChunkCount(dest, data[chunk..], chunk, offset + chunk);
      CeilStep(|data| - chunk, chunk, |Chunks(dest, data[chunk..], chunk, offset + chunk)|);
    }
  }

  lemma {:induction false} ChunkOffset(dest: string, data: string, chunk: nat, offset: nat, i: nat)
    requires chunk > 0 && i < |Chunks(dest, data, chunk, offset)|
    ensures Chunks(dest, data, chunk, offset)[i].Write?
    ensures Chunks(dest, data, chunk, offset)[i].offset == offset + i * chunk
    decreases |data|
  {
    if i > 0 {
      ChunkOffset(dest, data[chunk..], chunk, offset + chunk, i - 1);
      assert (i - 1) * chunk + chunk == i * chunk;
    }
  }

  lemma ChunksUnfold(dest: string, data: string, chunk: nat, offset: nat)
    requires chunk > 0
    ensures Chunks(dest, data, chunk, offset) ==
            if data == "" then []
            else if |data| <= chunk then [Write(dest, offset, data)]
            else [Write(dest, offset, data[..chunk])] + Chunks(dest, data[chunk..], chunk, offset + chunk)
  {
  }

  lemma ApplyNone(file: string)
    ensures ApplyFrames(file, []) == file
  {
  }

  lemma ApplyFirst(file: string, data: string, dest: string, rest: seq<Frame>)
    requires forall i :: 0 <= i < |rest| ==> WritesAt(rest[i])
    ensures var fs := [Write(dest, |file|, data)] + rest;
            && (forall i :: 0 <= i < |fs| ==> WritesAt(fs[i]))
            && ApplyFrames(file, fs) == ApplyFrames(file + data, rest)
  {
    hide WriteAt;
    WriteAtEnd(file, data);
    assert ([Write(dest, |file|, data)] + rest)[1..] == rest;
  }

  lemma {:induction false} ApplyChunks(dest: string, file: string, data: string, chunk: nat)
    requires chunk > 0
    ensures forall i :: 0 <= i < |Chunks(dest, data, chunk, |file|)| ==> WritesAt(Chunks(dest, data, chunk, |file|)[i])
    ensures ApplyFrames(file, Chunks(dest, data, chunk, |file|)) == file + data
    decreases |data|
  {
    hide Chunks;
    hide WritesAt;
    hide ApplyFrames;
    ChunksUnfold(dest, data, chunk, |file|);
    ApplyNone(file);
    if data == "" {
      assert file + data == file;
    } else if |data| <= chunk {
      ApplyFirst(file, data, dest, []);
      ApplyNone(file + data);
      assert [Write(dest, |file|, data)] + [] == [Write(dest, |file|, data)];
    } else {
      var head, tail := data[..chunk], data[chunk..];
      ApplyChunks(dest, file + head, tail, chunk);
      ApplyFirst(file, head, dest, Chunks(dest, tail, chunk, |file + head|));
      assert data == head + tail;
      Assoc(file, head, tail);
    }
  }

  /** Streaming reassembles the source.  For any well-behaved reader (short reads,
      empty reads, data returned together with the error) the frames of sendStream
      start at 0 and are contiguous, are exactly `chunk` bytes except a non-empty
      last one, are ceil(total / chunk) many, and turn an empty file into exactly
      the bytes read. */
  lemma StreamReassembles(dest: string, script: seq<ReadStep>, chunk: nat)
    requires chunk > 0 && WellBehaved(script, chunk, 0)
    ensures var fs, data := StreamFrames(dest, script, chunk, "", 0), Data(script);
            && CeilDiv(|data|, chunk, |fs|)
            && (forall i :: 0 <= i < |fs| ==> WritesAt(fs[i]) && fs[i].dest == dest && fs[i].offset == i * chunk)
            && (forall i :: 0 <= i < |fs| - 1 ==> |fs[i].payload| == chunk)
            && (fs != [] ==> 0 < |fs[|fs| - 1].payload| <= chunk)
            && ApplyFrames("", fs) == data
  {
    hide StreamFrames;
    hide Chunks;
    FramesAreChunks(dest, script, chunk, "", 0);
    assert "" + Data(script) == Data(script);
    ChunkCount(dest, Data(script), chunk, 0);
    forall i | 0 <= i < |StreamFrames(dest, script, chunk, "", 0)|
      ensures StreamFrames(dest, script, chunk, "", 0)[i].offset == i * chunk
    {
      ChunkOffset(dest, Data(script), chunk, 0, i);
    }
    ApplyChunks(dest, "", Data(script), chunk);
  }

  /** The chunk size must be positive: with a chunk size of zero every frame is
      empty, so whatever the reader holds the destination stays empty. */
  lemma {:induction false} ZeroChunkSendsNothing(dest: string, script: seq<ReadStep>, offset: nat)
    requires WellBehaved(script, 0, 0)
    ensures forall i :: 0 <= i < |StreamFrames(dest, script, 0, "", offset)| ==>
              StreamFrames(dest, script, 0, "", offset)[i] == Write(dest, offset, "")
    ensures |StreamFrames(dest, script, 0, "", offset)| >= 1
    decreases |script|
  {
    hide StreamFrames;
    StreamStep(dest, script, 0, "", offset);
    assert "" + script[0].data == "";
    if script[0].err == NoError {
      ZeroChunkSendsNothing(dest, script[1..], offset);
    }
  }

  // ---------- Blocks ----------

  /** After an error the reader returns empty blocks with an error. */
  predicate Sticky(script: seq<BlockStep>) {
    forall i, j :: 0 <= i < j < |script| && script[i].err != NoError ==>
      script[j].buffer == "" && script[j].err != NoError
  }

  /** The bytes of all blocks, and of the blocks before position i. */
  function Bytes(script: seq<BlockStep>): string
    decreases |script|
  {
    if script == [] then "" else script[0].buffer + Bytes(script[1..])
  }

  /** The blocks before the empty block that ends the stream. */
  function Blocks(script: seq<BlockStep>): (n: nat)
    ensures n <= |script|
    decreases |script|
  {
    if script == [] || (script[0].buffer == "" && script[0].err != NoError) then 0 else 1 + Blocks(script[1..])
  }

  /** Where a block goes when `total` bytes went before it. */
  function Place(b: BlockStep, total: nat): int {
    if b.position == -1 then total else b.position
  }

  lemma {:induction false} BytesSnoc(script: seq<BlockStep>, i: nat)
    requires i < |script|
    ensures Bytes(script[..i + 1]) == Bytes(script[..i]) + script[i].buffer
    decreases i
  {
    if i == 0 {
      assert script[..1] == [script[0]] && script[..1][1..] == [];
    } else {
      BytesSnoc(script[1..], i - 1);
      assert script[..i + 1][1..] == script[1..][..i] && script[..i][1..] == script[1..][..i - 1];
      Assoc(script[0].buffer, Bytes(script[1..][..i - 1]), script[i].buffer);
    }
  }

  /** Every block before the end is sent exactly once, in order, at its explicit
      position or at the running total. */
  lemma {:induction false} BlocksInOrder(dest: string, script: seq<BlockStep>, total: nat)
    ensures |BlockFrames(dest, script, total)| == Blocks(script)
    ensures forall i :: 0 <= i < Blocks(script) ==>
              BlockFrames(dest, script, total)[i]
              == Write(dest, Place(script[i], total + |Bytes(script[..i])|), script[i].buffer)
    decreases |script|
  {
    if Blocks(script) > 0 {
      var rest, fs := script[1..], BlockFrames(dest, script, total);
      BlocksInOrder(dest, rest, total + |script[0].buffer|);
      forall i | 0 <= i < Blocks(script)
        ensures fs[i] == Write(dest, Place(script[i], total + |Bytes(script[..i])|), script[i].buffer)
      {
        if i > 0 {
          assert fs[i] == BlockFrames(dest, rest, total + |script[0].buffer|)[i - 1];
          assert script[..i][1..] == rest[..i - 1];
        }
      }
    }
  }

  /** A sticky reader has nothing after the end: every byte it returned is sent. */
  lemma {:induction false} StickySendsAll(script: seq<BlockStep>)
    requires Sticky(script)
    ensures Bytes(script[..Blocks(script)]) == Bytes(script)
    decreases |script|
  {
    if script != [] {
      var rest := script[1..];
      assert Sticky(rest);
      if Blocks(script) == 0 {
        AllEmpty(script);
      } else {
        StickySendsAll(rest);
        assert script[..Blocks(script)][1..] == rest[..Blocks(rest)];
      }
    } else {
      assert script[..0] == [];
    }
  }

  lemma {:induction false} AllEmpty(script: seq<BlockStep>)
    requires script != [] && Sticky(script) && script[0].buffer == "" && script[0].err != NoError
    ensures Bytes(script) == ""
    decreases |script|
  {
    if |script| > 1 {
      assert Sticky(script[1..]);
      AllEmpty(script[1..]);
    }
  }

  /** Every explicit position is at most the number of bytes sent before it. */
  predicate WithinTotal(script: seq<BlockStep>) {
    forall i :: 0 <= i < |script| ==> -1 <= script[i].position <= |Bytes(script[..i])|
  }

  /** Applying one more block. */
  function Land(file: string, b: BlockStep, total: nat): string
    requires Place(b, total) >= 0
  {
    WriteAt(file, Place(b, total), b.buffer)
  }

  /** The destination after some blocks, from an empty file. */
  function Destination(script: seq<BlockStep>): string
    requires forall i :: 0 <= i < |script| ==> script[i].position >= -1
    decreases |script|
  {
    if script == [] then ""
    else
      var n := |script| - 1;
      Land(Destination(script[..n]), script[n], |Bytes(script[..n])|)
  }

  lemma {:induction false} DestinationIsApply(dest: string, script: seq<BlockStep>, k: nat)
    requires k <= Blocks(script)
    requires forall i :: 0 <= i < |script| ==> script[i].position >= -1
    ensures |BlockFrames(dest, script, 0)| == Blocks(script)
    ensures forall i :: 0 <= i < k ==> WritesAt(BlockFrames(dest, script, 0)[i])
    ensures ApplyFrames("", BlockFrames(dest, script, 0)[..k]) == Destination(script[..k])
    decreases k
  {
    hide WriteAt;
    hide BlockFrames;
    BlocksInOrder(dest, script, 0);
    var fs := BlockFrames(dest, script, 0);
    if k > 0 {
      DestinationIsApply(dest, script, k - 1);
      assert fs[..k] == fs[..k - 1] + [fs[k - 1]];
      ApplyAppend("", fs[..k - 1], [fs[k - 1]]);
      ApplyOne(ApplyFrames("", fs[..k - 1]), fs[k - 1]);
      assert script[..k][..k - 1] == script[..k - 1];
    } else {
      assert fs[..0] == [];
    }
  }

  lemma ApplyOne(file: string, f: Frame)
    requires WritesAt(f)
    ensures ApplyFrames(file, [f]) == WriteAt(file, f.offset, f.payload)
  {
    assert [f][1..] == [];
  }

  /** The last block with any bytes was placed at the running total, or there is none. */
  predicate LastAtTotal(script: seq<BlockStep>)
    decreases |script|
  {
    script == [] ||
    var n := |script| - 1;
    if script[n].buffer == "" then LastAtTotal(script[..n])
    else Place(script[n], |Bytes(script[..n])|) == |Bytes(script[..n])|
  }

  /** With positions inside what was sent the destination never ends beyond the running
      total, and ends exactly there if and only if the last block with any bytes
      was placed at the running total.  So a block at -1 lands at the true end of
      the destination exactly in that case, although the interface promises it always. */
  lemma {:induction false} EndOfDestination(script: seq<BlockStep>)
    requires WithinTotal(script)
    ensures |Destination(script)| <= |Bytes(script)|
    ensures |Destination(script)| == |Bytes(script)| <==> LastAtTotal(script)
    decreases |script|
  {
    if script != [] {
      var n := |script| - 1;
      forall i | 0 <= i < n ensures -1 <= script[..n][i].position <= |Bytes(script[..n][..i])| {
        assert script[..n][..i] == script[..i];
      }
      EndOfDestination(script[..n]);
      BytesSnoc(script, n);
      assert script[..n + 1] == script;
    }
  }

  /** Positions as the interface documents them: -1, or a place inside the destination. */
  predicate Documented(script: seq<BlockStep>) {
    && (forall i :: 0 <= i < |script| ==> script[i].position >= -1)
    && (forall i :: 0 <= i < |script| ==>
          script[i].position == -1 || script[i].position < |Destination(script[..i])|)
  }

  lemma DocumentedPrefix(script: seq<BlockStep>, n: nat)
    requires Documented(script) && n <= |script|
    ensures Documented(script[..n])
  {
    hide Destination;
    forall i | 0 <= i < n
      ensures script[i].position == -1 || script[i].position < |Destination(script[..n][..i])|
    {
      assert script[..n][..i] == script[..i];
    }
  }

  /** Documented positions are inside what was sent. */
  lemma {:induction false} DocumentedWithinTotal(script: seq<BlockStep>)
    requires Documented(script)
    ensures WithinTotal(script)
    decreases |script|
  {
    hide Destination;
    hide Bytes;
    hide LastAtTotal;
    hide Documented;
    forall i | 0 <= i < |script| ensures -1 <= script[i].position <= |Bytes(script[..i])| {
      DocumentedPrefix(script, i);
      DocumentedWithinTotal(script[..i]);
      EndOfDestination(script[..i]);
      DocumentedAt(script, i);
    }
  }

  lemma DocumentedAt(script: seq<BlockStep>, i: nat)
    requires Documented(script) && i < |script|
    ensures -1 <= script[i].position && (script[i].position == -1 || script[i].position < |Destination(script[..i])|)
  {
    hide Destination;
  }

  /** If every explicit position is the number of bytes so far, the destination is
      the concatenation of the blocks. */
  lemma {:induction false} InOrderConcatenates(script: seq<BlockStep>)
    requires forall i :: 0 <= i < |script| ==> script[i].position == -1 || script[i].position == |Bytes(script[..i])|
    ensures Destination(script) == Bytes(script)
    decreases |script|
  {
    hide WriteAt;
    if script != [] {
      var n := |script| - 1;
      forall i | 0 <= i < n
        ensures script[..n][i].position == -1 || script[..n][i].position == |Bytes(script[..n][..i])|
      {
        assert script[..n][..i] == script[..i];
      }
      InOrderConcatenates(script[..n]);
      WriteAtEnd(Bytes(script[..n]), script[n].buffer);
      BytesSnoc(script, n);
      assert script[..n + 1] == script;
    }
  }

  /** Exactly when a block at -1 is sent to the end of the destination: its offset is the
      end of what the frames before it give if and only if the last block before it
      with any bytes was placed at the running total. */
  lemma AppendsAtEndExactly(dest: string, script: seq<BlockStep>, i: nat)
    requires WithinTotal(script) && i < Blocks(script) && script[i].position == -1
    ensures var fs := BlockFrames(dest, script, 0);
            && i < |fs| && (forall j :: 0 <= j < i ==> WritesAt(fs[j])) && fs[i].Write?
            && (fs[i].offset == |ApplyFrames("", fs[..i])| <==> LastAtTotal(script[..i]))
  {
    hide BlockFrames;
    hide ApplyFrames;
    hide Destination;
    hide LastAtTotal;
    hide Blocks;
    BlocksInOrder(dest, script, 0);
    DestinationIsApply(dest, script, i);
    assert WithinTotal(script[..i]) by {
      forall j | 0 <= j < i ensures -1 <= script[..i][j].position <= |Bytes(script[..i][..j])| {
        assert script[..i][..j] == script[..j];
      }
    }
    EndOfDestination(script[..i]);
  }

  /** After a rewrite a block at -1 misses the end: it is sent to offset 4 of a
      destination that ends at 3, and leaves a hole of one byte. */
  lemma AppendAfterRewriteLeavesHole(dest: string)
    ensures var script := [BlockStep("abc", -1, NoError), BlockStep("X", 0, NoError), BlockStep("d", -1, NoError)];
            && Documented(script)
            && |Destination(script[..2])| == 3 && |Bytes(script[..2])| == 4
            && BlockFrames(dest, script, 0)
               == [Write(dest, 0, "abc"), Write(dest, 0, "X"), Write(dest, 4, "d")]
            && Destination(script) == "Xbc" + [0 as char] + "d"
  {
    var script := [BlockStep("abc", -1, NoError), BlockStep("X", 0, NoError), BlockStep("d", -1, NoError)];
    RewriteSizes(script);
    RewriteFrames(dest, script);
    RewriteFile(script);
  }

  lemma RewriteSizes(script: seq<BlockStep>)
    requires script == [BlockStep("abc", -1, NoError), BlockStep("X", 0, NoError), BlockStep("d", -1, NoError)]
    ensures Documented(script)
    ensures |Bytes(script[..2])| == 4 && Destination(script[..2]) == "Xbc"
  {
    assert script[..0] == [] && script[..1] == [script[0]] && script[..2] == [script[0], script[1]];
    BytesSnoc(script, 0);
    BytesSnoc(script, 1);
    assert script[..2][..1] == script[..1] && script[..1][..0] == [];
    assert Destination(script[..1]) == WriteAt("", 0, "abc") == "abc";
    assert Destination(script[..2]) == WriteAt(Destination(script[..1]), 0, "X");
    assert "abc"[1..] == "bc" && "X" + "bc" == "Xbc";
  }

  lemma RewriteFrames(dest: string, script: seq<BlockStep>)
    requires script == [BlockStep("abc", -1, NoError), BlockStep("X", 0, NoError), BlockStep("d", -1, NoError)]
    ensures BlockFrames(dest, script, 0) == [Write(dest, 0, "abc"), Write(dest, 0, "X"), Write(dest, 4, "d")]
  {
    var second, third := script[1..], script[2..];
    assert second[1..] == third && third[1..] == [];
    assert BlockFrames(dest, third, 4) == [Write(dest, 4, "d")] + BlockFrames(dest, [], 5);
    assert BlockFrames(dest, second, 3) == [Write(dest, 0, "X")] + BlockFrames(dest, third, 4);
  }

  lemma RewriteFile(script: seq<BlockStep>)
    requires script == [BlockStep("abc", -1, NoError), BlockStep("X", 0, NoError), BlockStep("d", -1, NoError)]
    ensures Destination(script) == "Xbc" + [0 as char] + "d"
  {
    hide Documented;
    RewriteSizes(script);
    assert Destination(script) == WriteAt(Destination(script[..2]), |Bytes(script[..2])|, "d");
    assert Zeros(1) == [0 as char];
    var base := "Xbc" + Zeros(1);
    assert base[..4] == base;
  }

  /** The whole of sendStreamReader for a sticky reader whose explicit positions are
      the bytes so far: the file is the concatenation of all blocks. */
  lemma StreamReaderReassembles(dest: string, script: seq<BlockStep>)
    requires Sticky(script)
    requires forall i :: 0 <= i < |script| ==> script[i].position == -1 || script[i].position == |Bytes(script[..i])|
    ensures forall i :: 0 <= i < |BlockFrames(dest, script, 0)| ==> WritesAt(BlockFrames(dest, script, 0)[i])
    ensures ApplyFrames("", BlockFrames(dest, script, 0)) == Bytes(script)
  {
    hide BlockFrames;
    hide WriteAt;
    hide Destination;
    var k, fs := Blocks(script), BlockFrames(dest, script, 0);
    DestinationIsApply(dest, script, k);
    assert fs[..k] == fs;
    forall i | 0 <= i < k
      ensures script[..k][i].position == -1 || script[..k][i].position == |Bytes(script[..k][..i])|
    {
      assert script[..k][..i] == script[..i];
    }
    InOrderConcatenates(script[..k]);
    StickySendsAll(script);
  }

  // ---------- From the reader to the destination ----------

  lemma JobFramesValid(dest: string, fs: seq<Frame>)
    requires OneLine(dest) && forall i :: 0 <= i < |fs| ==> fs[i].Write? && fs[i].dest == dest
    ensures AllValid([Put(dest)] + fs + [Close(dest)])
  {
    var all := [Put(dest)] + fs + [Close(dest)];
    forall i | 0 <= i < |all| ensures all[i].Valid() {
      assert 0 < i <= |fs| ==> all[i] == fs[i - 1];
    }
  }

  lemma JobOnWire(earlier: seq<Frame>, after: string, job: seq<Frame>)
    requires AllValid(earlier) && AllValid(job) && after == EncodeAll(earlier) + EncodeAll(job)
    ensures DecodeAll(after) == (earlier + job, "")
  {
    hide DecodeAll;
    hide EncodeAll;
    EncodeAllAppend(earlier, job);
    WireReadBackExactly(earlier + job);
  }

  /** A well-behaved reader ends with an error, be it the end of its data. */
  lemma {:induction false} EndsWithError(script: seq<ReadStep>, chunk: nat, held: nat)
    requires WellBehaved(script, chunk, held)
    ensures FinalError(script) != NoError
    decreases |script|
  {
    if script[0].err == NoError {
      EndsWithError(script[1..], chunk, if held + |script[0].data| == chunk then 0 else held + |script[0].data|);
    }
  }

  lemma {:induction false} BlocksEndWithError(script: seq<BlockStep>)
    ensures BlockError(script) != NoError
    decreases |script|
  {
    if script != [] {
      BlocksEndWithError(script[1..]);
    }
  }

  /** A reader that fills the buffer with every read, and then returns what is left of
      its data together with the error, is a well-behaved one. */
  lemma {:induction false} FullReadsBehave(script: seq<ReadStep>, chunk: nat, held: nat)
    requires script != [] && script[|script| - 1].err != NoError
    requires forall i :: 0 <= i < |script| - 1 ==> script[i].err == NoError
    requires held + |script[0].data| <= chunk
    requires forall i :: 0 <= i < |script| - 1 ==> |script[i].data| == chunk - (if i == 0 then held else 0)
    requires |script[|script| - 1].data| <= chunk
    ensures WellBehaved(script, chunk, held)
    decreases |script|
  {
    if |script| > 1 {
      FullReadsBehave(script[1..], chunk, 0);
    }
  }

  /** A stream from end to end: when no write fails, the peer reads from
      the wire the earlier frames and this job's PUT, WRITEs and CLOSE, the WRITEs
      give exactly the bytes of the reader, and nothing is reported if and only if
      the reader ended without a failure. */
  lemma StreamDelivered(earlier: seq<Frame>, after: string, dest: string, script: seq<ReadStep>, chunk: nat,
                        report: Option<StreamErr>)
    requires AllValid(earlier) && OneLine(dest) && chunk > 0 && WellBehaved(script, chunk, 0)
    requires JobWire(EncodeAll(earlier), after, dest, StreamFrames(dest, script, chunk, "", 0), FinalError(script),
                     report, 0)
    ensures var fs := StreamFrames(dest, script, chunk, "", 0);
            && DecodeAll(after) == (earlier + ([Put(dest)] + fs + [Close(dest)]), "")
            && (forall i :: 0 <= i < |fs| ==> WritesAt(fs[i]) && fs[i].dest == dest)
            && ApplyFrames("", fs) == Data(script)
    ensures report == None <==> FinalError(script) == EndOfFile
  {
    hide JobWire;
    hide StreamFrames;
    hide ApplyFrames;
    hide DecodeAll;
    hide EncodeAll;
    hide AllValid;
    var fs := StreamFrames(dest, script, chunk, "", 0);
    StreamReassembles(dest, script, chunk);
    UnbrokenJob(EncodeAll(earlier), after, dest, fs, FinalError(script), report);
    EndsWithError(script, chunk, 0);
    JobFramesValid(dest, fs);
    JobOnWire(earlier, after, [Put(dest)] + fs + [Close(dest)]);
  }

  lemma {:induction false} BlockFramesAreWrites(dest: string, script: seq<BlockStep>, total: nat)
    ensures forall i :: 0 <= i < |BlockFrames(dest, script, total)| ==>
              BlockFrames(dest, script, total)[i].Write? && BlockFrames(dest, script, total)[i].dest == dest
    decreases |script|
  {
    hide Bytes;
    BlocksInOrder(dest, script, total);
  }

  /** The same for sendStreamReader and a sticky reader whose explicit positions are the
      bytes so far. */
  lemma BlocksDelivered(earlier: seq<Frame>, after: string, dest: string, script: seq<BlockStep>,
                        report: Option<StreamErr>)
    requires AllValid(earlier) && OneLine(dest) && Sticky(script)
    requires forall i :: 0 <= i < |script| ==> script[i].position == -1 || script[i].position == |Bytes(script[..i])|
    requires BlockJobWire(EncodeAll(earlier), after, dest, BlockFrames(dest, script, 0), BlockError(script),
                          report, 0)
    ensures var fs := BlockFrames(dest, script, 0);
            && DecodeAll(after) == (earlier + ([Put(dest)] + fs + [Close(dest)]), "")
            && (forall i :: 0 <= i < |fs| ==> WritesAt(fs[i]) && fs[i].dest == dest)
            && ApplyFrames("", fs) == Bytes(script)
    ensures report == None <==> BlockError(script) == EndOfFile
  {
    hide BlockJobWire;
    hide BlockFrames;
    hide ApplyFrames;
    hide DecodeAll;
    hide EncodeAll;
    hide AllValid;
    var fs := BlockFrames(dest, script, 0);
    StreamReaderReassembles(dest, script);
    BlockFramesAreWrites(dest, script, 0);
    UnbrokenBlockJob(EncodeAll(earlier), after, dest, fs, BlockError(script), report);
    BlocksEndWithError(script);
    JobFramesValid(dest, fs);
    JobOnWire(earlier, after, [Put(dest)] + fs + [Close(dest)]);
  }
}
