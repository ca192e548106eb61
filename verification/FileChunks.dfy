/** Content-addressed files and their manifests: the simple chunker that reads a whole file, and the streaming chunker
  that is fed buffers of any sizes. */
module FileChunks {
  import opened Blocks

  const CHUNK_SIZE: nat := 20000000

  /** The hash is ideal: different contents have different hashes. */
  datatype Sha1 = Sha1(content: Bytes)

  datatype Chunk = Chunk(start: nat, end: nat, sha1: Sha1)

  datatype Manifest = Manifest(size: nat, sha1: Sha1, chunks: seq<Chunk>)

  /** The chunk entries of consecutive blocks. */
  function ChunkList(blocks: seq<Bytes>, start: nat): seq<Chunk> {
    if blocks == [] then []
    else [ChunkOf(start, blocks[0])] + ChunkList(blocks[1..], start + |blocks[0]|)
  }

  function ManifestOf(file: Bytes): Manifest {
    Manifest(|file|, Sha1(file), ChunkList(Split(file, CHUNK_SIZE), 0))
  }

  function ChunkOf(start: nat, block: Bytes): Chunk {
    Chunk(start, start + |block|, Sha1(block))
  }

  lemma {:induction false} ChunkListAppend(blocks: seq<Bytes>, last: Bytes, start: nat)
    ensures ChunkList(blocks + [last], start) == ChunkList(blocks, start) + [ChunkOf(start + |Join(blocks)|, last)]
    decreases |blocks|
  {
    if blocks == [] {
      assert blocks + [last] == [last] && [last][1..] == [];
    } else {
      var rest, next := blocks[1..], start + |blocks[0]|;
      ChunkListAppend(rest, last, next);
      ChunkListCons(blocks[0], rest + [last], start);
      assert blocks + [last] == [blocks[0]] + (rest + [last]);
      Associative([ChunkOf(start, blocks[0])], ChunkList(rest, next), [ChunkOf(next + |Join(rest)|, last)]);
    }
  }

  lemma ChunkListCons(first: Bytes, rest: seq<Bytes>, start: nat)
    ensures ChunkList([first] + rest, start) == [ChunkOf(start, first)] + ChunkList(rest, start + |first|)
  {
    assert ([first] + rest)[1..] == rest;
  }

  lemma Associative<T>(a: seq<T>, b: seq<T>, c: seq<T>)
    ensures (a + b) + c == a + (b + c)
  {
  }

  // ---- What a chunk list says about its file

  /** Consecutive entries that cover the file from `start` on, each hash taken over its own slice. */
  predicate Partitions(chunks: seq<Chunk>, file: Bytes, start: nat) {
    if chunks == [] then start == |file|
    else
      var c := chunks[0];
      && c.start == start && start <= c.end <= |file|
      && c.sha1 == Sha1(file[c.start..c.end])
      && Partitions(chunks[1..], file, c.end)
  }

  lemma {:induction false} ChunkListPartitions(before: Bytes, blocks: seq<Bytes>)
    ensures Partitions(ChunkList(blocks, |before|), before + Join(blocks), |before|)
    decreases |blocks|
  {
    if blocks != [] {
      var file := before + Join(blocks);
      var next := before + blocks[0];
      assert file == next + Join(blocks[1..]);
      assert file[|before|..|next|] == blocks[0];
      ChunkListPartitions(next, blocks[1..]);
    }
  }

  lemma {:induction false} ChunkListLengths(blocks: seq<Bytes>, start: nat)
    ensures |ChunkList(blocks, start)| == |blocks|
    ensures forall i :: 0 <= i < |blocks| ==>
              ChunkList(blocks, start)[i].end - ChunkList(blocks, start)[i].start == |blocks[i]|
              && ChunkList(blocks, start)[i].sha1 == Sha1(blocks[i])
    decreases |blocks|
  {
    if blocks != [] { ChunkListLengths(blocks[1..], start + |blocks[0]|); }
  }

  /** A manifest partitions its file into chunks that are all full but the last. */
  lemma ManifestPartitionsFile(file: Bytes)
    ensures var m := ManifestOf(file);
            && Partitions(m.chunks, file, 0)
            && (forall i :: 0 <= i < |m.chunks| - 1 ==> m.chunks[i].end - m.chunks[i].start == CHUNK_SIZE)
            && (forall i :: 0 <= i < |m.chunks| ==> 0 < m.chunks[i].end - m.chunks[i].start <= CHUNK_SIZE)
  {
    var blocks := Split(file, CHUNK_SIZE);
    JoinSplit(file, CHUNK_SIZE);
    SplitSizes(file, CHUNK_SIZE);
    ChunkListLengths(blocks, 0);
    ChunkListPartitions([], blocks);
    assert [] + Join(blocks) == file;
  }

  /** A file has more than one chunk exactly when it is larger than a chunk. */
  lemma ManyChunksIff(file: Bytes)
    ensures |ManifestOf(file).chunks| > 1 <==> |file| > CHUNK_SIZE
  {
    ChunkListLengths(Split(file, CHUNK_SIZE), 0);
    if file != [] {
      assert |Split(file, CHUNK_SIZE)| > 1 <==> file[Min(CHUNK_SIZE, |file|)..] != [];
    }
  }

  // ---- The simple chunker

  method ComputeManifest(file: Bytes) returns (manifest: Manifest)
    ensures manifest == ManifestOf(file)
  {
    var chunks := [];
    ghost var blocks: seq<Bytes> := [];
    var pos := 0;
    while pos < |file|
      invariant 0 <= pos <= |file| && |Join(blocks)| == pos
      invariant Split(file, CHUNK_SIZE) == blocks + Split(file[pos..], CHUNK_SIZE)
      invariant chunks == ChunkList(blocks, 0)
    {
      var thisChunkSize := Min(CHUNK_SIZE, |file| - pos);
      var buf := file[pos..pos + thisChunkSize];
      NextBlock(file, blocks, pos);
      ChunkListAppend(blocks, buf, 0);
      chunks := chunks + [Chunk(pos, pos + thisChunkSize, Sha1(buf))];
      blocks := blocks + [buf];
      pos := pos + thisChunkSize;
    }
    assert blocks + [] == blocks;
    manifest := Manifest(|file|, Sha1(file), chunks);
  }

  lemma NextBlock(file: Bytes, blocks: seq<Bytes>, pos: nat)
    requires pos < |file| && |Join(blocks)| == pos
    ensures var end := pos + Min(CHUNK_SIZE, |file| - pos);
            && blocks + Split(file[pos..], CHUNK_SIZE) == (blocks + [file[pos..end]]) + Split(file[end..], CHUNK_SIZE)
            && |Join(blocks + [file[pos..end]])| == end
  {
    var end := pos + Min(CHUNK_SIZE, |file| - pos);
    assert file[pos..][..end - pos] == file[pos..end] && file[pos..][end - pos..] == file[end..];
    JoinConcat(blocks, [file[pos..end]]);
    JoinOne(file[pos..end]);
  }

  // ---- The streaming chunker

  predicate AllFull(blocks: seq<Bytes>) {
    forall i :: 0 <= i < |blocks| ==> |blocks[i]| == CHUNK_SIZE
  }

  predicate FullButLast(blocks: seq<Bytes>) {
    && (forall i :: 0 <= i < |blocks| ==> 0 < |blocks[i]| <= CHUNK_SIZE)
    && (forall i :: 0 <= i < |blocks| - 1 ==> |blocks[i]| == CHUNK_SIZE)
  }

  class StreamingChunker {
    var buffers: seq<Bytes>
    var byte1: nat
    var byte2: nat
    var manifestChunks: seq<Chunk>
    var shasum: Bytes
    var complete: bool
    ghost var blocks: seq<Bytes>

    /** The bytes seen are the blocks already listed followed by what is buffered. */
    ghost predicate Accounted()
      reads this
    {
      && Join(blocks) + Join(buffers) == shasum
      && byte1 == |Join(blocks)| && byte2 == |shasum|
      && manifestChunks == ChunkList(blocks, 0)
    }

    ghost predicate Valid()
      reads this
    {
      Accounted() && (!complete ==> AllFull(blocks) && byte2 - byte1 < CHUNK_SIZE)
    }

    constructor ()
      ensures Valid() && shasum == [] && !complete
    {
      buffers, byte1, byte2, manifestChunks, shasum, complete := [], 0, 0, [], [], false;
      blocks := [];
    }

    method OnData(buf: Bytes)
      requires Valid()
      modifies this
      ensures Valid() && complete == old(complete)
      ensures shasum == if old(complete) then old(shasum) else old(shasum) + buf
    {
      if complete { return; }
      shasum := shasum + buf;
      JoinConcat(buffers, [buf]);
      JoinOne(buf);
      buffers := buffers + [buf];
      byte2 := byte2 + |buf|;
      assert Join(blocks) + Join(buffers) == shasum;
      UpdateManifestChunks(false);
    }

    /** Lists the remainder; from here on the list describes everything seen. */
    method OnFinished() returns (manifest: Manifest, manifestStored: bool)
      requires Valid() && !complete
      modifies this
      ensures Valid() && complete && shasum == old(shasum)
      ensures manifest == ManifestOf(shasum)
      ensures manifestStored <==> |shasum| > CHUNK_SIZE
    {
      complete := true;
      UpdateManifestChunks(true);
      SplitUnique(blocks, CHUNK_SIZE);
      assert Join(blocks) == shasum;
      manifest := Manifest(byte2, Sha1(shasum), manifestChunks);
      manifestStored := |manifestChunks| > 1;
      ManyChunksIff(shasum);
    }

    method UpdateManifestChunks(final: bool)
      requires Accounted() && AllFull(blocks)
      modifies this`buffers, this`byte1, this`manifestChunks, this`blocks
      ensures Accounted()
      ensures !final ==> AllFull(blocks) && byte2 - byte1 < CHUNK_SIZE
      ensures final ==> Join(buffers) == [] && FullButLast(blocks)
    {
      if byte2 - byte1 >= CHUNK_SIZE || (final && byte2 > byte1) {
        var d := Join(buffers);
        buffers := [];
        CutIntoBlocks(d, final);
      }
    }

    ghost predicate Listed()
      reads this
    {
      byte1 == |Join(blocks)| && manifestChunks == ChunkList(blocks, 0)
    }

    method CutIntoBlocks(d: Bytes, final: bool)
      requires Listed() && AllFull(blocks) && buffers == [] && Join(blocks) + d == shasum
      modifies this`buffers, this`byte1, this`manifestChunks, this`blocks
      ensures Listed() && FullButLast(blocks) && Join(blocks) + Join(buffers) == shasum
      ensures final ==> buffers == []
      ensures !final ==> AllFull(blocks) && |Join(buffers)| < CHUNK_SIZE
    {
      var i := 0;
      while i < |d|
        invariant 0 <= i && Listed() && FullButLast(blocks)
        invariant (Join(blocks) + Join(buffers)) + d[Min(i, |d|)..] == shasum
        invariant i < |d| ==> AllFull(blocks) && buffers == []
        invariant final ==> buffers == []
        invariant !final ==> AllFull(blocks) && |Join(buffers)| < CHUNK_SIZE
        decreases |d| - i
      {
        var x := d[i..i + Min(CHUNK_SIZE, |d| - i)];
        ghost var rest := d[Min(i + CHUNK_SIZE, |d|)..];
        assert d[i..] == x + rest;
        Associative(Join(blocks), x, rest);
        ListOrKeep(x, final);
        i := i + CHUNK_SIZE;
      }
      assert d[Min(i, |d|)..] == [];
    }

    /** A full block is listed, as is any block at the end; a shorter one is kept for later. */
    method ListOrKeep(x: Bytes, final: bool)
      requires Listed() && AllFull(blocks) && 0 < |x| <= CHUNK_SIZE && buffers == []
      modifies this`buffers, this`byte1, this`manifestChunks, this`blocks
      ensures Listed()
      ensures Join(blocks) + Join(buffers) == old(Join(blocks)) + x && FullButLast(blocks)
      ensures |x| == CHUNK_SIZE ==> AllFull(blocks)
      ensures |x| == CHUNK_SIZE || final ==> buffers == []
      ensures !final ==> AllFull(blocks) && |Join(buffers)| < CHUNK_SIZE
    {
      if |x| == CHUNK_SIZE || final {
        ListChunk(x);
      } else {
        JoinOne(x);
        buffers := buffers + [x];
      }
    }

    method ListChunk(x: Bytes)
      requires Listed() && AllFull(blocks) && 0 < |x| <= CHUNK_SIZE
      modifies this`byte1, this`manifestChunks, this`blocks
      ensures Listed()
      ensures Join(blocks) == old(Join(blocks)) + x && FullButLast(blocks)
      ensures |x| == CHUNK_SIZE ==> AllFull(blocks)
    {
      ChunkListAppend(blocks, x, 0);
      JoinConcat(blocks, [x]);
      JoinOne(x);
      manifestChunks := manifestChunks + [Chunk(byte1, byte1 + |x|, Sha1(x))];
      byte1 := byte1 + |x|;
      blocks := blocks + [x];
    }
  }

  /** However a file is cut into incoming buffers, the streaming chunker produces the manifest of the simple chunker,
      and stores one exactly when the file is larger than a chunk. */
  method StoreFileFromStream(incoming: seq<Bytes>) returns (manifest: Manifest, manifestStored: bool)
    ensures manifest == ManifestOf(Join(incoming))
    ensures manifestStored <==> |Join(incoming)| > CHUNK_SIZE
  {
    var chunker := new StreamingChunker();
    var i := 0;
    while i < |incoming|
      invariant 0 <= i <= |incoming| && fresh(chunker)
      invariant chunker.Valid() && !chunker.complete && chunker.shasum == Join(incoming[..i])
    {
      JoinConcat(incoming[..i], [incoming[i]]);
      JoinOne(incoming[i]);
      assert incoming[..i + 1] == incoming[..i] + [incoming[i]];
      chunker.OnData(incoming[i]);
      i := i + 1;
    }
    assert incoming[..i] == incoming;
    manifest, manifestStored := chunker.OnFinished();
  }
}
