/** Reading a byte range of a file, from the file itself or from the chunks of its manifest. */
module RangeRead {
  import opened Wrappers
  import opened Blocks
  import opened FileChunks

  datatype LoadError = InvalidRange | MissingChunk

  // ---- From the file itself

  /** Absent bounds mean the beginning and the end of the file; anything else than an ordered pair of bounds inside the
      file is refused. */
  function LocalRange(file: Bytes, start: Option<int>, end: Option<int>): Result<Bytes, LoadError> {
    var s := if start.None? then 0 else start.value;
    var e := if end.None? then |file| else end.value;
    if s < 0 || s > |file| || e < s || e > |file| then Err(InvalidRange) else Ok(file[s..e])
  }

  const STDOUT_BLOCK: nat := 4096

  /** Writes the range block by block to the output, or returns it. */
  method LoadBytesFromLocalFile(file: Bytes, start: Option<int>, end: Option<int>, writeToStdout: bool)
    returns (r: Result<Bytes, LoadError>, written: Bytes)
    ensures !writeToStdout ==> r == LocalRange(file, start, end) && written == []
    ensures writeToStdout ==> r.Ok? == LocalRange(file, start, end).Ok?
    ensures writeToStdout && r.Ok? ==> r.value == [] && written == LocalRange(file, start, end).value
  {
    written := [];
    var s := if start.None? then 0 else start.value;
    var e := if end.None? then |file| else end.value;
    if s < 0 || s > |file| || e < s || e > |file| { return Err(InvalidRange), []; }
    if s == e { return Ok([]), []; }
    if writeToStdout {
      var ii := s;
      while ii < e
        invariant s <= ii <= e && written == file[s..ii]
      {
        var nn := Min(e - ii, STDOUT_BLOCK);
        NextSlice(file, s, ii, ii + nn);
        written := written + file[ii..ii + nn];
        ii := ii + nn;
      }
      return Ok([]), written;
    }
    r := Ok(file[s..e]);
  }

  // ---- From the chunks of a manifest

  function Max(a: int, b: int): int {
    if a > b then a else b
  }

  predicate Overlaps(c: Chunk, start: int, end: int) {
    start < c.end && end > c.start
  }

  /** Reads a chunk's share of the range; `store` holds the chunk files that can be loaded, under their hash. */
  function LoadShare(c: Chunk, store: map<Sha1, Bytes>, start: int, end: int): Result<Bytes, LoadError> {
    if c.sha1 !in store then Err(MissingChunk)
    else LocalRange(store[c.sha1], Some(Max(0, start - c.start)), Some(Min(c.end - c.start, end - c.start)))
  }

  function Assemble(chunks: seq<Chunk>, store: map<Sha1, Bytes>, start: int, end: int): Result<Bytes, LoadError> {
    if chunks == [] then Ok([])
    else if !Overlaps(chunks[0], start, end) then Assemble(chunks[1..], store, start, end)
    else match LoadShare(chunks[0], store, start, end)
      case Err(e) => Err(e)
      case Ok(share) =>
        match Assemble(chunks[1..], store, start, end)
        case Err(e) => Err(e)
        case Ok(rest) => Ok(share + rest)
  }

  /** Every chunk can be loaded and holds its slice of the file. */
  predicate HasSlices(chunks: seq<Chunk>, store: map<Sha1, Bytes>, file: Bytes) {
    forall i :: 0 <= i < |chunks| ==>
      chunks[i].start <= chunks[i].end <= |file|
      && chunks[i].sha1 in store && store[chunks[i].sha1] == file[chunks[i].start..chunks[i].end]
  }

  function Clamp(x: int, lo: nat, hi: nat): (r: nat)
    requires lo <= hi
    ensures lo <= r <= hi
  {
    if x < lo then lo else if x > hi then hi else x
  }

  /** Every chunk that can be loaded holds its slice of the file. */
  predicate PresentHoldSlices(chunks: seq<Chunk>, store: map<Sha1, Bytes>, file: Bytes) {
    forall i :: 0 <= i < |chunks| ==>
      chunks[i].start <= chunks[i].end <= |file|
      && (chunks[i].sha1 in store ==> store[chunks[i].sha1] == file[chunks[i].start..chunks[i].end])
  }

  /** Every chunk that overlaps the range can be loaded. */
  predicate AllThere(chunks: seq<Chunk>, store: map<Sha1, Bytes>, start: int, end: int) {
    forall i :: 0 <= i < |chunks| && start < chunks[i].end && end > chunks[i].start ==> chunks[i].sha1 in store
  }

  /** For ordered bounds, inside the file or not: the chunks yield exactly the part of the range that lies in the file if
      every overlapping chunk can be loaded, and report a missing chunk otherwise. No read of a chunk is out of range. */
  lemma {:induction false} AssembledIffAllThere(chunks: seq<Chunk>, store: map<Sha1, Bytes>, file: Bytes, from: nat, start: int, end: int)
    requires Partitions(chunks, file, from) && PresentHoldSlices(chunks, store, file) && start <= end
    requires from <= |file|
    ensures Assemble(chunks, store, start, end) ==
            if AllThere(chunks, store, start, end) then Ok(file[Clamp(start, from, |file|)..Clamp(end, from, |file|)])
            else Err(MissingChunk)
    decreases |chunks|
  {
    if chunks == [] {
      assert file[|file|..|file|] == [];
    } else {
      var c, rest := chunks[0], chunks[1..];
      assert forall i :: 0 <= i < |rest| ==> rest[i] == chunks[i + 1];
      AssembledIffAllThere(rest, store, file, c.end, start, end);
      AllThereRest(chunks, store, start, end);
      if Overlaps(c, start, end) {
        if c.sha1 in store { ShareIsSlice(c, store, file, start, end); }
      } else if end <= c.start {
        assert file[c.end..c.end] == file[c.start..c.start];
      }
    }
  }

  lemma AllThereRest(chunks: seq<Chunk>, store: map<Sha1, Bytes>, start: int, end: int)
    requires chunks != []
    ensures AllThere(chunks, store, start, end) <==>
            (Overlaps(chunks[0], start, end) ==> chunks[0].sha1 in store) && AllThere(chunks[1..], store, start, end)
  {
    var rest := chunks[1..];
    assert forall i :: 0 <= i < |rest| ==> rest[i] == chunks[i + 1];
    assert forall i :: 0 < i < |chunks| ==> chunks[i] == rest[i - 1];
  }

  lemma OrderedRangeIsSlice(chunks: seq<Chunk>, store: map<Sha1, Bytes>, file: Bytes, from: nat, start: int, end: int)
    requires Partitions(chunks, file, from) && HasSlices(chunks, store, file) && start <= end
    requires from <= |file|
    ensures Assemble(chunks, store, start, end) == Ok(file[Clamp(start, from, |file|)..Clamp(end, from, |file|)])
  {
    AssembledIffAllThere(chunks, store, file, from, start, end);
  }

  lemma ShareIsSlice(c: Chunk, store: map<Sha1, Bytes>, file: Bytes, start: int, end: int)
    requires c.start <= c.end <= |file| && c.sha1 in store && store[c.sha1] == file[c.start..c.end]
    requires Overlaps(c, start, end) && start <= end
    ensures LoadShare(c, store, start, end).Ok?
    ensures LoadShare(c, store, start, end).value + file[Clamp(start, c.end, |file|)..Clamp(end, c.end, |file|)]
         == file[Clamp(start, c.start, |file|)..Clamp(end, c.start, |file|)]
  {
    var from, to := Clamp(start, c.start, |file|), Min(c.end, end);
    var s, e := Max(0, start - c.start), Min(c.end - c.start, end - c.start);
    assert 0 <= s;
    assert s <= e <= c.end - c.start;
    assert c.start + s == from;
    assert c.start + e == to;
    SliceOfSlice(file, c.start, c.end, s, e);
    if end <= c.end {
      assert Clamp(end, c.end, |file|) == Clamp(start, c.end, |file|);
      assert file[c.end..c.end] == [];
    } else {
      NextSlice(file, from, c.end, Clamp(end, c.end, |file|));
    }
  }

  predicate BothInside(c: Chunk, start: int, end: int) {
    c.start < end && start < c.end
  }

  /** For reversed bounds the chunks refuse the range only if one chunk holds both, and yield nothing otherwise. */
  lemma {:induction false} ReversedRange(chunks: seq<Chunk>, store: map<Sha1, Bytes>, file: Bytes, start: int, end: int)
    requires HasSlices(chunks, store, file) && end < start
    ensures Assemble(chunks, store, start, end)
         == if exists i :: 0 <= i < |chunks| && BothInside(chunks[i], start, end) then Err(InvalidRange) else Ok([])
    decreases |chunks|
  {
    if chunks != [] {
      assert forall i :: 0 <= i < |chunks[1..]| ==> chunks[1..][i] == chunks[i + 1];
      ReversedRange(chunks[1..], store, file, start, end);
      if !BothInside(chunks[0], start, end) && (exists i :: 0 <= i < |chunks| && BothInside(chunks[i], start, end)) {
        var i :| 0 <= i < |chunks| && BothInside(chunks[i], start, end);
        assert BothInside(chunks[1..][i - 1], start, end);
      }
    }
  }

  /** Reading a valid range through any manifest that partitions the file gives the slice of the file. */
  lemma {:induction false} ManifestRangeIsSlice(chunks: seq<Chunk>, store: map<Sha1, Bytes>, file: Bytes, start: nat, end: nat)
    requires Partitions(chunks, file, 0) && HasSlices(chunks, store, file)
    requires start <= end <= |file|
    ensures Assemble(chunks, store, start, end) == Ok(file[start..end])
    ensures Assemble(chunks, store, start, end) == LocalRange(file, Some(start), Some(end))
  {
    OrderedRangeIsSlice(chunks, store, file, 0, start, end);
  }

  /** The two ways of reading agree exactly on valid ranges and on reversed ranges inside one chunk; on any other range
      the file refuses what the manifest clamps. */
  lemma ManifestAgreesWithFileIff(chunks: seq<Chunk>, store: map<Sha1, Bytes>, file: Bytes, start: int, end: int)
    requires Partitions(chunks, file, 0) && HasSlices(chunks, store, file)
    ensures Assemble(chunks, store, start, end) == LocalRange(file, Some(start), Some(end))
            <==> 0 <= start <= end <= |file|
                 || (end < start && exists i :: 0 <= i < |chunks| && BothInside(chunks[i], start, end))
  {
    if start <= end { OrderedRangeIsSlice(chunks, store, file, 0, start, end); }
    else { ReversedRange(chunks, store, file, start, end); }
  }

  /** For instance, one byte before the beginning: the file itself refuses, its one-chunk manifest gives the whole file. */
  lemma OutOfRangeIsClamped(file: Bytes)
    requires file != []
    ensures LocalRange(file, Some(-1), Some(|file|)) == Err(InvalidRange)
    ensures Assemble([Chunk(0, |file|, Sha1(file))], map[Sha1(file) := file], -1, |file|) == Ok(file)
  {
    var chunks, store := [Chunk(0, |file|, Sha1(file))], map[Sha1(file) := file];
    assert file[0..|file|] == file && chunks[1..] == [];
    assert Partitions(chunks[1..], file, |file|) && Partitions(chunks, file, 0) && HasSlices(chunks, store, file);
    OrderedRangeIsSlice(chunks, store, file, 0, -1, |file|);
  }

  /** An absent bound means the beginning or the end of the file. */
  lemma NoBoundsMeanWholeFile(file: Bytes, k: nat)
    requires k <= |file|
    ensures LocalRange(file, None, None) == Ok(file)
    ensures LocalRange(file, Some(k), None) == Ok(file[k..]) && LocalRange(file, None, Some(k)) == Ok(file[..k])
  {
    assert file[0..|file|] == file && file[k..|file|] == file[k..] && file[0..k] == file[..k];
  }

  /** The loading loops: first pick the chunks that overlap the range, then read and join their shares. */
  method LoadBytes(chunks: seq<Chunk>, store: map<Sha1, Bytes>, start: int, end: int) returns (r: Result<Bytes, LoadError>)
    ensures r == Assemble(chunks, store, start, end)
  {
    var chunksToLoad := [];
    var i := 0;
    assert chunksToLoad + chunks[0..] == chunks;
    while i < |chunks|
      invariant 0 <= i <= |chunks|
      invariant Assemble(chunks, store, start, end) == Assemble(chunksToLoad + chunks[i..], store, start, end)
      invariant forall j :: 0 <= j < |chunksToLoad| ==> Overlaps(chunksToLoad[j], start, end)
    {
      PickChunk(chunksToLoad, chunks, i, store, start, end);
      if Overlaps(chunks[i], start, end) {
        chunksToLoad := chunksToLoad + [chunks[i]];
      }
      i := i + 1;
    }
    assert chunksToLoad + chunks[i..] == chunksToLoad;
    r := LoadChunks(chunksToLoad, store, start, end);
  }

  method LoadChunks(chunksToLoad: seq<Chunk>, store: map<Sha1, Bytes>, start: int, end: int) returns (r: Result<Bytes, LoadError>)
    requires forall j :: 0 <= j < |chunksToLoad| ==> Overlaps(chunksToLoad[j], start, end)
    ensures r == Assemble(chunksToLoad, store, start, end)
  {
    var dataChunks := [];
    var i := 0;
    ghost var all := Assemble(chunksToLoad, store, start, end);
    assert chunksToLoad[0..] == chunksToLoad && (all.Ok? ==> [] + all.value == all.value);
    while i < |chunksToLoad|
      invariant 0 <= i <= |chunksToLoad|
      invariant all == Prepend(dataChunks, Assemble(chunksToLoad[i..], store, start, end))
    {
      var c := chunksToLoad[i];
      assert chunksToLoad[i..][0] == c && chunksToLoad[i..][1..] == chunksToLoad[i + 1..];
      if c.sha1 !in store { return Err(MissingChunk); }
      var share, _ := LoadBytesFromLocalFile(store[c.sha1], Some(Max(0, start - c.start)), Some(Min(c.end - c.start, end - c.start)), false);
      if share.Err? { return share; }
      PrependTwice(dataChunks, share.value, Assemble(chunksToLoad[i + 1..], store, start, end));
      dataChunks := dataChunks + share.value;
      i := i + 1;
    }
    r := Ok(dataChunks);
    assert Assemble(chunksToLoad[i..], store, start, end) == Ok([]);
    assert dataChunks + [] == dataChunks;
  }

  function Prepend(front: Bytes, r: Result<Bytes, LoadError>): Result<Bytes, LoadError> {
    match r case Err(e) => Err(e) case Ok(rest) => Ok(front + rest)
  }

  lemma PrependTwice(a: Bytes, b: Bytes, r: Result<Bytes, LoadError>)
    ensures Prepend(a, Prepend(b, r)) == Prepend(a + b, r)
  {
    if r.Ok? { Associative(a, b, r.value); }
  }

  lemma PickChunk(picked: seq<Chunk>, chunks: seq<Chunk>, i: nat, store: map<Sha1, Bytes>, start: int, end: int)
    requires i < |chunks|
    ensures var more := if Overlaps(chunks[i], start, end) then picked + [chunks[i]] else picked;
            Assemble(picked + chunks[i..], store, start, end) == Assemble(more + chunks[i + 1..], store, start, end)
  {
    assert chunks[i..] == [chunks[i]] + chunks[i + 1..];
    if Overlaps(chunks[i], start, end) {
      Associative(picked, [chunks[i]], chunks[i + 1..]);
    } else {
      SkipChunk(picked, chunks[i], chunks[i + 1..], store, start, end);
    }
  }

  lemma {:induction false} SkipChunk(picked: seq<Chunk>, c: Chunk, rest: seq<Chunk>, store: map<Sha1, Bytes>, start: int, end: int)
    requires !Overlaps(c, start, end)
    ensures Assemble(picked + ([c] + rest), store, start, end) == Assemble(picked + rest, store, start, end)
    decreases |picked|
  {
    if picked == [] {
      assert picked + ([c] + rest) == [c] + rest && ([c] + rest)[1..] == rest && picked + rest == rest;
    } else {
      assert (picked + ([c] + rest))[1..] == picked[1..] + ([c] + rest);
      assert (picked + rest)[1..] == picked[1..] + rest;
      SkipChunk(picked[1..], c, rest, store, start, end);
    }
  }
}
