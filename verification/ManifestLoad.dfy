/** Loading a file through its manifest: the loop over the chunks, and their concatenation into the stored file. */
module ManifestLoad {
  import opened Wrappers
  import opened Blocks
  import opened FileChunks

  // ---- The store

  /** Stored contents by the hash they are stored under. Storing does not check the hash of the data. */
  type Files = map<Sha1, Bytes>

  function StoreFile(files: Files, sha1: Sha1, data: Bytes): Files {
    if sha1 in files then files else files[sha1 := data]
  }

  /** A file by its hash, or failing that a stretch of the file it is a chunk of. */
  datatype FileKey = FileKey(sha1: Sha1, chunkOf: Option<ParentRange>)

  datatype ParentRange = ParentRange(sha1: Sha1, startByte: nat, endByte: nat)

  function FindFile(files: Files, key: FileKey): Option<int> {
    if key.sha1 in files then Some(|files[key.sha1]|)
    else if key.chunkOf.Some? && key.chunkOf.value.sha1 in files then Some(key.chunkOf.value.endByte - key.chunkOf.value.startByte)
    else None
  }

  /** The bytes a read stream delivers: `size` bytes from `offset`, as far as the file goes. */
  function Stretch(file: Bytes, offset: nat, size: nat): Bytes {
    file[Min(offset, |file|)..Min(offset + size, |file|)]
  }

  function ReadStream(files: Files, key: FileKey, range: Option<(nat, nat)>): Option<Bytes>
    requires range.Some? ==> range.value.0 <= range.value.1
    requires key.chunkOf.Some? ==> key.chunkOf.value.startByte <= key.chunkOf.value.endByte
  {
    if key.sha1 in files then
      var file := files[key.sha1];
      Some(if range.None? then Stretch(file, 0, |file|) else Stretch(file, range.value.0, range.value.1 - range.value.0))
    else if key.chunkOf.Some? && key.chunkOf.value.sha1 in files then
      var p := key.chunkOf.value;
      Some(if range.None? then Stretch(files[p.sha1], p.startByte, p.endByte - p.startByte)
           else Stretch(files[p.sha1], p.startByte + range.value.0, range.value.1 - range.value.0))
    else None
  }

  function KeyOf(c: Chunk, parent: Sha1): FileKey {
    FileKey(c.sha1, Some(ParentRange(parent, c.start, c.end)))
  }

  /** A chunk of a stored file reads the same from its own entry and out of the whole file, for the whole chunk and for
      any range inside it. */
  lemma ChunkReadsFromParent(files: Files, file: Bytes, c: Chunk, range: Option<(nat, nat)>)
    requires c.start <= c.end <= |file| && c.sha1 == Sha1(file[c.start..c.end])
    requires range.Some? ==> range.value.0 <= range.value.1 <= c.end - c.start
    requires Sha1(file) in files && files[Sha1(file)] == file
    requires c.sha1 in files ==> files[c.sha1] == c.sha1.content
    ensures FindFile(files, KeyOf(c, Sha1(file))) == Some(c.end - c.start)
    ensures ReadStream(files, KeyOf(c, Sha1(file)), range)
         == Some(if range.None? then c.sha1.content else c.sha1.content[range.value.0..range.value.1])
  {
    var slice := file[c.start..c.end];
    var from, to := 0, |slice|;
    if range.Some? { from, to := range.value.0, range.value.1; }
    assert slice[0..|slice|] == slice;
    SliceOfSlice(file, c.start, c.end, from, to);
    StretchInside(slice, from, to);
    StretchInside(file, c.start + from, c.start + to);
  }

  /** What is neither in the store nor a stretch of a file in it is not found, and nothing is read for it. */
  lemma AbsentIsNotRead(files: Files, c: Chunk, parent: Sha1, range: Option<(nat, nat)>)
    requires c.start <= c.end && (range.Some? ==> range.value.0 <= range.value.1)
    requires c.sha1 !in files && parent !in files
    ensures FindFile(files, KeyOf(c, parent)).None? && ReadStream(files, KeyOf(c, parent), range).None?
  {
  }

  lemma StretchInside(file: Bytes, from: nat, to: nat)
    requires from <= to <= |file|
    ensures Stretch(file, from, to - from) == file[from..to]
  {
  }

  // ---- Concatenation

  datatype ConcatResult = AlreadyStored | Stored | MissingChunk(sha1: Sha1) | WrongHash

  function Contents(files: Files, sha1s: seq<Sha1>): seq<Bytes>
    requires forall i :: 0 <= i < |sha1s| ==> sha1s[i] in files
  {
    seq(|sha1s|, i requires 0 <= i < |sha1s| => files[sha1s[i]])
  }

  function FirstMissing(files: Files, sha1s: seq<Sha1>): (r: Option<Sha1>)
    ensures r.None? <==> forall i :: 0 <= i < |sha1s| ==> sha1s[i] in files
    ensures r.Some? ==> r.value in sha1s && r.value !in files
  {
    if sha1s == [] then None
    else if sha1s[0] !in files then Some(sha1s[0])
    else FirstMissing(files, sha1s[1..])
  }

  function Concatenate(files: Files, sha1: Sha1, chunkSha1s: seq<Sha1>): (ConcatResult, Files) {
    if sha1 in files then (AlreadyStored, files)
    else
      var missing := FirstMissing(files, chunkSha1s);
      if missing.Some? then (MissingChunk(missing.value), files)
      else
        var data := Join(Contents(files, chunkSha1s));
        if Sha1(data) != sha1 then (WrongHash, files) else (Stored, files[sha1 := data])
  }

  function ChunkHashes(m: Manifest): seq<Sha1> {
    seq(|m.chunks|, i requires 0 <= i < |m.chunks| => m.chunks[i].sha1)
  }

  /** With all chunk entries present and the file absent, loading through the manifest stores the file exactly when the
      entries, one after the other, hold its bytes; otherwise nothing is stored. */
  lemma ManifestLoadStoresIff(files: Files, file: Bytes)
    requires Sha1(file) !in files
    requires FirstMissing(files, ChunkHashes(ManifestOf(file))).None?
    ensures var m := ManifestOf(file);
            var (r, after) := Concatenate(files, m.sha1, ChunkHashes(m));
            && (r == Stored <==> Join(Contents(files, ChunkHashes(m))) == file)
            && (r == Stored ==> after == files[Sha1(file) := file])
            && (r != Stored ==> r == WrongHash && after == files)
  {
  }

  predicate HoldsChunks(files: Files, m: Manifest) {
    forall i :: 0 <= i < |m.chunks| ==> m.chunks[i].sha1 in files && files[m.chunks[i].sha1] == m.chunks[i].sha1.content
  }

  /** Store, then load through the manifest: once every chunk entry holds its chunk, the original bytes are stored under
      the file's hash. */
  lemma StoreThenLoadRoundTrip(files: Files, file: Bytes)
    requires HoldsChunks(files, ManifestOf(file))
    requires Sha1(file) in files ==> files[Sha1(file)] == file
    ensures var m := ManifestOf(file);
            var (r, after) := Concatenate(files, m.sha1, ChunkHashes(m));
            (r == Stored || r == AlreadyStored) && Sha1(file) in after && after[Sha1(file)] == file
  {
    var m := ManifestOf(file);
    var blocks := Split(file, CHUNK_SIZE);
    ChunkListLengths(blocks, 0);
    JoinSplit(file, CHUNK_SIZE);
    forall i | 0 <= i < |m.chunks| ensures ChunkHashes(m)[i] in files && files[ChunkHashes(m)[i]] == blocks[i] {
      assert m.chunks[i].sha1 in files;
    }
    assert Contents(files, ChunkHashes(m)) == blocks;
  }

  // ---- Concatenation as it runs, with other stores between its steps

  /** Where a concatenation is: not begun, looking for the chunk entries, reading them, returned normally, thrown, or
      over, after its caller has gone on. */
  datatype Concat =
    | NotBegun
    | Verifying(next: nat)
    | Reading(next: nat, data: Bytes)
    | Returned
    | Threw(why: ConcatResult)
    | Over

  /** The part before the first wait: a file that is there already is not stored again. */
  function Begin(files: Files, sha1: Sha1): Concat {
    if sha1 in files then Returned else Verifying(0)
  }

  /** From one wait to the next. The last part checks the hash and looks again whether the file is there. */
  function Resume(c: Concat, files: Files, sha1: Sha1, chunkSha1s: seq<Sha1>): (Concat, Files) {
    match c
    case Verifying(i) =>
      if i >= |chunkSha1s| then (Reading(0, []), files)
      else if chunkSha1s[i] in files then (Verifying(i + 1), files)
      else (Threw(MissingChunk(chunkSha1s[i])), files)
    case Reading(i, data) =>
      if i < |chunkSha1s| then
        if chunkSha1s[i] in files then (Reading(i + 1, data + files[chunkSha1s[i]]), files)
        else (Threw(MissingChunk(chunkSha1s[i])), files)
      else if Sha1(data) != sha1 then (Threw(WrongHash), files)
      else (Returned, StoreFile(files, sha1, data))
    case _ => (c, files)
  }

  predicate Waits(c: Concat) {
    c.Verifying? || c.Reading?
  }

  /** The steps left until the caller has gone on. */
  function StepsLeft(c: Concat, numChunks: nat): nat {
    match c
    case Verifying(i) => (if i <= numChunks then numChunks - i else 0) + numChunks + 3
    case Reading(i, _) => (if i <= numChunks then numChunks - i else 0) + 2
    case Returned => 1
    case _ => 0
  }

  /** A concatenation that nobody interferes with. */
  function RunAlone(c: Concat, files: Files, sha1: Sha1, chunkSha1s: seq<Sha1>): (Concat, Files)
    decreases StepsLeft(c, |chunkSha1s|)
  {
    if !Waits(c) then (c, files)
    else
      var (next, after) := Resume(c, files, sha1, chunkSha1s);
      RunAlone(next, after, sha1, chunkSha1s)
  }

  lemma {:induction false} VerifyingAlone(i: nat, files: Files, sha1: Sha1, chunkSha1s: seq<Sha1>)
    requires i <= |chunkSha1s|
    ensures var missing := FirstMissing(files, chunkSha1s[i..]);
            RunAlone(Verifying(i), files, sha1, chunkSha1s) ==
            if missing.Some? then (Threw(MissingChunk(missing.value)), files)
            else RunAlone(Reading(0, []), files, sha1, chunkSha1s)
    decreases |chunkSha1s| - i
  {
    if i < |chunkSha1s| {
      assert chunkSha1s[i..][0] == chunkSha1s[i] && chunkSha1s[i..][1..] == chunkSha1s[i + 1..];
      if chunkSha1s[i] in files { VerifyingAlone(i + 1, files, sha1, chunkSha1s); }
    }
  }

  lemma {:induction false} ReadingAlone(i: nat, files: Files, sha1: Sha1, chunkSha1s: seq<Sha1>)
    requires FirstMissing(files, chunkSha1s).None? && i <= |chunkSha1s|
    ensures var contents := Contents(files, chunkSha1s);
            RunAlone(Reading(i, Join(contents[..i])), files, sha1, chunkSha1s) ==
            if Sha1(Join(contents)) != sha1 then (Threw(WrongHash), files)
            else (Returned, StoreFile(files, sha1, Join(contents)))
    decreases |chunkSha1s| - i
  {
    var contents := Contents(files, chunkSha1s);
    if i < |chunkSha1s| {
      assert contents[..i + 1] == contents[..i] + [contents[i]];
      JoinConcat(contents[..i], [contents[i]]);
      JoinOne(contents[i]);
      ReadingAlone(i + 1, files, sha1, chunkSha1s);
    } else {
      assert contents[..i] == contents;
    }
  }

  /** Left alone, the waiting form does exactly what the uninterrupted one does. */
  lemma AloneIsConcatenate(files: Files, sha1: Sha1, chunkSha1s: seq<Sha1>)
    ensures var (c, after) := RunAlone(Begin(files, sha1), files, sha1, chunkSha1s);
            var (r, expected) := Concatenate(files, sha1, chunkSha1s);
            after == expected && c == if r == AlreadyStored || r == Stored then Returned else Threw(r)
  {
    if sha1 !in files {
      VerifyingAlone(0, files, sha1, chunkSha1s);
      assert chunkSha1s[0..] == chunkSha1s;
      if FirstMissing(files, chunkSha1s).None? {
        ReadingAlone(0, files, sha1, chunkSha1s);
        assert Contents(files, chunkSha1s)[..0] == [];
      }
    }
  }

  /** A concatenation between two waits. */
  class Concatenation {
    const storage: KacheryStorage
    const sha1: Sha1
    const chunkSha1s: seq<Sha1>
    var state: Concat

    constructor (storage: KacheryStorage, sha1: Sha1, chunkSha1s: seq<Sha1>)
      ensures this.storage == storage && this.sha1 == sha1 && this.chunkSha1s == chunkSha1s
      ensures state == Begin(storage.files, sha1)
    {
      this.storage, this.sha1, this.chunkSha1s := storage, sha1, chunkSha1s;
      state := if sha1 in storage.files then Returned else Verifying(0);
    }

    method Continue()
      requires Waits(state)
      modifies this, storage
      ensures (state, storage.files) == Resume(old(state), old(storage.files), sha1, chunkSha1s)
    {
      match state {
        case Verifying(i) =>
          if i >= |chunkSha1s| {
            state := Reading(0, []);
          } else if chunkSha1s[i] in storage.files {
            state := Verifying(i + 1);
          } else {
            state := Threw(MissingChunk(chunkSha1s[i]));
          }
        case Reading(i, data) =>
          if i < |chunkSha1s| {
            state := if chunkSha1s[i] in storage.files then Reading(i + 1, data + storage.files[chunkSha1s[i]])
                     else Threw(MissingChunk(chunkSha1s[i]));
          } else if Sha1(data) != sha1 {
            state := Threw(WrongHash);
          } else {
            storage.Store(sha1, data);
            state := Returned;
          }
      }
    }
  }

  class KacheryStorage {
    var files: Files

    constructor ()
      ensures files == map[]
    {
      files := map[];
    }

    method Store(sha1: Sha1, data: Bytes)
      modifies this
      ensures files == StoreFile(old(files), sha1, data)
    {
      if sha1 in files { return; }
      files := files[sha1 := data];
    }

    method ConcatenateChunksAndStoreResult(sha1: Sha1, chunkSha1s: seq<Sha1>) returns (r: ConcatResult)
      modifies this
      ensures (r, files) == Concatenate(old(files), sha1, chunkSha1s)
    {
      if sha1 in files { return AlreadyStored; }
      var missing := VerifyChunks(chunkSha1s);
      if missing.Some? { return MissingChunk(missing.value); }
      var data := ReadChunks(chunkSha1s);
      if Sha1(data) != sha1 { return WrongHash; }
      files := files[sha1 := data];
      r := Stored;
    }

    method VerifyChunks(chunkSha1s: seq<Sha1>) returns (missing: Option<Sha1>)
      ensures missing == FirstMissing(files, chunkSha1s)
    {
      var i := 0;
      assert chunkSha1s[0..] == chunkSha1s;
      while i < |chunkSha1s|
        invariant 0 <= i <= |chunkSha1s|
        invariant FirstMissing(files, chunkSha1s) == FirstMissing(files, chunkSha1s[i..])
      {
        assert chunkSha1s[i..][0] == chunkSha1s[i] && chunkSha1s[i..][1..] == chunkSha1s[i + 1..];
        if chunkSha1s[i] !in files { return Some(chunkSha1s[i]); }
        i := i + 1;
      }
      missing := None;
    }

    method ReadChunks(chunkSha1s: seq<Sha1>) returns (data: Bytes)
      requires FirstMissing(files, chunkSha1s).None?
      ensures data == Join(Contents(files, chunkSha1s))
    {
      data := [];
      var i := 0;
      ghost var contents := Contents(files, chunkSha1s);
      while i < |chunkSha1s|
        invariant 0 <= i <= |chunkSha1s| && data == Join(contents[..i])
      {
        assert contents[..i + 1] == contents[..i] + [contents[i]];
        JoinConcat(contents[..i], [contents[i]]);
        JoinOne(contents[i]);
        data := data + files[chunkSha1s[i]];
        i := i + 1;
      }
      assert contents[..i] == contents;
    }
  }

  // ---- The loop over the chunks

  /** The loop over `count` chunks. `started` lists the chunks started; `ticks` are the updates scheduled for later.
      `finished` and `concatenations` belong to the manifest load, `resolved` and `rejected` to the loop's promise. */
  datatype Loop = Loop(
    count: nat, limit: nat, next: nat, numComplete: nat, numRunning: nat, error: bool,
    started: seq<nat>, running: set<nat>, ticks: nat,
    finished: nat, concatenations: nat, resolved: nat, rejected: nat)

  datatype LoopEvent = Finishes(chunk: nat) | Fails(chunk: nat) | Tick

  function Update(s: Loop): Loop {
    if s.error then s
    else if s.numComplete == s.count then s.(resolved := s.resolved + 1)
    else if s.numRunning < s.limit && s.next < s.count then
      s.(next := s.next + 1, numRunning := s.numRunning + 1, started := s.started + [s.next], running := s.running + {s.next})
    else s
  }

  function StartLoop(count: nat, limit: nat): Loop {
    Update(Loop(count, limit, 0, 0, 0, false, [], {}, 0, 0, 0, 0, 0))
  }

  /** A chunk that finishes is counted by the load, which concatenates after the last one, and then by the loop, which
      schedules one update. A chunk that fails stops the loop. */
  function LoopStep(s: Loop, e: LoopEvent): Loop {
    match e
    case Finishes(k) =>
      if k !in s.running then s
      else
        s.(running := s.running - {k}, numComplete := s.numComplete + 1, ticks := s.ticks + 1,
           numRunning := if s.numRunning > 0 then s.numRunning - 1 else 0, finished := s.finished + 1,
           concatenations := if s.finished + 1 == s.count then s.concatenations + 1 else s.concatenations)
    case Fails(k) =>
      if k !in s.running then s
      else s.(running := s.running - {k}, error := true, rejected := s.rejected + 1,
              numRunning := if s.numRunning > 0 then s.numRunning - 1 else 0)
    case Tick => if s.ticks > 0 then Update(s.(ticks := s.ticks - 1)) else s
  }

  function LoopRun(count: nat, limit: nat, events: seq<LoopEvent>): Loop {
    if events == [] then StartLoop(count, limit)
    else LoopStep(LoopRun(count, limit, events[..|events| - 1]), events[|events| - 1])
  }

  /** One update starts at most one chunk and each end schedules one update, so there is never more than one chunk
      running: the loop is serial whatever its limit. */
  predicate LoopInv(s: Loop) {
    && s.next <= s.count && s.started == seq(s.next, i => i)
    && s.numRunning == |s.running| && s.numRunning + s.ticks <= 1
    && (forall k :: k in s.running ==> k < s.next)
    && s.finished == s.numComplete
    && s.numComplete + s.numRunning + (if s.error then 1 else 0) == s.next
    && s.rejected == (if s.error then 1 else 0)
    && (s.error ==> s.numRunning == 0 && s.ticks == 0 && s.resolved == 0)
    && s.concatenations == (if s.count > 0 && s.finished == s.count then 1 else 0)
    && s.resolved <= 1
    && (s.resolved == 1 ==> s.numComplete == s.count && s.numRunning + s.ticks == 0)
    && (s.resolved == 0 && !s.error ==> s.numRunning + s.ticks == 1)
  }

  lemma StartLoopInv(count: nat, limit: nat)
    requires limit > 0
    ensures LoopInv(StartLoop(count, limit))
  {
  }

  lemma RemoveOne(s: set<nat>, k: nat)
    requires k in s
    ensures |s - {k}| == |s| - 1
  {
  }

  lemma LoopStepInv(s: Loop, e: LoopEvent)
    requires LoopInv(s) && s.limit > 0
    ensures LoopInv(LoopStep(s, e))
  {
    if (e.Finishes? || e.Fails?) && e.chunk in s.running { RemoveOne(s.running, e.chunk); }
    if s.error { assert s.running == {}; }
  }

  lemma {:induction false} LoopRunInv(count: nat, limit: nat, events: seq<LoopEvent>)
    requires limit > 0
    ensures var s := LoopRun(count, limit, events); LoopInv(s) && s.count == count && s.limit == limit
    decreases |events|
  {
    if events == [] { StartLoopInv(count, limit); }
    else {
      LoopRunInv(count, limit, events[..|events| - 1]);
      LoopStepInv(LoopRun(count, limit, events[..|events| - 1]), events[|events| - 1]);
    }
  }

  /** In every run: chunks start in order, each once and one at a time; the loop resolves at most once, and then every
      chunk has been started and has finished. */
  lemma LoopRunsEveryChunkOnce(count: nat, limit: nat, events: seq<LoopEvent>)
    requires limit > 0
    ensures var s := LoopRun(count, limit, events);
            && s.started == seq(|s.started|, i => i) && |s.started| <= count
            && |s.running| <= 1 <= limit
            && s.resolved + s.rejected <= 1
            && (s.resolved == 1 ==> |s.started| == count && s.finished == count && s.running == {})
  {
    LoopRunInv(count, limit, events);
    var s := LoopRun(count, limit, events);
    assert |s.started| == s.next;
  }

  /** The loop is never left hanging: until it is resolved or rejected, a chunk is running or an update is scheduled. */
  lemma LoopNeverHangs(count: nat, limit: nat, events: seq<LoopEvent>)
    requires limit > 0
    ensures var s := LoopRun(count, limit, events);
            s.resolved == 1 || s.rejected == 1 || s.running != {} || s.ticks > 0
  {
    LoopRunInv(count, limit, events);
  }

  /** Concatenation starts at most once and only after every chunk has finished; and a resolved load has concatenated
      exactly if its manifest has any chunk at all. */
  lemma ConcatenatesOnceIffNotEmpty(count: nat, limit: nat, events: seq<LoopEvent>)
    requires limit > 0
    ensures var s := LoopRun(count, limit, events);
            && s.concatenations <= 1
            && (s.concatenations == 1 ==> s.finished == count)
            && (s.resolved == 1 ==> (s.concatenations == 1 <==> count > 0))
  {
    LoopRunInv(count, limit, events);
  }

  /** A manifest without chunks resolves at once and never concatenates, so its load never ends. */
  lemma {:induction false} EmptyManifestNeverConcatenates(limit: nat, events: seq<LoopEvent>)
    ensures var s := LoopRun(0, limit, events);
            s.resolved == 1 && s.concatenations == 0 && s.running == {} && s.ticks == 0
    decreases |events|
  {
    if events != [] { EmptyManifestNeverConcatenates(limit, events[..|events| - 1]); }
  }

  class AsyncLoop {
    const count: nat
    const numSimultaneous: nat
    var i: nat
    var numComplete: nat
    var numRunning: nat
    var error: bool
    var running: set<nat>
    var ticks: nat
    var numChunksComplete: nat
    ghost var started: seq<nat>
    ghost var concatenations: nat
    ghost var resolved: nat
    ghost var rejected: nat

    ghost function Model(): Loop
      reads this
    {
      Loop(count, numSimultaneous, i, numComplete, numRunning, error, started, running, ticks,
           numChunksComplete, concatenations, resolved, rejected)
    }

    constructor (count: nat, numSimultaneous: nat)
      ensures Model() == StartLoop(count, numSimultaneous)
    {
      this.count, this.numSimultaneous := count, numSimultaneous;
      i, numComplete, numRunning, error, running, ticks, numChunksComplete := 0, 0, 0, false, {}, 0, 0;
      started, concatenations, resolved, rejected := [], 0, 0, 0;
      new;
      RunUpdate();
    }

    method RunUpdate()
      modifies this
      ensures Model() == Update(old(Model()))
    {
      if error { return; }
      if numComplete == count {
        resolved := resolved + 1;
        return;
      }
      if numRunning < numSimultaneous {
        if i < count {
          running := running + {i};
          started := started + [i];
          i := i + 1;
          numRunning := numRunning + 1;
        }
      }
    }

    method OnFinished(k: nat)
      requires k in running && numRunning > 0
      modifies this
      ensures Model() == LoopStep(old(Model()), Finishes(k))
    {
      running := running - {k};
      numChunksComplete := numChunksComplete + 1;
      if numChunksComplete == count {
        concatenations := concatenations + 1;
      }
      numComplete := numComplete + 1;
      numRunning := numRunning - 1;
      ticks := ticks + 1;
    }

    method OnError(k: nat)
      requires k in running && numRunning > 0
      modifies this
      ensures Model() == LoopStep(old(Model()), Fails(k))
    {
      running := running - {k};
      error := true;
      numRunning := numRunning - 1;
      rejected := rejected + 1;
    }

    method OnTick()
      requires ticks > 0
      modifies this
      ensures Model() == LoopStep(old(Model()), Tick)
    {
      ticks := ticks - 1;
      RunUpdate();
    }
  }
}
