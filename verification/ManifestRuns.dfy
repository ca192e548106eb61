/** A whole load through a manifest: the loop over the chunks, the store its chunks arrive in, the concatenation that
  the last chunk begins, and the stream the caller holds.

  The last chunk only begins the concatenation. It goes on by itself, with other stores between its steps, while the
  loop resolves; the stream ends when the concatenation has returned. */
module ManifestRuns {
  import opened Wrappers
  import opened Blocks
  import opened FileChunks
  import opened ManifestLoad

  /** A chunk is found in the store or downloaded; `data` is what the downloader stores, and need not have the chunk's
      hash. Others may store anything at any time, and the caller may cancel. */
  datatype Event =
    | ChunkFound(chunk: nat)
    | ChunkDownloaded(chunk: nat, data: Bytes)
    | ChunkFailed(chunk: nat)
    | LoopTick
    | Concatenates
    | OtherStores(sha1: Sha1, data: Bytes)
    | Cancelled

  datatype StreamState = Open | Ended | Errored

  datatype Load = Load(loop: Loop, files: Files, concat: Concat, stream: StreamState)

  predicate Arrives(m: Manifest, s: Load, e: Event) {
    match e
    case ChunkFound(k) => k in s.loop.running && k < |m.chunks| && FindFile(s.files, KeyOf(m.chunks[k], m.sha1)).Some?
    case ChunkDownloaded(k, _) => k in s.loop.running && k < |m.chunks|
    case _ => false
  }

  function FilesAfter(m: Manifest, s: Load, e: Event): Files {
    match e
    case ChunkDownloaded(k, data) => if Arrives(m, s, e) then StoreFile(s.files, m.chunks[k].sha1, data) else s.files
    case OtherStores(h, data) => StoreFile(s.files, h, data)
    case _ => s.files
  }

  /** The end of a chunk; that of the last one begins the concatenation. */
  function ChunkEnds(m: Manifest, s: Load, e: Event, k: nat): Load {
    if !Arrives(m, s, e) then s
    else
      var loop, files := LoopStep(s.loop, Finishes(k)), FilesAfter(m, s, e);
      Load(loop, files, if loop.concatenations > s.loop.concatenations then Begin(files, m.sha1) else s.concat, s.stream)
  }

  function Error(s: Load): Load {
    if s.stream.Open? then s.(stream := Errored) else s
  }

  function Step(m: Manifest, s: Load, e: Event): Load {
    match e
    case ChunkFound(k) => ChunkEnds(m, s, e, k)
    case ChunkDownloaded(k, _) => ChunkEnds(m, s, e, k)
    case ChunkFailed(k) => if k in s.loop.running then Error(s.(loop := LoopStep(s.loop, Fails(k)))) else s
    case LoopTick => s.(loop := LoopStep(s.loop, Tick))
    case Concatenates =>
      if s.concat.Returned? then s.(concat := Over, stream := if s.stream.Open? then Ended else s.stream)
      else
        var (c, files) := Resume(s.concat, s.files, m.sha1, ChunkHashes(m));
        s.(concat := c, files := files)
    case OtherStores(_, _) => s.(files := FilesAfter(m, s, e))
    case Cancelled => Error(s)
  }

  function Run(m: Manifest, limit: nat, files: Files, events: seq<Event>): Load {
    if events == [] then Load(StartLoop(|m.chunks|, limit), files, NotBegun, Open)
    else Step(m, Run(m, limit, files, events[..|events| - 1]), events[|events| - 1])
  }

  lemma RunStep(m: Manifest, limit: nat, files: Files, events: seq<Event>, e: Event)
    ensures Run(m, limit, files, events + [e]) == Step(m, Run(m, limit, files, events), e)
  {
    assert (events + [e])[..|events + [e]| - 1] == events;
  }

  // ---- Whatever the downloads deliver

  predicate Keeps(before: Files, after: Files) {
    forall h :: h in before ==> h in after && after[h] == before[h]
  }

  lemma StepKeeps(m: Manifest, s: Load, e: Event)
    ensures Keeps(s.files, Step(m, s, e).files)
  {
  }

  predicate StoredByOthers(events: seq<Event>, h: Sha1) {
    exists i :: 0 <= i < |events| && events[i].OtherStores? && events[i].sha1 == h
  }

  predicate Accounted(m: Manifest, events: seq<Event>, before: Files, after: Files, h: Sha1)
    requires h in after
  {
    (h in before && after[h] == before[h]) || h in ChunkHashes(m) || StoredByOthers(events, h) || after[h] == h.content
  }

  lemma StepAccounted(m: Manifest, s: Load, e: Event, h: Sha1)
    requires h in Step(m, s, e).files && h !in s.files
    ensures h in ChunkHashes(m) || (e.OtherStores? && e.sha1 == h) || Step(m, s, e).files[h] == h.content
  {
    if e.ChunkDownloaded? && e.chunk < |m.chunks| { assert ChunkHashes(m)[e.chunk] == m.chunks[e.chunk].sha1; }
  }

  /** In every run, whatever the downloads deliver, no entry is changed or lost, and a new one that is neither a chunk's
      nor somebody else's has the hash it is stored under. */
  lemma {:induction false} NothingFalseIsConcatenated(m: Manifest, limit: nat, files: Files, events: seq<Event>, h: Sha1)
    ensures var after := Run(m, limit, files, events).files;
            Keeps(files, after) && (h in after ==> Accounted(m, events, files, after, h))
    decreases |events|
  {
    if events != [] {
      var init, e := events[..|events| - 1], events[|events| - 1];
      NothingFalseIsConcatenated(m, limit, files, init, h);
      var s := Run(m, limit, files, init);
      StepKeeps(m, s, e);
      if h in Step(m, s, e).files && h !in s.files { StepAccounted(m, s, e, h); }
      if StoredByOthers(init, h) {
        var i :| 0 <= i < |init| && init[i].OtherStores? && init[i].sha1 == h;
        assert events[i] == init[i];
      }
    }
  }

  // ---- What the end of the stream means

  predicate Exact(files: Files, h: Sha1) {
    h in files ==> files[h] == h.content
  }

  /** Somebody stores other bytes under the file's hash before the file is there: a chunk that has that hash itself, or
      another store. */
  predicate StoresFalsely(m: Manifest, s: Load, e: Event) {
    m.sha1 !in s.files
    && match e
       case ChunkDownloaded(k, data) => Arrives(m, s, e) && m.chunks[k].sha1 == m.sha1 && data != m.sha1.content
       case OtherStores(h, data) => h == m.sha1 && data != m.sha1.content
       case _ => false
  }

  predicate StoredFalselyAt(m: Manifest, limit: nat, files: Files, events: seq<Event>, k: nat)
    requires k < |events|
  {
    StoresFalsely(m, Run(m, limit, files, events[..k]), events[k])
  }

  predicate EverStoredFalsely(m: Manifest, limit: nat, files: Files, events: seq<Event>) {
    exists k :: 0 <= k < |events| && StoredFalselyAt(m, limit, files, events, k)
  }

  lemma ExactStep(m: Manifest, s: Load, e: Event)
    ensures Exact(Step(m, s, e).files, m.sha1) <==> Exact(s.files, m.sha1) && !StoresFalsely(m, s, e)
  {
  }

  lemma StoredFalselyPrefix(m: Manifest, limit: nat, files: Files, init: seq<Event>, e: Event, k: nat)
    requires k < |init|
    ensures StoredFalselyAt(m, limit, files, init, k) <==> StoredFalselyAt(m, limit, files, init + [e], k)
  {
    assert (init + [e])[..k] == init[..k] && (init + [e])[k] == init[k];
  }

  lemma EverStoredFalselyOneMore(m: Manifest, limit: nat, files: Files, init: seq<Event>, e: Event)
    ensures EverStoredFalsely(m, limit, files, init + [e]) <==>
            EverStoredFalsely(m, limit, files, init) || StoresFalsely(m, Run(m, limit, files, init), e)
  {
    var events := init + [e];
    assert events[..|init|] == init && events[|init|] == e;
    forall k | 0 <= k < |init|
      ensures StoredFalselyAt(m, limit, files, init, k) <==> StoredFalselyAt(m, limit, files, events, k)
    {
      StoredFalselyPrefix(m, limit, files, init, e, k);
    }
    assert StoredFalselyAt(m, limit, files, events, |init|) <==> StoresFalsely(m, Run(m, limit, files, init), e);
    if EverStoredFalsely(m, limit, files, init) {
      var k :| 0 <= k < |init| && StoredFalselyAt(m, limit, files, init, k);
      assert StoredFalselyAt(m, limit, files, events, k);
    }
  }

  /** The stream has ended only if the concatenation is over, and that only if the file's entry is there. */
  predicate EndInv(m: Manifest, s: Load) {
    (s.concat.Returned? || s.concat.Over? ==> m.sha1 in s.files)
    && (s.stream.Ended? ==> s.concat.Over?)
    && (s.concat.Over? ==> !s.stream.Open?)
    && (s.concat.NotBegun? <==> s.loop.concatenations == 0)
  }

  lemma {:induction false} EndRunInv(m: Manifest, limit: nat, files: Files, events: seq<Event>)
    requires limit > 0
    ensures var s := Run(m, limit, files, events);
            EndInv(m, s) && LoopInv(s.loop) && s.loop.count == |m.chunks| && s.loop.limit == limit
    decreases |events|
  {
    if events == [] {
      StartLoopInv(|m.chunks|, limit);
    } else {
      var init, e := events[..|events| - 1], events[|events| - 1];
      EndRunInv(m, limit, files, init);
      StepLoopInv(m, Run(m, limit, files, init), e);
      EndStepInv(m, Run(m, limit, files, init), e);
    }
  }

  lemma EndStepInv(m: Manifest, s: Load, e: Event)
    requires EndInv(m, s) && Step(m, s, e).loop.concatenations <= 1
    ensures EndInv(m, Step(m, s, e))
  {
  }

  /** What an event means to the loop. */
  function LoopEventOf(m: Manifest, s: Load, e: Event): Option<LoopEvent> {
    match e
    case ChunkFound(k) => if Arrives(m, s, e) then Some(Finishes(k)) else None
    case ChunkDownloaded(k, _) => if Arrives(m, s, e) then Some(Finishes(k)) else None
    case ChunkFailed(k) => Some(Fails(k))
    case LoopTick => Some(Tick)
    case _ => None
  }

  lemma LoopOfStep(m: Manifest, s: Load, e: Event)
    ensures Step(m, s, e).loop == match LoopEventOf(m, s, e) case Some(l) => LoopStep(s.loop, l) case None => s.loop
  {
  }

  lemma StepLoopInv(m: Manifest, s: Load, e: Event)
    requires LoopInv(s.loop) && s.loop.limit > 0
    ensures var t := Step(m, s, e).loop; LoopInv(t) && t.count == s.loop.count && t.limit == s.loop.limit
    ensures Step(m, s, e).loop.concatenations <= 1
  {
    LoopOfStep(m, s, e);
    match LoopEventOf(m, s, e)
    case Some(l) => LoopStepInv(s.loop, l);
    case None =>
  }

  /** In every run a stream that has ended has its file in the store; and, if no false entry was there at the start, with
      exactly the file's bytes if and only if nobody stored others under its hash. */
  lemma {:induction false} EndedMeansStored(m: Manifest, limit: nat, files: Files, events: seq<Event>)
    requires limit > 0
    ensures var s := Run(m, limit, files, events);
            s.stream.Ended? ==>
              && m.sha1 in s.files
              && (Exact(files, m.sha1) ==>
                    (s.files[m.sha1] == m.sha1.content <==> !EverStoredFalsely(m, limit, files, events)))
  {
    EndRunInv(m, limit, files, events);
    if Exact(files, m.sha1) { ExactUnlessStoredFalsely(m, limit, files, events); }
  }

  lemma {:induction false} ExactUnlessStoredFalsely(m: Manifest, limit: nat, files: Files, events: seq<Event>)
    requires Exact(files, m.sha1)
    ensures Exact(Run(m, limit, files, events).files, m.sha1) <==> !EverStoredFalsely(m, limit, files, events)
    decreases |events|
  {
    if events != [] {
      var init := events[..|events| - 1];
      ExactUnlessStoredFalsely(m, limit, files, init);
      ExactStep(m, Run(m, limit, files, init), events[|events| - 1]);
      EverStoredFalselyOneMore(m, limit, files, init, events[|events| - 1]);
      assert events == init + [events[|events| - 1]];
    }
  }

  // ---- Loads that never settle

  /** Nothing is left that could happen by itself. */
  predicate Quiet(s: Load) {
    s.loop.running == {} && s.loop.ticks == 0 && !Waits(s.concat) && !s.concat.Returned?
  }

  predicate SettledInv(s: Load) {
    s.loop.error ==> !s.stream.Open?
  }

  lemma {:induction false} SettledRunInv(m: Manifest, limit: nat, files: Files, events: seq<Event>)
    ensures SettledInv(Run(m, limit, files, events))
    decreases |events|
  {
    if events != [] { SettledRunInv(m, limit, files, events[..|events| - 1]); }
  }

  /** A load that has come to rest, neither failed nor cancelled, leaves its caller waiting for ever exactly if the
      manifest has no chunks or the concatenation threw: that comes too late for the loop to pass it on. */
  lemma {:induction false} LoadHangsIff(m: Manifest, limit: nat, files: Files, events: seq<Event>)
    requires limit > 0 && Quiet(Run(m, limit, files, events)) && !Run(m, limit, files, events).stream.Errored?
    ensures var s := Run(m, limit, files, events);
            s.stream.Open? <==> m.chunks == [] || s.concat.Threw?
  {
    EndRunInv(m, limit, files, events);
    SettledRunInv(m, limit, files, events);
  }

  // ---- Honest downloads

  predicate Truthful(files: Files) {
    forall h :: h in files ==> files[h] == h.content
  }

  predicate Honest(m: Manifest, e: Event) {
    match e
    case ChunkDownloaded(k, data) => k < |m.chunks| ==> data == m.chunks[k].sha1.content
    case OtherStores(h, data) => data == h.content
    case _ => true
  }

  predicate AllHonest(m: Manifest, events: seq<Event>) {
    forall i :: 0 <= i < |events| ==> Honest(m, events[i])
  }

  predicate Available(files: Files, m: Manifest, k: nat)
    requires k < |m.chunks|
  {
    m.chunks[k].sha1 in files || m.sha1 in files
  }

  predicate AllStored(files: Files, m: Manifest) {
    forall i :: 0 <= i < |m.chunks| ==> m.chunks[i].sha1 in files
  }

  /** What a concatenation has read so far is the beginning of the file. */
  predicate ConcatInv(file: Bytes, s: Load) {
    var m := ManifestOf(file);
    var blocks := Split(file, CHUNK_SIZE);
    match s.concat
    case Verifying(i) => i <= |m.chunks| && AllStored(s.files, m)
    case Reading(i, data) => i <= |m.chunks| && AllStored(s.files, m) && i <= |blocks| && data == Join(blocks[..i])
    case Threw(_) => false
    case _ => true
  }

  /** Every chunk that has ended well can be read. */
  predicate ChunksInv(s: Load, m: Manifest) {
    s.loop.count == |m.chunks| && LoopInv(s.loop)
    && (!s.loop.error ==> forall k :: 0 <= k < s.loop.next && k !in s.loop.running ==> Available(s.files, m, k))
  }

  predicate HonestInv(file: Bytes, s: Load) {
    Truthful(s.files) && ChunksInv(s, ManifestOf(file)) && ConcatInv(file, s)
  }

  lemma StepTruthful(m: Manifest, s: Load, e: Event)
    requires Truthful(s.files) && Honest(m, e)
    ensures Truthful(Step(m, s, e).files)
  {
  }

  lemma StepChunks(m: Manifest, s: Load, e: Event)
    requires ChunksInv(s, m) && s.loop.limit > 0
    ensures ChunksInv(Step(m, s, e), m)
  {
    var t := Step(m, s, e);
    StepKeeps(m, s, e);
    StepLoopInv(m, s, e);
    forall k | !t.loop.error && 0 <= k < t.loop.next && k !in t.loop.running ensures Available(t.files, m, k) {
      StepAvailable(m, s, e, k);
    }
  }

  lemma StepAvailable(m: Manifest, s: Load, e: Event, k: nat)
    requires s.loop.count == |m.chunks| && s.loop.next <= s.loop.count && k < |m.chunks|
    requires !s.loop.error && k < s.loop.next && k !in s.loop.running ==> Available(s.files, m, k)
    requires var t := Step(m, s, e).loop; !t.error && k < t.next && k !in t.running
    ensures Available(Step(m, s, e).files, m, k)
  {
    StepKeeps(m, s, e);
  }

  lemma ChunksAreBlocks(file: Bytes, i: nat)
    requires i < |ManifestOf(file).chunks|
    ensures var blocks := Split(file, CHUNK_SIZE);
            |blocks| == |ManifestOf(file).chunks| && ManifestOf(file).chunks[i].sha1 == Sha1(blocks[i])
            && ChunkHashes(ManifestOf(file))[i] == Sha1(blocks[i])
            && Join(blocks[..i + 1]) == Join(blocks[..i]) + blocks[i]
  {
    var blocks := Split(file, CHUNK_SIZE);
    ChunkListLengths(blocks, 0);
    assert blocks[..i + 1] == blocks[..i] + [blocks[i]];
    JoinConcat(blocks[..i], [blocks[i]]);
    JoinOne(blocks[i]);
  }

  /** One step of a concatenation over stored chunks reads one more block, and the last finds the file's hash. */
  lemma ResumeReads(file: Bytes, s: Load)
    requires Truthful(s.files) && ConcatInv(file, s)
    ensures var m := ManifestOf(file);
            var (c, files) := Resume(s.concat, s.files, m.sha1, ChunkHashes(m));
            ConcatInv(file, s.(concat := c, files := files))
  {
    var m := ManifestOf(file);
    var blocks := Split(file, CHUNK_SIZE);
    ChunkListLengths(blocks, 0);
    JoinSplit(file, CHUNK_SIZE);
    match s.concat
    case Verifying(i) =>
      assert blocks[..0] == [];
    case Reading(i, data) =>
      if i < |m.chunks| { ChunksAreBlocks(file, i); }
      else { assert blocks[..i] == blocks; }
    case _ =>
  }

  lemma ConcatFrame(file: Bytes, s: Load, t: Load)
    requires ConcatInv(file, s) && t.concat == s.concat && Keeps(s.files, t.files)
    ensures ConcatInv(file, t)
  {
  }

  lemma StepConcat(file: Bytes, s: Load, e: Event)
    requires HonestInv(file, s) && s.loop.limit > 0 && ChunksInv(Step(ManifestOf(file), s, e), ManifestOf(file))
    ensures ConcatInv(file, Step(ManifestOf(file), s, e))
  {
    var m := ManifestOf(file);
    var t := Step(m, s, e);
    StepKeeps(m, s, e);
    if e.Concatenates? {
      ResumeReads(file, s);
    } else if t.loop.concatenations > s.loop.concatenations {
      if m.sha1 !in t.files { BeginsReady(m, t); }
    } else {
      ConcatFrame(file, s, t);
    }
  }

  /** When the last chunk has ended and the file is not there, every chunk is stored by itself. */
  lemma BeginsReady(m: Manifest, t: Load)
    requires ChunksInv(t, m) && t.loop.concatenations == 1 && m.sha1 !in t.files
    ensures AllStored(t.files, m)
  {
    forall i | 0 <= i < |m.chunks| ensures m.chunks[i].sha1 in t.files {
      assert Available(t.files, m, i);
    }
  }

  lemma {:induction false} HonestRunInv(file: Bytes, limit: nat, files: Files, events: seq<Event>)
    requires limit > 0 && Truthful(files) && AllHonest(ManifestOf(file), events)
    ensures HonestInv(file, Run(ManifestOf(file), limit, files, events))
    decreases |events|
  {
    var m := ManifestOf(file);
    if events == [] {
      StartLoopInv(|m.chunks|, limit);
    } else {
      var init, e := events[..|events| - 1], events[|events| - 1];
      HonestRunInv(file, limit, files, init);
      EndRunInv(m, limit, files, init);
      var s := Run(m, limit, files, init);
      StepTruthful(m, s, e);
      StepChunks(m, s, e);
      StepConcat(file, s, e);
    }
  }

  // ---- When a concatenation throws, whatever was downloaded

  lemma {:induction false} ChunksRunInv(m: Manifest, limit: nat, files: Files, events: seq<Event>)
    requires limit > 0
    ensures ChunksInv(Run(m, limit, files, events), m)
    decreases |events|
  {
    if events == [] {
      StartLoopInv(|m.chunks|, limit);
    } else {
      ChunksRunInv(m, limit, files, events[..|events| - 1]);
      EndRunInv(m, limit, files, events[..|events| - 1]);
      StepChunks(m, Run(m, limit, files, events[..|events| - 1]), events[|events| - 1]);
    }
  }

  /** The file is not there, and what the chunk entries hold, one after the other, is not the file. */
  predicate HoldsOtherBytes(store: Files, m: Manifest) {
    m.sha1 !in store && FirstMissing(store, ChunkHashes(m)).None?
    && Join(Contents(store, ChunkHashes(m))) != m.sha1.content
  }

  /** A concatenation begun on a store does what that store determines, whatever is added to it later. */
  predicate Follows(store: Files, m: Manifest, s: Load) {
    Keeps(store, s.files)
    && if m.sha1 in store then s.concat.Returned? || s.concat.Over?
       else
         FirstMissing(store, ChunkHashes(m)).None?
         && var contents := Contents(store, ChunkHashes(m));
         match s.concat
         case NotBegun => false
         case Verifying(i) => i <= |contents|
         case Reading(i, data) => i <= |contents| && data == Join(contents[..i])
         case Threw(why) => why == WrongHash && Join(contents) != m.sha1.content
         case _ => Join(contents) == m.sha1.content
  }

  lemma FollowsResume(store: Files, m: Manifest, s: Load)
    requires Follows(store, m, s)
    ensures var (c, files) := Resume(s.concat, s.files, m.sha1, ChunkHashes(m));
            Follows(store, m, s.(concat := c, files := files))
  {
    if m.sha1 !in store {
      var contents := Contents(store, ChunkHashes(m));
      match s.concat
      case Verifying(i) => assert contents[..0] == [];
      case Reading(i, data) =>
        if i < |contents| {
          assert contents[..i + 1] == contents[..i] + [contents[i]];
          JoinConcat(contents[..i], [contents[i]]);
          JoinOne(contents[i]);
        } else {
          assert contents[..i] == contents;
        }
      case _ =>
    }
  }

  lemma FollowsStep(store: Files, m: Manifest, s: Load, e: Event)
    requires Follows(store, m, s) && EndInv(m, s) && Step(m, s, e).loop.concatenations <= 1
    ensures Follows(store, m, Step(m, s, e))
  {
    StepKeeps(m, s, e);
    if e.Concatenates? { FollowsResume(store, m, s); }
  }

  lemma {:induction false} FollowsRun(m: Manifest, limit: nat, files: Files, before: seq<Event>, after: seq<Event>)
    requires limit > 0 && Follows(Run(m, limit, files, before).files, m, Run(m, limit, files, before))
    ensures Follows(Run(m, limit, files, before).files, m, Run(m, limit, files, before + after))
    decreases |after|
  {
    if after == [] {
      assert before + after == before;
    } else {
      var init, e := after[..|after| - 1], after[|after| - 1];
      FollowsRun(m, limit, files, before, init);
      assert before + after == (before + init) + [e];
      RunStep(m, limit, files, before + init, e);
      EndRunInv(m, limit, files, before + init);
      EndRunInv(m, limit, files, (before + init) + [e]);
      FollowsStep(Run(m, limit, files, before).files, m, Run(m, limit, files, before + init), e);
    }
  }

  lemma {:induction false} BeginFollows(m: Manifest, s: Load, e: Event)
    requires s.concat.NotBegun? && !Step(m, s, e).concat.NotBegun?
    requires ChunksInv(Step(m, s, e), m) && Step(m, s, e).loop.concatenations == 1
    ensures Follows(Step(m, s, e).files, m, Step(m, s, e))
  {
    var t := Step(m, s, e);
    assert t.concat == Begin(t.files, m.sha1);
    if m.sha1 !in t.files { BeginsReady(m, t); }
  }

  /** In every run, whatever is downloaded and stored: a concatenation, once it has stopped waiting, has thrown if and only
      if the store held other bytes than the file's when the last chunk ended; it never misses a chunk. */
  lemma {:induction false} ThrowsIff(m: Manifest, limit: nat, files: Files, before: seq<Event>, last: Event, after: seq<Event>)
    requires limit > 0
    requires Run(m, limit, files, before).concat.NotBegun? && !Run(m, limit, files, before + [last]).concat.NotBegun?
    requires !Waits(Run(m, limit, files, before + [last] + after).concat)
    ensures var store := Run(m, limit, files, before + [last]).files;
            var s := Run(m, limit, files, before + [last] + after);
            && (s.concat.Threw? <==> HoldsOtherBytes(store, m))
            && (s.concat.Threw? ==> s.concat.why == WrongHash)
  {
    RunStep(m, limit, files, before, last);
    ChunksRunInv(m, limit, files, before + [last]);
    EndRunInv(m, limit, files, before + [last]);
    BeginFollows(m, Run(m, limit, files, before), last);
    FollowsRun(m, limit, files, before + [last], after);
  }

  /** So a load at rest whose last chunk has ended, neither failed nor cancelled, hangs if and only if the store held other
      bytes than the file's at that moment. */
  lemma {:induction false} LoadHangsIffOtherBytes(m: Manifest, limit: nat, files: Files, before: seq<Event>, last: Event, after: seq<Event>)
    requires limit > 0
    requires Run(m, limit, files, before).concat.NotBegun? && !Run(m, limit, files, before + [last]).concat.NotBegun?
    requires var s := Run(m, limit, files, before + [last] + after); Quiet(s) && !s.stream.Errored?
    ensures Run(m, limit, files, before + [last] + after).stream.Open? <==>
            HoldsOtherBytes(Run(m, limit, files, before + [last]).files, m)
  {
    ThrowsIff(m, limit, files, before, last, after);
    LoadHangsIff(m, limit, files, before + [last] + after);
    EndRunInv(m, limit, files, before + [last]);
  }

  // ---- A concatenation that has begun comes to its end

  function NumConcatenates(events: seq<Event>): nat {
    if events == [] then 0
    else NumConcatenates(events[..|events| - 1]) + if events[|events| - 1].Concatenates? then 1 else 0
  }

  lemma StepProgress(m: Manifest, s: Load, e: Event)
    requires !s.concat.NotBegun? && s.loop.concatenations == 1 && LoopInv(s.loop) && s.loop.limit > 0
    ensures var t := Step(m, s, e);
            && !t.concat.NotBegun?
            && StepsLeft(t.concat, |m.chunks|) <=
               (var left := StepsLeft(s.concat, |m.chunks|); if e.Concatenates? && left > 0 then left - 1 else left)
  {
    StepLoopInv(m, s, e);
  }

  lemma {:induction false} Progress(m: Manifest, limit: nat, files: Files, before: seq<Event>, after: seq<Event>)
    requires limit > 0 && !Run(m, limit, files, before).concat.NotBegun?
    ensures var t := Run(m, limit, files, before + after);
            var left := StepsLeft(Run(m, limit, files, before).concat, |m.chunks|);
            && !t.concat.NotBegun?
            && StepsLeft(t.concat, |m.chunks|) <= if NumConcatenates(after) <= left then left - NumConcatenates(after) else 0
    decreases |after|
  {
    if after == [] {
      assert before + after == before;
    } else {
      var init, e := after[..|after| - 1], after[|after| - 1];
      Progress(m, limit, files, before, init);
      assert before + after == (before + init) + [e];
      RunStep(m, limit, files, before + init, e);
      EndRunInv(m, limit, files, before + init);
      StepProgress(m, Run(m, limit, files, before + init), e);
    }
  }

  /** Store and load are inverse: in every honest run in which the concatenation has begun, whatever else happens, after
      2n+3 further steps of it (n chunks) the store holds exactly the file's bytes and the stream is no longer open. */
  lemma {:induction false} BegunLoadStoresTheFile(file: Bytes, limit: nat, files: Files, before: seq<Event>, after: seq<Event>)
    requires limit > 0 && Truthful(files) && AllHonest(ManifestOf(file), before + after)
    requires !Run(ManifestOf(file), limit, files, before).concat.NotBegun?
    requires NumConcatenates(after) >= 2 * |ManifestOf(file).chunks| + 3
    ensures var s := Run(ManifestOf(file), limit, files, before + after);
            Sha1(file) in s.files && s.files[Sha1(file)] == file && !s.stream.Open?
  {
    var m := ManifestOf(file);
    Progress(m, limit, files, before, after);
    EndRunInv(m, limit, files, before + after);
    HonestRunInv(file, limit, files, before + after);
  }

  /** In every honest run a resolved load of a non-empty file has begun its concatenation, and that never throws. */
  lemma {:induction false} ResolvedLoadHasBegun(file: Bytes, limit: nat, files: Files, events: seq<Event>)
    requires limit > 0 && Truthful(files) && AllHonest(ManifestOf(file), events) && file != []
    ensures var s := Run(ManifestOf(file), limit, files, events);
            !s.concat.Threw? && (s.loop.resolved == 1 ==> !s.concat.NotBegun?)
  {
    HonestRunInv(file, limit, files, events);
    EndRunInv(ManifestOf(file), limit, files, events);
  }

  // ---- The loop resolves before the file is stored

  lemma {:induction false} ChunkIsNotTheFile(file: Bytes, i: nat)
    requires |file| > CHUNK_SIZE && i < |ManifestOf(file).chunks|
    ensures ManifestOf(file).chunks[i].sha1 != Sha1(file)
  {
    ChunksAreBlocks(file, i);
    SplitSizes(file, CHUNK_SIZE);
  }

  /** The run in which every chunk is downloaded, its end is followed by an update, and nothing else happens. */
  function StraightRun(m: Manifest, k: nat): seq<Event>
    requires k <= |m.chunks|
  {
    if k == 0 then []
    else StraightRun(m, k - 1) + [ChunkDownloaded(k - 1, m.chunks[k - 1].sha1.content)] + [LoopTick]
  }

  predicate AfterStraight(m: Manifest, s: Load, k: nat) {
    var l := s.loop;
    && l.count == |m.chunks| && l.limit > 0 && !l.error && l.numComplete == l.finished == k && l.ticks == 0
    && l.next == (if k < |m.chunks| then k + 1 else k)
    && l.running == (if k < |m.chunks| then {k} else {}) && l.numRunning == |l.running|
    && l.resolved == (if k == |m.chunks| then 1 else 0)
    && s.stream == Open
  }

  lemma {:induction false} StraightRunResolves(m: Manifest, limit: nat, files: Files, k: nat)
    requires limit > 0 && k <= |m.chunks|
    ensures AfterStraight(m, Run(m, limit, files, StraightRun(m, k)), k)
  {
    if k > 0 {
      StraightRunResolves(m, limit, files, k - 1);
      var init, e := StraightRun(m, k - 1), ChunkDownloaded(k - 1, m.chunks[k - 1].sha1.content);
      RunTwoSteps(m, limit, files, init, e, LoopTick);
      StraightStep(m, Run(m, limit, files, init), e, k);
    } else {
      StraightStart(m, limit, files);
    }
  }

  lemma RunTwoSteps(m: Manifest, limit: nat, files: Files, events: seq<Event>, first: Event, second: Event)
    ensures Run(m, limit, files, events + [first] + [second]) == Step(m, Step(m, Run(m, limit, files, events), first), second)
  {
    RunStep(m, limit, files, events, first);
    RunStep(m, limit, files, events + [first], second);
  }

  lemma StraightStart(m: Manifest, limit: nat, files: Files)
    requires limit > 0
    ensures AfterStraight(m, Run(m, limit, files, []), 0)
  {
  }

  lemma StraightStep(m: Manifest, s: Load, e: Event, k: nat)
    requires 0 < k <= |m.chunks| && AfterStraight(m, s, k - 1)
    requires e == ChunkDownloaded(k - 1, m.chunks[k - 1].sha1.content)
    ensures AfterStraight(m, Step(m, Step(m, s, e), LoopTick), k)
  {
    var t := Step(m, s, e);
    assert t.loop.running == {} && t.loop.numRunning == 0 && t.loop.ticks == 1;
    assert t.loop.numComplete == t.loop.finished == k && t.loop.next == k;
  }

  predicate NobodyElse(events: seq<Event>) {
    forall i :: 0 <= i < |events| ==> !events[i].OtherStores? && !events[i].Concatenates?
  }

  lemma {:induction false} NotStoredByChunks(file: Bytes, limit: nat, files: Files, events: seq<Event>)
    requires |file| > CHUNK_SIZE && Sha1(file) !in files && NobodyElse(events)
    ensures Sha1(file) !in Run(ManifestOf(file), limit, files, events).files
    decreases |events|
  {
    if events != [] {
      var init, e := events[..|events| - 1], events[|events| - 1];
      NotStoredByChunks(file, limit, files, init);
      if e.ChunkDownloaded? && e.chunk < |ManifestOf(file).chunks| { ChunkIsNotTheFile(file, e.chunk); }
    }
  }

  /** A resolved loop does not mean a stored file: for every file of more than one chunk there is an honest run whose
      loop has resolved while the file is not there and the stream is open. With a single chunk, which is the file, it
      is there. */
  lemma {:induction false} ResolvesBeforeItStores(file: Bytes, limit: nat, files: Files)
    requires limit > 0 && file != [] && Truthful(files) && Sha1(file) !in files
    ensures var m := ManifestOf(file);
            var events := StraightRun(m, |m.chunks|);
            var s := Run(m, limit, files, events);
            && AllHonest(m, events) && s.loop.resolved == 1 && s.stream == Open
            && (Sha1(file) !in s.files <==> |file| > CHUNK_SIZE)
  {
    var m := ManifestOf(file);
    var events := StraightRun(m, |m.chunks|);
    StraightRunResolves(m, limit, files, |m.chunks|);
    StraightNobodyElse(m, |m.chunks|);
    if |file| > CHUNK_SIZE {
      NotStoredByChunks(file, limit, files, events);
    } else {
      SingleChunkIsTheFile(file);
      HonestRunInv(file, limit, files, events);
      assert Available(Run(m, limit, files, events).files, m, 0);
    }
  }

  lemma {:induction false} StraightNobodyElse(m: Manifest, k: nat)
    requires k <= |m.chunks|
    ensures NobodyElse(StraightRun(m, k)) && AllHonest(m, StraightRun(m, k))
  {
    if k > 0 { StraightNobodyElse(m, k - 1); }
  }

  lemma {:induction false} SingleChunkIsTheFile(file: Bytes)
    requires 0 < |file| <= CHUNK_SIZE
    ensures |ManifestOf(file).chunks| == 1 && ManifestOf(file).chunks[0].sha1 == Sha1(file)
  {
    var blocks := Split(file, CHUNK_SIZE);
    ManyChunksIff(file);
    ChunkListLengths(blocks, 0);
    JoinSplit(file, CHUNK_SIZE);
    assert blocks != [];
    assert blocks == [blocks[0]];
    JoinOne(blocks[0]);
  }

  /** Left to itself, a concatenation for a file returns exactly if the file is there already or the chunk entries are, one
      after the other, its bytes. Otherwise it throws, and by LoadHangsIff its load hangs. */
  lemma {:induction false} AloneReturnsIff(files: Files, file: Bytes)
    ensures var m := ManifestOf(file);
            RunAlone(Begin(files, m.sha1), files, m.sha1, ChunkHashes(m)).0 == Returned <==>
              Sha1(file) in files
              || (FirstMissing(files, ChunkHashes(m)).None? && Join(Contents(files, ChunkHashes(m))) == file)
  {
    var m := ManifestOf(file);
    AloneIsConcatenate(files, m.sha1, ChunkHashes(m));
    if Sha1(file) !in files && FirstMissing(files, ChunkHashes(m)).None? { ManifestLoadStoresIff(files, file); }
  }
}
