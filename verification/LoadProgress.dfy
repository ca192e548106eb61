/** What each event does to a load: a chunk that is found or downloaded moves the loop on, a chunk that fails stops it for
    good, and what settles the caller's stream settles it once. */
module LoadProgress {
  import opened Wrappers
  import opened Blocks
  import opened FileChunks
  import opened ManifestLoad
  import opened ManifestRuns

  /** A chunk ends when it is downloaded, or when the store holds it or the whole file. */
  predicate Ends(m: Manifest, files: Files, e: Event, k: nat)
    requires k < |m.chunks|
  {
    || (e.ChunkDownloaded? && e.chunk == k)
    || (e == ChunkFound(k) && (m.chunks[k].sha1 in files || m.sha1 in files))
  }

  lemma OnlyOneRuns(s: Loop, k: nat)
    requires LoopInv(s) && k in s.running
    ensures s.running == {k} && s.ticks == 0 && !s.error && s.resolved == 0 && s.next == s.finished + 1 <= s.count
    ensures s.started == seq(s.next, i => i) && s.concatenations == 0
  {
    assert s.running - {k} == {} by { RemoveOne(s.running, k); }
  }

  lemma ChunkEndSteps(m: Manifest, s: Load, e: Event, k: nat)
    requires LoopInv(s.loop) && s.loop.count == |m.chunks| && k < |m.chunks| && k in s.loop.running && Ends(m, s.files, e, k)
    ensures var t := Step(m, s, e);
            && t.stream == s.stream
            && t.files == (if e.ChunkDownloaded? && m.chunks[k].sha1 !in s.files then s.files[m.chunks[k].sha1 := e.data] else s.files)
            && t.loop.finished == s.loop.finished + 1 == |s.loop.started| && t.loop.running == {} && t.loop.started == s.loop.started
            && (t.loop.finished < |m.chunks| ==> t.concat == s.concat)
            && (t.loop.finished == |m.chunks| ==>
                  t.concat == if m.sha1 in t.files then Returned else Verifying(0))
  {
    OnlyOneRuns(s.loop, k);
  }

  lemma TickAfterEnd(m: Manifest, s: Load, e: Event, k: nat)
    requires LoopInv(s.loop) && s.loop.limit > 0 && s.loop.count == |m.chunks| && k < |m.chunks|
    requires k in s.loop.running && Ends(m, s.files, e, k)
    ensures var t, u := Step(m, s, e), Step(m, Step(m, s, e), LoopTick);
            && u.files == t.files && u.concat == t.concat && u.stream == t.stream
            && (|s.loop.started| < |m.chunks| ==>
                  u.loop.running == {|s.loop.started|} && u.loop.started == s.loop.started + [|s.loop.started|])
            && (|s.loop.started| == |m.chunks| ==> u.loop.resolved == 1)
  {
    OnlyOneRuns(s.loop, k);
    assert s.loop.numRunning == 1;
  }

  /** In every run, the end of the running chunk leaves the loop, after one update, at the next chunk, or resolved after
      the last; the last one begins the concatenation, which is over at once if the store holds the file. */
  lemma {:induction false} ChunkEndMovesOn(m: Manifest, limit: nat, files: Files, events: seq<Event>, e: Event, k: nat)
    requires limit > 0 && k < |m.chunks| && k in Run(m, limit, files, events).loop.running
    requires Ends(m, Run(m, limit, files, events).files, e, k)
    ensures var s, t := Run(m, limit, files, events), Run(m, limit, files, events + [e] + [LoopTick]);
            && t.stream == s.stream
            && t.files == (if e.ChunkDownloaded? && m.chunks[k].sha1 !in s.files then s.files[m.chunks[k].sha1 := e.data] else s.files)
            && (|s.loop.started| < |m.chunks| ==>
                  && t.loop.running == {|s.loop.started|} && t.loop.started == s.loop.started + [|s.loop.started|]
                  && t.concat == s.concat)
            && (|s.loop.started| == |m.chunks| ==>
                  t.loop.resolved == 1 && t.concat == if m.sha1 in t.files then Returned else Verifying(0))
  {
    var s := Run(m, limit, files, events);
    EndRunInv(m, limit, files, events);
    ChunkEndSteps(m, s, e, k);
    TickAfterEnd(m, s, e, k);
    RunTwoSteps(m, limit, files, events, e, LoopTick);
  }

  /** A chunk that is not in the store, nor the file, goes on until it is downloaded or fails. */
  lemma MissingChunkGoesOn(m: Manifest, limit: nat, files: Files, events: seq<Event>, k: nat)
    requires k < |m.chunks|
    requires var s := Run(m, limit, files, events); m.chunks[k].sha1 !in s.files && m.sha1 !in s.files
    ensures Run(m, limit, files, events + [ChunkFound(k)]) == Run(m, limit, files, events)
  {
    RunStep(m, limit, files, events, ChunkFound(k));
  }

  /** The loop has been stopped by a chunk. */
  predicate Stopped(s: Load, started: seq<nat>) {
    && s.loop.rejected == 1 && s.loop.resolved == 0 && s.loop.error && s.loop.running == {} && s.loop.ticks == 0
    && s.loop.started == started && s.concat.NotBegun?
  }

  lemma StoppedStays(m: Manifest, s: Load, e: Event, started: seq<nat>)
    requires Stopped(s, started)
    ensures Stopped(Step(m, s, e), started)
  {
  }

  /** In every run, a running chunk that fails rejects the loop for good: no chunk is started afterwards, nothing is ever
      concatenated, and a caller still waiting is told of the error. */
  lemma {:induction false} FailedChunkEndsLoad(m: Manifest, limit: nat, files: Files, before: seq<Event>, k: nat, after: seq<Event>)
    requires limit > 0 && k in Run(m, limit, files, before).loop.running
    ensures var s, t := Run(m, limit, files, before), Run(m, limit, files, before + [ChunkFailed(k)] + after);
            Stopped(t, s.loop.started) && t.stream == (if s.stream.Open? then Errored else s.stream)
    decreases |after|
  {
    var s := Run(m, limit, files, before);
    EndRunInv(m, limit, files, before);
    OnlyOneRuns(s.loop, k);
    if after == [] {
      assert before + [ChunkFailed(k)] + after == before + [ChunkFailed(k)];
      RunStep(m, limit, files, before, ChunkFailed(k));
    } else {
      var init, e := after[..|after| - 1], after[|after| - 1];
      FailedChunkEndsLoad(m, limit, files, before, k, init);
      StoppedStays(m, Run(m, limit, files, before + [ChunkFailed(k)] + init), e, s.loop.started);
      assert before + [ChunkFailed(k)] + after == before + [ChunkFailed(k)] + init + [e];
      RunStep(m, limit, files, before + [ChunkFailed(k)] + init, e);
    }
  }

  /** In every run, a cancelled load tells a caller still waiting of an error, and whatever has settled the stream it stays
      settled that way. The loop is left to the events of its chunks. */
  lemma {:induction false} CancelSettlesStream(m: Manifest, limit: nat, files: Files, before: seq<Event>, after: seq<Event>)
    ensures var s, t := Run(m, limit, files, before), Run(m, limit, files, before + [Cancelled]);
            && t.stream == (if s.stream.Open? then Errored else s.stream)
            && t.loop == s.loop && t.files == s.files && t.concat == s.concat
    ensures var s, t := Run(m, limit, files, before), Run(m, limit, files, before + after);
            !s.stream.Open? ==> t.stream == s.stream
    decreases |after|
  {
    RunStep(m, limit, files, before, Cancelled);
    if after == [] {
      assert before + after == before;
    } else {
      var init, e := after[..|after| - 1], after[|after| - 1];
      CancelSettlesStream(m, limit, files, before, init);
      assert before + after == before + init + [e];
      RunStep(m, limit, files, before + init, e);
    }
  }

  predicate NothingFails(events: seq<Event>) {
    forall i :: 0 <= i < |events| ==> !events[i].Cancelled? && !events[i].ChunkFailed?
  }

  /** Only a failed chunk or cancelling makes the caller's stream an error. */
  lemma {:induction false} UnfailedIsNoError(m: Manifest, limit: nat, files: Files, events: seq<Event>)
    requires NothingFails(events)
    ensures !Run(m, limit, files, events).stream.Errored?
    decreases |events|
  {
    if events != [] { UnfailedIsNoError(m, limit, files, events[..|events| - 1]); }
  }

  /** In every honest run in which nothing fails, once the concatenation of n chunks has begun, 2n+3 further steps of it
      end the caller's stream. */
  lemma {:induction false} UnfailedLoadEnds(file: Bytes, limit: nat, files: Files, before: seq<Event>, after: seq<Event>)
    requires limit > 0 && Truthful(files) && AllHonest(ManifestOf(file), before + after) && NothingFails(before + after)
    requires !Run(ManifestOf(file), limit, files, before).concat.NotBegun?
    requires NumConcatenates(after) >= 2 * |ManifestOf(file).chunks| + 3
    ensures Run(ManifestOf(file), limit, files, before + after).stream.Ended?
  {
    BegunLoadStoresTheFile(file, limit, files, before, after);
    UnfailedIsNoError(ManifestOf(file), limit, files, before + after);
  }
}
