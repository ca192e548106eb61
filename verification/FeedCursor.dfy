/** Reading a subfeed with a cursor: waiting for messages in the daemon, and the client's two ways of consuming them.

  The daemon answers from the memory of some instance of the subfeed, so every answer is computed from a prefix of the
  log, and different answers may come from prefixes of different lengths. */
module FeedCursor {
  import opened Wrappers

  /** The messages from `position` on, at most `max` of them; 0 means no limit. */
  function Available<T>(memory: seq<T>, position: nat, max: nat): seq<T> {
    if position < |memory| then
      var numMessages := if max > 0 && max < |memory| - position then max else |memory| - position;
      memory[position..position + numMessages]
    else []
  }

  // ---- Waiting in the daemon

  /** A wait that found nothing at once: it ends with the first non-empty answer or, at the timeout, with nothing. */
  datatype WaitEvent<T> = NewMessages(memory: seq<T>) | Timeout

  function WaitStep<T>(answer: Option<seq<T>>, e: WaitEvent<T>, position: nat, max: nat): Option<seq<T>> {
    if answer.Some? then answer
    else match e
      case Timeout => Some([])
      case NewMessages(memory) =>
        if Available(memory, position, max) != [] then Some(Available(memory, position, max)) else None
  }

  function WaitRun<T>(events: seq<WaitEvent<T>>, position: nat, max: nat): Option<seq<T>> {
    if events == [] then None
    else WaitStep(WaitRun(events[..|events| - 1], position, max), events[|events| - 1], position, max)
  }

  predicate Decides<T>(e: WaitEvent<T>, position: nat, max: nat) {
    e.Timeout? || Available(e.memory, position, max) != []
  }

  /** A wait is settled by the first event that decides it and by no later one. */
  lemma {:induction false} FirstDecidingEventSettles<T>(events: seq<WaitEvent<T>>, first: nat, position: nat, max: nat)
    requires first < |events| && Decides(events[first], position, max)
    requires forall i :: 0 <= i < first ==> !Decides(events[i], position, max)
    ensures WaitRun(events, position, max)
         == Some(if events[first].Timeout? then [] else Available(events[first].memory, position, max))
    ensures WaitRun(events[..first], position, max) == None
    decreases |events|
  {
    var init := events[..|events| - 1];
    if first == |init| {
      UndecidedWaits(init, position, max);
    } else {
      FirstDecidingEventSettles(init, first, position, max);
      assert init[..first] == events[..first];
    }
  }

  lemma {:induction false} UndecidedWaits<T>(events: seq<WaitEvent<T>>, position: nat, max: nat)
    requires forall i :: 0 <= i < |events| ==> !Decides(events[i], position, max)
    ensures WaitRun(events, position, max) == None
    decreases |events|
  {
    if events != [] { UndecidedWaits(events[..|events| - 1], position, max); }
  }

  /** The listener registered by a wait. */
  class MessageWaiter<T(==)> {
    const position: nat
    const max: nat
    var completed: bool
    var answer: Option<seq<T>>
    ghost var history: seq<WaitEvent<T>>

    ghost predicate Valid()
      reads this
    {
      completed == answer.Some? && answer == WaitRun(history, position, max)
    }

    constructor (position: nat, max: nat)
      ensures Valid() && this.position == position && this.max == max && history == []
    {
      this.position, this.max := position, max;
      completed, answer, history := false, None, [];
    }

    method OnNewMessages(memory: seq<T>)
      requires Valid()
      modifies this
      ensures Valid() && history == old(history) + [NewMessages(memory)]
    {
      history := history + [NewMessages(memory)];
      assert history[..|history| - 1] == old(history);
      if completed { return; }
      if position < |memory| {
        var numMessages := |memory| - position;
        if max > 0 && max < numMessages { numMessages := max; }
        completed, answer := true, Some(memory[position..position + numMessages]);
      }
    }

    method OnTimeout()
      requires Valid()
      modifies this
      ensures Valid() && history == old(history) + [Timeout] && answer.Some?
    {
      history := history + [Timeout];
      assert history[..|history| - 1] == old(history);
      if completed { return; }
      completed, answer := true, Some([]);
    }
  }

  // ---- Fetching with a position

  /** One fetch by the client: the memory it was answered from, its limit, whether the answer got lost to the timeout,
      and whether the client advances its position. */
  datatype Fetch<T> = Fetch(memory: seq<T>, max: nat, timedOut: bool, advance: bool)

  function Answer<T>(f: Fetch<T>, position: nat): seq<T> {
    if f.timedOut then [] else Available(f.memory, position, f.max)
  }

  function NextPosition<T>(f: Fetch<T>, position: nat): nat {
    if f.advance then position + |Answer(f, position)| else position
  }

  function PositionAfter<T>(fetches: seq<Fetch<T>>, start: nat): nat {
    if fetches == [] then start
    else NextPosition(fetches[|fetches| - 1], PositionAfter(fetches[..|fetches| - 1], start))
  }

  /** The answers of the advancing fetches, one after the other. */
  function Consumed<T>(fetches: seq<Fetch<T>>, start: nat): seq<T> {
    if fetches == [] then []
    else
      var init, last := fetches[..|fetches| - 1], fetches[|fetches| - 1];
      Consumed(init, start) + if last.advance then Answer(last, PositionAfter(init, start)) else []
  }

  /** Whatever the limits and the waits, advancing fetches return every log entry from the start position to the final
      position exactly once and in order; from beyond the end of the log they return nothing. */
  lemma {:induction false} FetchesReadTheLog<T>(log: seq<T>, fetches: seq<Fetch<T>>, start: nat)
    requires forall i :: 0 <= i < |fetches| ==> fetches[i].memory <= log
    ensures start <= |log| ==>
            && start <= PositionAfter(fetches, start) <= |log|
            && Consumed(fetches, start) == log[start..PositionAfter(fetches, start)]
    ensures start > |log| ==> PositionAfter(fetches, start) == start && Consumed(fetches, start) == []
    decreases |fetches|
  {
    if fetches != [] {
      var init, last := fetches[..|fetches| - 1], fetches[|fetches| - 1];
      FetchesReadTheLog(log, init, start);
      var p := PositionAfter(init, start);
      var answer := Answer(last, p);
      if start <= |log| {
        assert answer == log[p..p + |answer|];
        assert log[start..p] + log[p..p + |answer|] == log[start..p + |answer|];
      }
    }
  }

  /** One fetch: nothing if it timed out or there is nothing new, and otherwise what comes from the position on, as much as
      there is or the limit allows; only an advancing fetch moves the position, and past exactly what it returned. */
  lemma FetchReturns<T>(f: Fetch<T>, position: nat)
    ensures f.timedOut || position >= |f.memory| ==> Answer(f, position) == []
    ensures !f.timedOut && position < |f.memory| ==>
              var rest := |f.memory| - position;
              && |Answer(f, position)| == (if 0 < f.max < rest then f.max else rest)
              && forall i :: 0 <= i < |Answer(f, position)| ==> Answer(f, position)[i] == f.memory[position + i]
    ensures PositionAfter([f], position) == if f.advance then position + |Answer(f, position)| else position
  {
    assert [f][..0] == [];
  }

  /** A fetch without a limit, answered from the whole log, returns all the rest of it. */
  lemma UnlimitedFetchReadsTheRest<T>(log: seq<T>, start: nat)
    requires start <= |log|
    ensures var f := Fetch(log, 0, false, true);
            Answer(f, start) == log[start..] && PositionAfter([f], start) == |log|
  {
    var f := Fetch(log, 0, false, true);
    assert [f][..0] == [];
    assert log[start..] == log[start..|log|];
  }

  function Repeated<T>(f: Fetch<T>, times: nat): seq<Fetch<T>> {
    if times == 0 then [] else Repeated(f, times - 1) + [f]
  }

  /** Limited fetches get to the end: n of them, answered from the whole log, return n limits' worth of messages, or as many
      as there are. */
  lemma {:induction false} FetchesReachTheEnd<T>(log: seq<T>, limit: nat, times: nat, start: nat)
    requires limit > 0 && start <= |log|
    ensures PositionAfter(Repeated(Fetch(log, limit, false, true), times), start)
         == if start + times * limit < |log| then start + times * limit else |log|
  {
    var f := Fetch(log, limit, false, true);
    if times > 0 {
      FetchesReachTheEnd(log, limit, times - 1, start);
      var init := Repeated(f, times - 1);
      assert (init + [f])[..|init|] == init;
      assert times * limit == (times - 1) * limit + limit;
    }
  }

  /** A snapshot answers a fetch by slicing its fixed list of messages. */
  function SnapshotAnswer<T>(messages: seq<T>, position: nat, max: nat): seq<T> {
    var end := if max > 0 && position + max < |messages| then position + max else |messages|;
    if position <= end then messages[position..end] else []
  }

  /** A snapshot answers like a live subfeed that holds exactly the snapshot's messages. */
  lemma SnapshotAnswersLikeLog<T>(messages: seq<T>, position: nat, max: nat)
    ensures SnapshotAnswer(messages, position, max) == Available(messages, position, max)
  {
  }

  class SubfeedReader<T> {
    /** The messages, if the feed is a snapshot. */
    const snapshot: Option<seq<T>>
    var position: nat

    constructor (position: nat, snapshot: Option<seq<T>>)
      ensures this.position == position && this.snapshot == snapshot
    {
      this.position, this.snapshot := position, snapshot;
    }

    /** The fetch that is answered: a snapshot answers from its own messages and loses no answer. */
    function Effective(f: Fetch<T>): Fetch<T> {
      if snapshot.Some? then f.(memory := snapshot.value, timedOut := false) else f
    }

    method GetNextMessages(f: Fetch<T>) returns (messages: seq<T>)
      modifies this
      ensures messages == Answer(Effective(f), old(position)) && position == NextPosition(Effective(f), old(position))
    {
      messages := [];
      if snapshot.Some? {
        SnapshotAnswersLikeLog(snapshot.value, position, f.max);
        messages := SnapshotAnswer(snapshot.value, position, f.max);
      } else if !f.timedOut && position < |f.memory| {
        var numMessages := |f.memory| - position;
        if f.max > 0 && f.max < numMessages { numMessages := f.max; }
        messages := f.memory[position..position + numMessages];
      }
      if f.advance { position := position + |messages|; }
    }
  }

  // ---- The message stream

  /** The iterator keeps every message it has loaded; `relative` counts those it has handed out. It shares `position`
      with the reader it was made from. */
  datatype Stream<T> = Stream(position: nat, buffer: seq<T>, relative: nat)

  datatype StreamEvent<T> = Load(memory: seq<T>) | Next | Moved(count: nat)

  /** The iterator loads only when it has handed out everything; other users of the reader may move the position. */
  function StreamStep<T>(s: Stream<T>, e: StreamEvent<T>): Stream<T> {
    match e
    case Load(memory) => if s.relative >= |s.buffer| then s.(buffer := s.buffer + Available(memory, s.position, 0)) else s
    case Next => if s.relative < |s.buffer| then s.(position := s.position + 1, relative := s.relative + 1) else s
    case Moved(k) => s.(position := s.position + k)
  }

  function StreamRun<T>(start: nat, events: seq<StreamEvent<T>>): Stream<T> {
    if events == [] then Stream(start, [], 0) else StreamStep(StreamRun(start, events[..|events| - 1]), events[|events| - 1])
  }

  function Yielded<T>(s: Stream<T>): seq<T> {
    if s.relative <= |s.buffer| then s.buffer[..s.relative] else s.buffer
  }

  ghost predicate InStep<T>(log: seq<T>, start: nat, s: Stream<T>) {
    && start + |s.buffer| <= |log| && s.relative <= |s.buffer|
    && s.buffer == log[start..start + |s.buffer|]
    && s.position == start + s.relative
  }

  lemma LoadKeepsInStep<T>(log: seq<T>, start: nat, s: Stream<T>, memory: seq<T>)
    requires InStep(log, start, s) && s.relative == |s.buffer| && memory <= log
    ensures InStep(log, start, StreamStep(s, Load(memory)))
  {
    var more := Available(memory, s.position, 0);
    assert more == log[s.position..s.position + |more|];
    assert log[start..s.position] + more == log[start..s.position + |more|];
  }

  /** Used by nobody else, the stream yields exactly the log entries from the start to its position. */
  lemma {:induction false} StreamYieldsTheLog<T>(log: seq<T>, start: nat, events: seq<StreamEvent<T>>)
    requires start <= |log|
    requires forall i :: 0 <= i < |events| ==> !events[i].Moved? && (events[i].Load? ==> events[i].memory <= log)
    ensures var s := StreamRun(start, events);
            && InStep(log, start, s)
            && start <= s.position <= |log|
            && Yielded(s) == log[start..s.position]
    decreases |events|
  {
    if events != [] {
      var init, e := events[..|events| - 1], events[|events| - 1];
      StreamYieldsTheLog(log, start, init);
      var s := StreamRun(start, init);
      if e.Load? && s.relative == |s.buffer| { LoadKeepsInStep(log, start, s, e.memory); }
    }
  }

  function Nexts<T>(n: nat): seq<StreamEvent<T>> {
    if n == 0 then [] else Nexts(n - 1) + [Next]
  }

  lemma {:induction false} NextsYield<T>(log: seq<T>, start: nat, n: nat)
    requires start + n <= |log|
    ensures StreamRun(start, [Load(log)] + Nexts(n)) == Stream(start + n, log[start..], n)
  {
    var first: seq<StreamEvent<T>> := [Load(log)];
    if n == 0 {
      assert first + Nexts(0) == first && first[..0] == [];
      assert [] + log[start..] == log[start..] && log[start..] == log[start..|log|];
    } else {
      NextsYield(log, start, n - 1);
      var init := first + Nexts(n - 1);
      assert first + Nexts(n) == init + [Next];
      assert (init + [Next])[..|init|] == init;
    }
  }

  /** An iterator that has loaded the whole log hands all of it out from its start, one message a step. */
  lemma {:induction false} StreamReachesTheEnd<T>(log: seq<T>, start: nat)
    requires start <= |log|
    ensures Yielded(StreamRun(start, [Load(log)] + Nexts(|log| - start))) == log[start..]
  {
    NextsYield(log, start, |log| - start);
  }

  /** A load that brings something continues the stream without a gap or a repetition exactly when the shared position
      is where the buffer ends, that is, when nobody else has moved it. */
  lemma LoadContinuesIff<T(!new)>(log: seq<T>, start: nat, s: Stream<T>, memory: seq<T>)
    requires forall i, j :: 0 <= i < j < |log| ==> log[i] != log[j]
    requires start + |s.buffer| <= |log| && s.buffer == log[start..start + |s.buffer|]
    requires memory <= log && s.relative >= |s.buffer| && s.position < |memory|
    ensures var b := StreamStep(s, Load(memory)).buffer;
            (start + |b| <= |log| && b == log[start..start + |b|]) <==> s.position == start + |s.buffer|
  {
    var more := Available(memory, s.position, 0);
    var b := s.buffer + more;
    assert more == log[s.position..|memory|];
    assert b[|s.buffer|] == log[s.position];
    if s.position == start + |s.buffer| {
      assert log[start..s.position] + more == log[start..|memory|];
    }
  }

  /** Fetching from the reader while its stream holds undelivered messages makes the stream skip entries later on. */
  lemma SharedPositionSkips()
    ensures var log := [10, 11, 12];
            Yielded(StreamRun(0, [Load(log[..1]), Moved(1), Next, Load(log), Next])) == [10, 12]
  {
    var log := [10, 11, 12];
    var e := [Load(log[..1]), Moved(1), Next, Load(log), Next];
    var s1, s2, s3, s4, s5 :=
      Stream(0, [10], 0), Stream(1, [10], 0), Stream(2, [10], 1), Stream(2, [10, 12], 1), Stream(3, [10, 12], 2);
    assert StreamStep(Stream(0, [], 0), Load(log[..1])) == s1;
    assert log[2..3] == [12];
    assert StreamStep(s3, Load(log)) == s4;
    StreamRunStep(0, e, 0);
    StreamRunStep(0, e, 1);
    StreamRunStep(0, e, 2);
    StreamRunStep(0, e, 3);
    StreamRunStep(0, e, 4);
    assert e[..5] == e;
    assert StreamRun(0, e) == s5;
  }

  lemma StreamRunStep<T>(start: nat, events: seq<StreamEvent<T>>, i: nat)
    requires i < |events|
    ensures StreamRun(start, events[..i + 1]) == StreamStep(StreamRun(start, events[..i]), events[i])
    ensures StreamRun(start, events[..0]) == Stream(start, [], 0)
  {
    assert events[..i + 1][..i] == events[..i];
  }
}
