/** A stream of data chunks that may arrive in any order, with subscribers that may come late. */
module DataStreamies {
  import opened Wrappers
  import opened Blocks

  /** `subscribers` holds what each data callback has been given. `emitted`, `ends` and `discarded` are history: the
      chunks passed to the stream, the times the finished callbacks were called, and whether pending chunks were thrown
      away before anyone subscribed. */
  datatype Stream = Stream(
    completed: bool, finished: bool, errored: bool, bytesLoaded: nat,
    pending: seq<Bytes>, subscribers: seq<seq<Bytes>>,
    emitted: seq<Bytes>, ends: nat, discarded: bool)

  /** The reorder buffer: `last` is the index of the last chunk passed on. */
  datatype Producer = Producer(last: int, chunks: map<nat, Bytes>, endCount: Option<nat>)

  /** `broken` is set when the drain loop throws. */
  datatype State = State(producer: Producer, stream: Stream, broken: bool)

  const EmptyStream: Stream := Stream(false, false, false, 0, [], [], [], 0, false)
  const Init: State := State(Producer(-1, map[], None), EmptyStream, false)

  // ---- The stream

  function ToAll(subscribers: seq<seq<Bytes>>, chunk: Bytes): seq<seq<Bytes>> {
    seq(|subscribers|, i requires 0 <= i < |subscribers| => subscribers[i] + [chunk])
  }

  function Data(s: Stream, chunk: Bytes): Stream {
    if s.completed then s
    else s.(subscribers := ToAll(s.subscribers, chunk),
            pending := if s.subscribers == [] then s.pending + [chunk] else s.pending,
            bytesLoaded := s.bytesLoaded + |chunk|,
            emitted := s.emitted + [chunk])
  }

  function End(s: Stream): Stream {
    if s.completed then s else s.(completed := true, finished := true, ends := s.ends + 1)
  }

  function Error(s: Stream): Stream {
    if s.completed then s else s.(completed := true, errored := true)
  }

  /** A second subscriber is refused once data has been received. */
  predicate CanSubscribe(s: Stream) {
    s.subscribers == [] || s.bytesLoaded == 0
  }

  function Subscribe(s: Stream): Stream {
    if CanSubscribe(s) then s.(subscribers := s.subscribers + [s.pending], pending := []) else s
  }

  /** The timer started by completion. */
  function Discard(s: Stream): Stream {
    if s.completed then s.(pending := [], discarded := s.discarded || (s.subscribers == [] && s.pending != [])) else s
  }

  // ---- The reorder buffer

  predicate HasNext(p: Producer) {
    p.last >= -1 && p.last + 1 in p.chunks
  }

  /** Passes on the next chunk in line; the stream ends with the last one, and a chunk beyond the end is an error. */
  function Advance(s: State): State
    requires HasNext(s.producer)
  {
    var p := s.producer;
    var next := p.last + 1;
    var fed := Data(s.stream, p.chunks[next]);
    var isLast := p.endCount.Some? && next == p.endCount.value - 1;
    var beyond := p.endCount.Some? && next > p.endCount.value - 1;
    State(p.(last := next, chunks := p.chunks - {next}), if isLast then End(fed) else fed, s.broken || beyond)
  }

  function Drain(s: State): State
    decreases |s.producer.chunks|
  {
    if !HasNext(s.producer) then s
    else
      var t := Advance(s);
      if t.broken then t else Drain(t)
  }

  function Reordered(s: State, index: nat, chunk: Bytes): State {
    Drain(s.(producer := s.producer.(chunks := s.producer.chunks[index := chunk])))
  }

  function EndMarked(s: State, count: nat): State {
    if s.producer.last >= count - 1 then s.(stream := End(s.stream))
    else s.(producer := s.producer.(endCount := Some(count)))
  }

  datatype Event =
    | ChunkArrives(index: nat)
    | EndArrives
    | ErrorArrives
    | Subscribes
    | Discards

  /** Arrivals of a stream of `chunks`: chunk i arrives under index i, and the end marker with the count. */
  function Step(chunks: seq<Bytes>, s: State, e: Event): State {
    match e
    case ChunkArrives(i) => if i < |chunks| then Reordered(s, i, chunks[i]) else s
    case EndArrives => EndMarked(s, |chunks|)
    case ErrorArrives => s.(stream := Error(s.stream))
    case Subscribes => s.(stream := Subscribe(s.stream))
    case Discards => s.(stream := Discard(s.stream))
  }

  function Run(chunks: seq<Bytes>, events: seq<Event>): State {
    if events == [] then Init else Step(chunks, Run(chunks, events[..|events| - 1]), events[|events| - 1])
  }

  predicate AllArrived(chunks: seq<Bytes>, events: seq<Event>) {
    forall i :: 0 <= i < |chunks| ==> ChunkArrives(i) in events
  }

  // ---- The invariant

  /** Order: what has been passed on is a prefix of what was sent, unless an error has cut it off. */
  predicate OrderInv(chunks: seq<Bytes>, s: State) {
    var p, d := s.producer, s.stream;
    && !s.broken
    && -1 <= p.last < |chunks|
    && (forall k :: k in p.chunks ==> k < |chunks| && p.chunks[k] == chunks[k])
    && (p.endCount.Some? ==> p.endCount.value == |chunks|)
    && d.emitted <= chunks[..p.last + 1]
    && (!d.errored ==> d.emitted == chunks[..p.last + 1])
  }

  /** Completion: at most one of end and error, the end only after everything. */
  predicate EndInv(chunks: seq<Bytes>, s: State) {
    var d := s.stream;
    && d.ends == (if d.finished then 1 else 0)
    && d.completed == (d.finished || d.errored)
    && !(d.finished && d.errored)
    && (d.finished ==> d.emitted == chunks)
  }

  /** Subscribers: the first one has seen everything unless chunks were thrown away before it came. */
  predicate SubscriberInv(d: Stream) {
    && d.bytesLoaded == |Join(d.emitted)|
    && (d.subscribers == [] && !d.discarded ==> d.pending == d.emitted)
    && (d.subscribers != [] ==> d.pending == [])
    && (d.subscribers != [] && !d.discarded ==> d.subscribers[0] == d.emitted)
    && (!d.discarded ==> forall i :: 0 <= i < |d.subscribers| ==> Join(d.subscribers[i]) == Join(d.emitted))
  }

  /** What is known of the chunks and the end marker that have arrived. */
  ghost predicate ArrivalInv(chunks: seq<Bytes>, s: State, arrived: set<nat>, ended: bool) {
    var p, d := s.producer, s.stream;
    && (forall k: nat :: k in arrived <==> k < |chunks| && (k <= p.last || k in p.chunks))
    && (p.endCount.Some? ==> ended)
    && (d.finished ==> ended)
    && (ended && !d.completed ==> p.endCount.Some? && p.last < |chunks| - 1)
  }

  predicate Inv(chunks: seq<Bytes>, s: State) {
    OrderInv(chunks, s) && EndInv(chunks, s) && SubscriberInv(s.stream)
  }

  lemma DataKeepsSubscribers(d: Stream, chunk: Bytes)
    requires SubscriberInv(d)
    ensures SubscriberInv(Data(d, chunk))
  {
    if !d.completed {
      JoinConcat(d.emitted, [chunk]);
      JoinOne(chunk);
      forall i | 0 <= i < |d.subscribers|
        ensures Join(d.subscribers[i] + [chunk]) == Join(d.subscribers[i]) + chunk
      {
        JoinConcat(d.subscribers[i], [chunk]);
      }
    }
  }

  lemma AdvanceInv(chunks: seq<Bytes>, s: State, arrived: set<nat>, ended: bool)
    requires Inv(chunks, s) && ArrivalInv(chunks, s, arrived, ended) && HasNext(s.producer)
    ensures Inv(chunks, Advance(s)) && ArrivalInv(chunks, Advance(s), arrived, ended)
  {
    var next := s.producer.last + 1;
    assert chunks[..next + 1] == chunks[..next] + [chunks[next]];
    assert next == |chunks| - 1 ==> chunks[..next + 1] == chunks;
    DataKeepsSubscribers(s.stream, s.producer.chunks[next]);
  }

  lemma {:induction false} DrainInv(chunks: seq<Bytes>, s: State, arrived: set<nat>, ended: bool)
    requires Inv(chunks, s) && ArrivalInv(chunks, s, arrived, ended)
    ensures Inv(chunks, Drain(s)) && ArrivalInv(chunks, Drain(s), arrived, ended)
    ensures !HasNext(Drain(s).producer)
    decreases |s.producer.chunks|
  {
    if HasNext(s.producer) {
      AdvanceInv(chunks, s, arrived, ended);
      DrainInv(chunks, Advance(s), arrived, ended);
    }
  }

  lemma SubscribeInv(d: Stream)
    requires SubscriberInv(d)
    ensures SubscriberInv(Subscribe(d))
  {
    if d.subscribers != [] && d.bytesLoaded == 0 {
      assert Join(d.emitted) == [];
      assert forall i :: 0 <= i < |Subscribe(d).subscribers| - 1 ==> Subscribe(d).subscribers[i] == d.subscribers[i];
    }
  }

  lemma StepInv(chunks: seq<Bytes>, s: State, e: Event, arrived: set<nat>, ended: bool)
    requires Inv(chunks, s) && ArrivalInv(chunks, s, arrived, ended) && !HasNext(s.producer)
    ensures Inv(chunks, Step(chunks, s, e)) && !HasNext(Step(chunks, s, e).producer)
    ensures ArrivalInv(chunks, Step(chunks, s, e),
                       arrived + (if e.ChunkArrives? && e.index < |chunks| then {e.index} else {}), ended || e.EndArrives?)
  {
    match e
    case ChunkArrives(i) =>
      if i < |chunks| {
        var t := s.(producer := s.producer.(chunks := s.producer.chunks[i := chunks[i]]));
        assert Inv(chunks, t);
        DrainInv(chunks, t, arrived + {i}, ended);
      }
    case EndArrives => assert chunks[..|chunks|] == chunks;
    case ErrorArrives =>
    case Subscribes => SubscribeInv(s.stream);
    case Discards =>
  }

  function Arrived(chunks: seq<Bytes>, events: seq<Event>): (arrived: set<nat>)
    ensures forall i: nat :: i in arrived <==> i < |chunks| && ChunkArrives(i) in events
  {
    if events == [] then {}
    else
      var last := events[|events| - 1];
      assert events == events[..|events| - 1] + [last];
      Arrived(chunks, events[..|events| - 1]) + if last.ChunkArrives? && last.index < |chunks| then {last.index} else {}
  }

  lemma {:induction false} RunInv(chunks: seq<Bytes>, events: seq<Event>)
    ensures Inv(chunks, Run(chunks, events))
    ensures ArrivalInv(chunks, Run(chunks, events), Arrived(chunks, events), EndArrives in events)
    ensures !HasNext(Run(chunks, events).producer)
    decreases |events|
  {
    if events != [] {
      var init, last := events[..|events| - 1], events[|events| - 1];
      RunInv(chunks, init);
      StepInv(chunks, Run(chunks, init), last, Arrived(chunks, init), EndArrives in init);
      assert events == init + [last];
    }
  }

  // ---- What every arrival order guarantees

  /** Whatever the order and repetition of arrivals: the chunks passed on are a prefix of those sent, the end comes at
      most once and after all of them, and the loop never throws. */
  lemma OutputIsPrefix(chunks: seq<Bytes>, events: seq<Event>)
    ensures var s := Run(chunks, events);
            && s.stream.emitted <= chunks
            && s.stream.ends <= 1
            && (s.stream.ends == 1 ==> s.stream.emitted == chunks && !s.stream.errored)
            && !s.broken
  {
    RunInv(chunks, events);
  }

  /** Without an error the stream has finished exactly when every chunk and the end marker have arrived. */
  lemma FinishedIffAllArrived(chunks: seq<Bytes>, events: seq<Event>)
    requires ErrorArrives !in events
    ensures Run(chunks, events).stream.finished <==> AllArrived(chunks, events) && EndArrives in events
  {
    RunInv(chunks, events);
    NoErrorWithoutErrorEvent(chunks, events);
    var s := Run(chunks, events);
    var p := s.producer;
    if EndArrives in events && !s.stream.finished {
      assert p.last + 1 !in Arrived(chunks, events);
    }
    if s.stream.finished {
      forall i | 0 <= i < |chunks| ensures ChunkArrives(i) in events {
        assert i in Arrived(chunks, events);
      }
    }
  }

  lemma {:induction false} NoErrorWithoutErrorEvent(chunks: seq<Bytes>, events: seq<Event>)
    requires ErrorArrives !in events
    ensures !Run(chunks, events).stream.errored
    decreases |events|
  {
    if events != [] {
      var init := events[..|events| - 1];
      NoErrorWithoutErrorEvent(chunks, init);
      var s := Run(chunks, init);
      var last := events[|events| - 1];
      if last.ChunkArrives? && last.index < |chunks| {
        DrainErrors(s.(producer := s.producer.(chunks := s.producer.chunks[last.index := chunks[last.index]])));
      }
    }
  }

  lemma {:induction false} DrainErrors(s: State)
    ensures Drain(s).stream.errored == s.stream.errored
    decreases |s.producer.chunks|
  {
    if HasNext(s.producer) && !Advance(s).broken { DrainErrors(Advance(s)); }
  }

  /** The first subscriber has been given everything passed on so far, however late it came, unless the pending chunks
      were thrown away before; any further accepted subscriber has been given the same bytes. */
  lemma SubscribersSeeEverything(chunks: seq<Bytes>, events: seq<Event>)
    requires !Run(chunks, events).stream.discarded
    ensures var d := Run(chunks, events).stream;
            && (d.subscribers != [] ==> d.subscribers[0] == d.emitted)
            && (forall i :: 0 <= i < |d.subscribers| ==> Join(d.subscribers[i]) == Join(d.emitted))
            && (d.subscribers == [] ==> Subscribe(d).subscribers == [d.emitted])
  {
    RunInv(chunks, events);
  }

  // ---- What each event does

  lemma RunOneMore(chunks: seq<Bytes>, events: seq<Event>, e: Event)
    ensures Run(chunks, events + [e]) == Step(chunks, Run(chunks, events), e)
  {
    assert (events + [e])[..|events|] == events;
  }

  /** What no event changes any more once a stream is completed. */
  predicate SameOutcome(d: Stream, t: Stream) {
    t.completed == d.completed && t.finished == d.finished && t.errored == d.errored && t.ends == d.ends && t.emitted == d.emitted
  }

  lemma {:induction false} DrainAfterCompletion(s: State)
    requires s.stream.completed
    ensures SameOutcome(s.stream, Drain(s).stream)
    decreases |s.producer.chunks|
  {
    if HasNext(s.producer) && !Advance(s).broken { DrainAfterCompletion(Advance(s)); }
  }

  lemma StepAfterCompletion(chunks: seq<Bytes>, s: State, e: Event)
    requires s.stream.completed
    ensures SameOutcome(s.stream, Step(chunks, s, e).stream)
  {
    if e.ChunkArrives? && e.index < |chunks| {
      DrainAfterCompletion(s.(producer := s.producer.(chunks := s.producer.chunks[e.index := chunks[e.index]])));
    }
  }

  /** In every run, an error that arrives before completion ends the stream for good with what has been passed on; one that
      arrives later changes nothing. */
  lemma {:induction false} ErrorCutsOff(chunks: seq<Bytes>, before: seq<Event>, after: seq<Event>)
    ensures var d, t := Run(chunks, before).stream, Run(chunks, before + [ErrorArrives] + after).stream;
            && (!d.completed ==> t.completed && t.errored && !t.finished && t.ends == 0 && t.emitted == d.emitted)
            && (d.completed ==> SameOutcome(d, t))
    decreases |after|
  {
    if after == [] {
      RunInv(chunks, before);
      assert before + [ErrorArrives] + after == before + [ErrorArrives];
      RunOneMore(chunks, before, ErrorArrives);
    } else {
      var init, e := after[..|after| - 1], after[|after| - 1];
      ErrorCutsOff(chunks, before, init);
      assert before + [ErrorArrives] + after == before + [ErrorArrives] + init + [e];
      RunOneMore(chunks, before + [ErrorArrives] + init, e);
      StepAfterCompletion(chunks, Run(chunks, before + [ErrorArrives] + init), e);
    }
  }

  /** In every run an error has completed the stream, unless something else did before. */
  lemma ErrorCompletes(chunks: seq<Bytes>, events: seq<Event>, k: nat)
    requires k < |events| && events[k] == ErrorArrives
    ensures Run(chunks, events).stream.completed
    ensures Run(chunks, events).stream.errored <==> !Run(chunks, events[..k]).stream.finished
  {
    assert events == events[..k] + [ErrorArrives] + events[k + 1..];
    RunInv(chunks, events[..k]);
    ErrorCutsOff(chunks, events[..k], events[k + 1..]);
  }

  lemma {:induction false} DrainDelivers(s: State)
    ensures var d, t := s.stream, Drain(s).stream;
            && d.emitted <= t.emitted && |t.subscribers| == |d.subscribers|
            && (d.completed ==> t.emitted == d.emitted)
            && forall i :: 0 <= i < |d.subscribers| ==> t.subscribers[i] == d.subscribers[i] + t.emitted[|d.emitted|..]
    decreases |s.producer.chunks|
  {
    if HasNext(s.producer) && !Advance(s).broken { DrainDelivers(Advance(s)); }
  }

  /** Whatever the arrival of a chunk makes the stream pass on, every subscriber is given, in that order. */
  lemma SubscribersAreGiven(chunks: seq<Bytes>, events: seq<Event>, index: nat)
    ensures var d, t := Run(chunks, events).stream, Run(chunks, events + [ChunkArrives(index)]).stream;
            && d.emitted <= t.emitted && |t.subscribers| == |d.subscribers|
            && forall i :: 0 <= i < |d.subscribers| ==> t.subscribers[i] == d.subscribers[i] + t.emitted[|d.emitted|..]
  {
    RunOneMore(chunks, events, ChunkArrives(index));
    if index < |chunks| {
      var s := Run(chunks, events);
      DrainDelivers(s.(producer := s.producer.(chunks := s.producer.chunks[index := chunks[index]])));
    }
  }

  /** Subscribing is accepted exactly from the first subscriber, or while no byte has been passed on; the pending chunks
      are handed over once. */
  lemma SubscribeIff(chunks: seq<Bytes>, events: seq<Event>)
    ensures var d, t := Run(chunks, events).stream, Run(chunks, events + [Subscribes]).stream;
            && SameOutcome(d, t)
            && (d.subscribers == [] || Join(d.emitted) == [] ==>
                  |t.subscribers| == |d.subscribers| + 1 && t.subscribers[..|d.subscribers|] == d.subscribers
                  && t.subscribers[|d.subscribers|] == d.pending && t.pending == [])
            && (d.subscribers != [] && Join(d.emitted) != [] ==> t.subscribers == d.subscribers && t.pending == d.pending)
  {
    RunOneMore(chunks, events, Subscribes);
    RunInv(chunks, events);
  }

  /** The timer throws the pending chunks away exactly after completion, and says so if nobody had subscribed for them. */
  lemma DiscardIff(chunks: seq<Bytes>, events: seq<Event>)
    ensures var d, t := Run(chunks, events).stream, Run(chunks, events + [Discards]).stream;
            && SameOutcome(d, t) && t.subscribers == d.subscribers
            && t.pending == (if d.completed then [] else d.pending)
            && (t.discarded <==> d.discarded || (d.completed && d.subscribers == [] && d.pending != []))
  {
    RunOneMore(chunks, events, Discards);
  }

  // ---- The objects

  class DataStreamy {
    var completed: bool
    var finished: bool
    var errored: bool
    var bytesLoaded: nat
    var pendingDataChunks: seq<Bytes>
    var onDataCallbacks: seq<seq<Bytes>>
    ghost var emitted: seq<Bytes>
    ghost var ends: nat
    ghost var discarded: bool

    ghost function Model(): Stream
      reads this
    {
      Stream(completed, finished, errored, bytesLoaded, pendingDataChunks, onDataCallbacks, emitted, ends, discarded)
    }

    constructor ()
      ensures Model() == EmptyStream
    {
      completed, finished, errored, bytesLoaded := false, false, false, 0;
      pendingDataChunks, onDataCallbacks := [], [];
      emitted, ends, discarded := [], 0, false;
    }

    method OnData() returns (ok: bool)
      modifies this
      ensures ok == CanSubscribe(old(Model())) && Model() == Subscribe(old(Model()))
    {
      if |onDataCallbacks| > 0 && bytesLoaded > 0 {
        return false;
      }
      var given := [];
      var i := 0;
      while i < |pendingDataChunks|
        invariant 0 <= i <= |pendingDataChunks| && given == pendingDataChunks[..i]
      {
        given := given + [pendingDataChunks[i]];
        i := i + 1;
      }
      assert given == pendingDataChunks;
      pendingDataChunks := [];
      onDataCallbacks := onDataCallbacks + [given];
      ok := true;
    }

    method ProducerData(chunk: Bytes)
      modifies this
      ensures Model() == Data(old(Model()), chunk)
    {
      if completed { return; }
      var i := 0;
      while i < |onDataCallbacks|
        invariant 0 <= i <= |onDataCallbacks| == |old(onDataCallbacks)|
        invariant forall j :: 0 <= j < i ==> onDataCallbacks[j] == old(onDataCallbacks)[j] + [chunk]
        invariant forall j :: i <= j < |onDataCallbacks| ==> onDataCallbacks[j] == old(onDataCallbacks)[j]
        invariant Model() == old(Model()).(subscribers := onDataCallbacks)
      {
        onDataCallbacks := onDataCallbacks[i := onDataCallbacks[i] + [chunk]];
        i := i + 1;
      }
      assert onDataCallbacks == ToAll(old(onDataCallbacks), chunk);
      bytesLoaded := bytesLoaded + |chunk|;
      emitted := emitted + [chunk];
      if |onDataCallbacks| == 0 {
        pendingDataChunks := pendingDataChunks + [chunk];
      }
    }

    method ProducerEnd()
      modifies this
      ensures Model() == End(old(Model()))
    {
      if completed { return; }
      completed, finished := true, true;
      ends := ends + 1;
    }

    method ProducerError()
      modifies this
      ensures Model() == Error(old(Model()))
    {
      if completed { return; }
      completed, errored := true, true;
    }

    method DiscardTimer()
      requires completed
      modifies this
      ensures Model() == Discard(old(Model()))
    {
      discarded := discarded || (onDataCallbacks == [] && pendingDataChunks != []);
      pendingDataChunks := [];
    }
  }

  class DataStreamyProducer {
    const dataStream: DataStreamy
    var cancelled: bool
    var lastUnorderedDataIndex: int
    var unorderedDataChunksByIndex: map<nat, Bytes>
    var unorderedEndNumDataChunks: Option<nat>
    var broken: bool

    /** A cancelled stream is a completed one, so dropping data after cancellation changes nothing more. */
    ghost predicate Valid()
      reads this, dataStream
    {
      -1 <= lastUnorderedDataIndex && (cancelled ==> dataStream.completed)
    }

    ghost function Model(): State
      reads this, dataStream
    {
      State(Producer(lastUnorderedDataIndex, unorderedDataChunksByIndex, unorderedEndNumDataChunks), dataStream.Model(), broken)
    }

    constructor (dataStream: DataStreamy)
      requires dataStream.Model() == EmptyStream
      ensures Valid() && this.dataStream == dataStream && Model() == Init
    {
      this.dataStream := dataStream;
      cancelled, lastUnorderedDataIndex := false, -1;
      unorderedDataChunksByIndex, unorderedEndNumDataChunks := map[], None;
      broken := false;
    }

    /** Passes a chunk on, unless the consumer has cancelled. */
    method ProduceData(chunk: Bytes)
      requires Valid()
      modifies dataStream
      ensures Valid() && dataStream.Model() == Data(old(dataStream.Model()), chunk)
    {
      if cancelled { return; }
      dataStream.ProducerData(chunk);
    }

    method ProduceEnd()
      requires Valid()
      modifies dataStream
      ensures Valid() && dataStream.Model() == End(old(dataStream.Model()))
    {
      if cancelled { return; }
      dataStream.ProducerEnd();
    }

    method UnorderedData(index: nat, chunk: Bytes) returns (ok: bool)
      requires Valid() && !broken
      modifies this, dataStream
      ensures Valid() && ok == !broken
      ensures Model() == Reordered(old(Model()), index, chunk)
    {
      unorderedDataChunksByIndex := unorderedDataChunksByIndex[index := chunk];
      DrainBuffer();
      ok := !broken;
    }

    method DrainBuffer()
      requires Valid() && !broken
      modifies this, dataStream
      ensures Valid() && Model() == Drain(old(Model()))
    {
      while !broken && lastUnorderedDataIndex + 1 in unorderedDataChunksByIndex
        invariant Valid()
        invariant Drain(old(Model())) == if broken then Model() else Drain(Model())
        decreases |unorderedDataChunksByIndex|
      {
        PassOnNext();
      }
    }

    /** The body of the drain loop; the exception it may throw is recorded in `broken`. */
    method PassOnNext()
      requires Valid() && !broken && lastUnorderedDataIndex + 1 in unorderedDataChunksByIndex
      modifies this, dataStream
      ensures Valid() && |unorderedDataChunksByIndex| < |old(unorderedDataChunksByIndex)|
      ensures Model() == Advance(old(Model()))
    {
      ghost var before := Model();
      ghost var stream := before.stream;
      lastUnorderedDataIndex := lastUnorderedDataIndex + 1;
      var buf := unorderedDataChunksByIndex[lastUnorderedDataIndex];
      unorderedDataChunksByIndex := unorderedDataChunksByIndex - {lastUnorderedDataIndex};
      assert dataStream.Model() == stream;
      ProduceData(buf);
      stream := Data(stream, buf);
      if unorderedEndNumDataChunks.Some? {
        if lastUnorderedDataIndex == unorderedEndNumDataChunks.value - 1 {
          ProduceEnd();
          stream := End(stream);
        } else if lastUnorderedDataIndex > unorderedEndNumDataChunks.value - 1 {
          broken := true;
        }
      }
      assert dataStream.Model() == stream == Advance(before).stream;
      assert Model().producer == Advance(before).producer;
    }

    method UnorderedEnd(numDataChunks: nat)
      requires Valid()
      modifies this, dataStream
      ensures Valid() && Model() == EndMarked(old(Model()), numDataChunks)
    {
      if lastUnorderedDataIndex >= numDataChunks - 1 {
        ProduceEnd();
      } else {
        unorderedEndNumDataChunks := Some(numDataChunks);
      }
    }

    method Cancel()
      requires Valid()
      modifies this, dataStream
      ensures Valid() && cancelled
      ensures Model() == old(Model()).(stream := Error(old(dataStream.Model())))
    {
      if cancelled { return; }
      cancelled := true;
      dataStream.ProducerError();
    }
  }
}
