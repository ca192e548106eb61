/** The congestion manager: a queue of packets, a window on unconfirmed bytes, and trials that are reset while packets
  are still in flight. */
module CongestionManager {
  import opened Wrappers

  /** Internal identifiers are fresh for every packet. */
  type InternalId = nat

  datatype Packet = Packet(id: InternalId, size: nat)

  /** A packet on its way, with the time it was sent. */
  datatype Flight = Flight(packet: Packet, sentAt: int)

  datatype Ending = Confirmed | TimedOut | Failed

  datatype Trial = Trial(
    startedAt: int, ids: set<InternalId>,
    sent: nat, confirmed: nat, timedOut: nat, errors: nat,
    latencies: seq<int>, peak: int)

  /** `enqueued`, `dispatched` and `settled` are history: packets handed in, packets sent, and callers answered. */
  datatype Manager = Manager(
    rate: real, latency: real, trial: Trial, queue: seq<Packet>, inFlight: seq<Flight>,
    enqueued: seq<Packet>, dispatched: seq<Packet>, settled: seq<InternalId>)

  const TARGET_FRAC_LOST_BYTES: real := 0.02
  const TRIAL_DURATION_MSEC: int := 5000
  const MIN_LATENCY: real := 20.0
  const MAX_LATENCY: real := 1000.0

  function NewTrial(now: int): Trial {
    Trial(now, {}, 0, 0, 0, 0, [], 0)
  }

  function Init(now: int): Manager {
    Manager(3000000.0, 200.0, NewTrial(now), [], [], [], [], [])
  }

  // ---- Trials

  function Unconfirmed(t: Trial): int {
    t.sent - t.confirmed - t.timedOut - t.errors
  }

  function ReportSent(t: Trial, p: Packet): Trial {
    var u := t.(sent := t.sent + p.size, ids := t.ids + {p.id});
    if Unconfirmed(u) > t.peak then u.(peak := Unconfirmed(u)) else u
  }

  /** Reports about packets of an earlier trial are ignored. */
  function ReportEnding(t: Trial, p: Packet, ending: Ending, elapsed: int): Trial {
    if p.id !in t.ids then t
    else match ending
      case Confirmed => t.(confirmed := t.confirmed + p.size, latencies := t.latencies + [elapsed])
      case TimedOut => t.(timedOut := t.timedOut + p.size)
      case Failed => t.(errors := t.errors + p.size)
  }

  function Insert(x: int, sorted: seq<int>): seq<int> {
    if sorted == [] || x <= sorted[0] then [x] + sorted else [sorted[0]] + Insert(x, sorted[1..])
  }

  function Sort(values: seq<int>): seq<int> {
    if values == [] then [] else Insert(values[0], Sort(values[1..]))
  }

  lemma {:induction false} InsertKeeps(x: int, sorted: seq<int>)
    ensures multiset(Insert(x, sorted)) == multiset(sorted) + multiset{x} && |Insert(x, sorted)| == |sorted| + 1
    decreases |sorted|
  {
    if sorted != [] && x > sorted[0] {
      InsertKeeps(x, sorted[1..]);
      assert sorted == [sorted[0]] + sorted[1..];
    }
  }

  lemma {:induction false} SortKeeps(values: seq<int>)
    ensures multiset(Sort(values)) == multiset(values) && |Sort(values)| == |values|
    decreases |values|
  {
    if values != [] {
      SortKeeps(values[1..]);
      InsertKeeps(values[0], Sort(values[1..]));
      assert values == [values[0]] + values[1..];
    }
  }

  function Median(values: seq<int>): real
    requires values != []
  {
    SortKeeps(values);
    var sorted := Sort(values);
    var half := |sorted| / 2;
    if |sorted| % 2 == 1 then sorted[half] as real
    else (sorted[half - 1] as real + sorted[half] as real) / 2.0
  }

  predicate Ordered(s: seq<int>) {
    forall i, j :: 0 <= i < j < |s| ==> s[i] <= s[j]
  }

  lemma {:induction false} InsertOrdered(x: int, sorted: seq<int>)
    requires Ordered(sorted)
    ensures Ordered(Insert(x, sorted))
    ensures forall y :: y in Insert(x, sorted) ==> y == x || y in sorted
    decreases |sorted|
  {
    if sorted != [] && x > sorted[0] {
      InsertOrdered(x, sorted[1..]);
      var rest := Insert(x, sorted[1..]);
      forall i | 0 <= i < |rest| ensures sorted[0] <= rest[i] {
        assert rest[i] in rest;
      }
    }
  }

  /** Sorting yields the samples in ascending order. */
  lemma {:induction false} SortSorts(values: seq<int>)
    ensures Ordered(Sort(values)) && multiset(Sort(values)) == multiset(values)
    decreases |values|
  {
    SortKeeps(values);
    if values != [] {
      SortSorts(values[1..]);
      InsertOrdered(values[0], Sort(values[1..]));
    }
  }

  /** How many samples are at most x, and how many at least x. */
  function NumAtMost(values: seq<int>, x: real): nat {
    if values == [] then 0 else NumAtMost(values[1..], x) + if values[0] as real <= x then 1 else 0
  }

  function NumAtLeast(values: seq<int>, x: real): nat {
    if values == [] then 0 else NumAtLeast(values[1..], x) + if values[0] as real >= x then 1 else 0
  }

  lemma {:induction false} InsertCounts(v: int, sorted: seq<int>, x: real)
    ensures NumAtMost(Insert(v, sorted), x) == NumAtMost(sorted, x) + if v as real <= x then 1 else 0
    ensures NumAtLeast(Insert(v, sorted), x) == NumAtLeast(sorted, x) + if v as real >= x then 1 else 0
    decreases |sorted|
  {
    if sorted == [] || v <= sorted[0] {
      assert ([v] + sorted)[1..] == sorted;
    } else {
      InsertCounts(v, sorted[1..], x);
      assert ([sorted[0]] + Insert(v, sorted[1..]))[1..] == Insert(v, sorted[1..]);
    }
  }

  lemma {:induction false} SortCounts(values: seq<int>, x: real)
    ensures NumAtMost(Sort(values), x) == NumAtMost(values, x)
    ensures NumAtLeast(Sort(values), x) == NumAtLeast(values, x)
    decreases |values|
  {
    if values != [] {
      SortCounts(values[1..], x);
      InsertCounts(values[0], Sort(values[1..]), x);
    }
  }

  /** In an ordered sequence everything up to a small enough element counts as at most x. */
  lemma {:induction false} OrderedAtMost(s: seq<int>, k: nat, x: real)
    requires Ordered(s) && k <= |s| && (k > 0 ==> s[k - 1] as real <= x)
    ensures NumAtMost(s, x) >= k
    decreases |s|
  {
    if k > 0 {
      assert k > 1 ==> s[0] <= s[k - 1];
      OrderedAtMost(s[1..], k - 1, x);
    }
  }

  /** And everything from a great enough element on counts as at least x. */
  lemma {:induction false} OrderedAtLeast(s: seq<int>, k: nat, x: real)
    requires Ordered(s) && k <= |s| && (k < |s| ==> s[k] as real >= x)
    ensures NumAtLeast(s, x) >= |s| - k
    decreases |s|
  {
    if k > 0 {
      OrderedAtLeast(s[1..], k - 1, x);
    } else if s != [] {
      assert |s| > 1 ==> s[0] <= s[1];
      OrderedAtLeast(s[1..], 0, x);
    }
  }

  /** At least half of the samples lie on each side of the median. */
  lemma {:induction false} MedianSplits(values: seq<int>)
    requires values != []
    ensures 2 * NumAtMost(values, Median(values)) >= |values|
    ensures 2 * NumAtLeast(values, Median(values)) >= |values|
  {
    SortSorts(values);
    SortKeeps(values);
    var sorted, x := Sort(values), Median(values);
    var half := |sorted| / 2;
    SortCounts(values, x);
    if |sorted| % 2 == 1 {
      OrderedAtMost(sorted, half + 1, x);
    } else {
      assert sorted[half - 1] <= sorted[half];
      OrderedAtMost(sorted, half, x);
    }
    OrderedAtLeast(sorted, half, x);
  }

  /** The median lies between any bounds of the samples. */
  lemma MedianBetween(values: seq<int>, lo: real, hi: real)
    requires values != [] && forall v :: v in values ==> lo <= v as real <= hi
    ensures lo <= Median(values) <= hi
  {
    SortKeeps(values);
    var sorted := Sort(values);
    forall i | 0 <= i < |sorted| ensures lo <= sorted[i] as real <= hi {
      assert sorted[i] in multiset(sorted);
      assert sorted[i] in values;
    }
  }

  function Clamp(x: real): real {
    if x < MIN_LATENCY then MIN_LATENCY else if x > MAX_LATENCY then MAX_LATENCY else x
  }

  function EstimateLatency(t: Trial, old': real): real {
    if |t.latencies| < 5 then old' else Clamp(Median(t.latencies) * 0.3 + old' * 0.7)
  }

  function FracLost(t: Trial): real
    requires t.sent > 0
  {
    1.0 - (t.confirmed as real) / (t.sent as real)
  }

  function DetermineRate(t: Trial, rate: real, latency: real): real {
    if t.sent < 10000 then rate
    else
      var lost := FracLost(t);
      var adjusted :=
        if lost < TARGET_FRAC_LOST_BYTES then
          if t.peak as real > 0.6 * (rate / 1000.0 * latency) then rate * 1.2 else rate
        else rate / 1.2;
      if lost < 0.2 && adjusted < 1000000.0 then 1000000.0 else adjusted
  }

  /** A latency estimate never leaves any range that holds the old estimate and all samples, nor the clamp range. */
  lemma EstimateStaysInRange(t: Trial, old': real, lo: real, hi: real)
    requires MIN_LATENCY <= lo <= old' <= hi <= MAX_LATENCY
    requires forall v :: v in t.latencies ==> lo <= v as real <= hi
    ensures lo <= EstimateLatency(t, old') <= hi
  {
    if |t.latencies| >= 5 { MedianBetween(t.latencies, lo, hi); }
  }

  /** Adjusting keeps the rate positive, and keeps it from falling below a megabyte a second unless a fifth of the bytes
      was lost. */
  lemma RateStaysPositive(t: Trial, rate: real, latency: real)
    requires rate > 0.0
    ensures DetermineRate(t, rate, latency) > 0.0
    ensures t.sent >= 10000 && FracLost(t) < 0.2 ==> DetermineRate(t, rate, latency) >= 1000000.0
    ensures DetermineRate(t, rate, latency) < rate ==> t.sent >= 10000 && FracLost(t) >= TARGET_FRAC_LOST_BYTES
  {
  }

  // ---- The manager

  function Window(m: Manager): real {
    m.rate / 1000.0 * m.latency
  }

  function SendNow(m: Manager, now: int): Manager
    requires m.queue != []
  {
    var p := m.queue[0];
    m.(queue := m.queue[1..], trial := ReportSent(m.trial, p),
       inFlight := m.inFlight + [Flight(p, now)], dispatched := m.dispatched + [p])
  }

  predicate MaySend(m: Manager) {
    m.queue != [] && Unconfirmed(m.trial) as real < Window(m)
  }

  /** Sends from the front of the queue for as long as the window allows. */
  function Dispatch(m: Manager, now: int): Manager
    decreases |m.queue|
  {
    if MaySend(m) then Dispatch(SendNow(m, now), now) else m
  }

  function SwitchTrial(m: Manager, now: int): Manager {
    if now - m.trial.startedAt > TRIAL_DURATION_MSEC then
      var latency := EstimateLatency(m.trial, m.latency);
      m.(latency := latency, rate := DetermineRate(m.trial, m.rate, latency), trial := NewTrial(now))
    else m
  }

  function HandleNextPackets(m: Manager, now: int): Manager {
    Dispatch(SwitchTrial(m, now), now)
  }

  function Find(flights: seq<Flight>, id: InternalId): (k: Option<nat>)
    ensures k.Some? ==> k.value < |flights| && flights[k.value].packet.id == id
    ensures k.None? ==> forall i :: 0 <= i < |flights| ==> flights[i].packet.id != id
  {
    if flights == [] then None
    else if flights[0].packet.id == id then Some(0)
    else match Find(flights[1..], id) case None => None case Some(k) => Some(k + 1)
  }

  function Without<T>(s: seq<T>, k: nat): seq<T>
    requires k < |s|
  {
    s[..k] + s[k + 1..]
  }

  datatype Event = Enqueue(packet: Packet, now: int) | Ends(id: InternalId, ending: Ending, now: int)

  predicate Fresh(m: Manager, id: InternalId) {
    forall i :: 0 <= i < |m.enqueued| ==> m.enqueued[i].id != id
  }

  /** What settling a packet does before the next packets are handled. */
  function Landed(m: Manager, k: nat, ending: Ending, now: int): Manager
    requires k < |m.inFlight|
  {
    var f := m.inFlight[k];
    m.(inFlight := Without(m.inFlight, k), settled := m.settled + [f.packet.id],
       trial := ReportEnding(m.trial, f.packet, ending, now - f.sentAt))
  }

  function Settle(m: Manager, id: InternalId, ending: Ending, now: int): Manager {
    match Find(m.inFlight, id)
    case None => m
    case Some(k) => HandleNextPackets(Landed(m, k, ending, now), now)
  }

  function Step(m: Manager, e: Event): Manager {
    match e
    case Enqueue(p, now) =>
      if Fresh(m, p.id) then HandleNextPackets(m.(queue := m.queue + [p], enqueued := m.enqueued + [p]), now) else m
    case Ends(id, ending, now) => Settle(m, id, ending, now)
  }

  function Run(start: int, events: seq<Event>): Manager {
    if events == [] then Init(start) else Step(Run(start, events[..|events| - 1]), events[|events| - 1])
  }

  // ---- Bytes in flight

  function Share(f: Flight, ids: set<InternalId>): nat {
    if f.packet.id in ids then f.packet.size else 0
  }

  /** The bytes of the packets in flight that were sent in the current trial. */
  function BytesOf(flights: seq<Flight>, ids: set<InternalId>): nat {
    if flights == [] then 0 else Share(flights[0], ids) + BytesOf(flights[1..], ids)
  }

  lemma {:induction false} BytesOfConcat(a: seq<Flight>, b: seq<Flight>, ids: set<InternalId>)
    ensures BytesOf(a + b, ids) == BytesOf(a, ids) + BytesOf(b, ids)
    decreases |a|
  {
    if a == [] { assert a + b == b; }
    else {
      assert (a + b)[1..] == a[1..] + b;
      BytesOfConcat(a[1..], b, ids);
    }
  }

  lemma BytesOfWithout(flights: seq<Flight>, k: nat, ids: set<InternalId>)
    requires k < |flights|
    ensures BytesOf(Without(flights, k), ids) + Share(flights[k], ids) == BytesOf(flights, ids)
  {
    var one := [flights[k]];
    assert flights == flights[..k] + (one + flights[k + 1..]);
    BytesOfConcat(flights[..k], one + flights[k + 1..], ids);
    BytesOfConcat(one, flights[k + 1..], ids);
    BytesOfConcat(flights[..k], flights[k + 1..], ids);
    assert one[1..] == [];
  }

  lemma {:induction false} BytesOfNewId(flights: seq<Flight>, ids: set<InternalId>, id: InternalId)
    requires forall i :: 0 <= i < |flights| ==> flights[i].packet.id != id
    ensures BytesOf(flights, ids + {id}) == BytesOf(flights, ids)
    decreases |flights|
  {
    if flights != [] { BytesOfNewId(flights[1..], ids, id); }
  }

  lemma {:induction false} BytesOfNone(flights: seq<Flight>)
    ensures BytesOf(flights, {}) == 0
    decreases |flights|
  {
    if flights != [] { BytesOfNone(flights[1..]); }
  }

  lemma {:induction false} PositiveBytesHaveAFlight(flights: seq<Flight>, ids: set<InternalId>)
    requires BytesOf(flights, ids) > 0
    ensures exists i :: 0 <= i < |flights| && flights[i].packet.id in ids
    decreases |flights|
  {
    if flights[0].packet.id !in ids {
      PositiveBytesHaveAFlight(flights[1..], ids);
      var i :| 0 <= i < |flights[1..]| && flights[1..][i].packet.id in ids;
      assert flights[i + 1].packet.id in ids;
    }
  }

  // ---- The invariant

  function IdsOf(packets: seq<Packet>): seq<InternalId> {
    seq(|packets|, i requires 0 <= i < |packets| => packets[i].id)
  }

  function FlightIds(flights: seq<Flight>): seq<InternalId> {
    seq(|flights|, i requires 0 <= i < |flights| => flights[i].packet.id)
  }

  predicate DistinctIds(packets: seq<Packet>) {
    forall i, j :: 0 <= i < j < |packets| ==> packets[i].id != packets[j].id
  }

  /** Counters: what the trial counts as unconfirmed is what it has in flight. */
  predicate CountInv(m: Manager) {
    Unconfirmed(m.trial) == BytesOf(m.inFlight, m.trial.ids)
  }

  predicate EstimateInv(m: Manager) {
    MIN_LATENCY <= m.latency <= MAX_LATENCY && m.rate > 0.0
  }

  /** Packets leave the queue in order, and each one sent is in flight or settled, exactly once. */
  predicate QueueInv(m: Manager) {
    && m.enqueued == m.dispatched + m.queue
    && DistinctIds(m.enqueued)
    && multiset(IdsOf(m.dispatched)) == multiset(FlightIds(m.inFlight)) + multiset(m.settled)
  }

  /** The bytes in flight stay below the window plus one packet. */
  predicate WindowInv(m: Manager, maxSize: nat) {
    && (forall i :: 0 <= i < |m.enqueued| ==> m.enqueued[i].size <= maxSize)
    && Unconfirmed(m.trial) as real < Window(m) + maxSize as real
  }

  predicate Inv(m: Manager, maxSize: nat) {
    CountInv(m) && EstimateInv(m) && QueueInv(m) && WindowInv(m, maxSize)
  }

  predicate Settled(m: Manager) {
    !MaySend(m)
  }

  lemma WindowIsPositive(m: Manager)
    requires EstimateInv(m)
    ensures Window(m) > 0.0
  {
  }

  /** The packet at the front of the queue has never been sent. */
  lemma FrontIsNew(m: Manager)
    requires QueueInv(m) && m.queue != []
    ensures forall i :: 0 <= i < |m.inFlight| ==> m.inFlight[i].packet.id != m.queue[0].id
  {
    var p := m.queue[0];
    forall i | 0 <= i < |m.inFlight| ensures m.inFlight[i].packet.id != p.id {
      var id := m.inFlight[i].packet.id;
      assert FlightIds(m.inFlight)[i] == id;
      assert id in multiset(FlightIds(m.inFlight));
      assert id in multiset(IdsOf(m.dispatched));
      var j :| 0 <= j < |m.dispatched| && IdsOf(m.dispatched)[j] == id;
      assert m.enqueued[j].id == id && m.enqueued[|m.dispatched|] == p;
    }
  }

  lemma SendNowQueue(m: Manager, now: int)
    requires QueueInv(m) && m.queue != []
    ensures QueueInv(SendNow(m, now))
  {
    var t := SendNow(m, now);
    var p := m.queue[0];
    assert t.dispatched + t.queue == m.enqueued;
    assert IdsOf(t.dispatched) == IdsOf(m.dispatched) + [p.id];
    assert FlightIds(t.inFlight) == FlightIds(m.inFlight) + [p.id];
  }

  lemma SendNowCount(m: Manager, now: int)
    requires QueueInv(m) && CountInv(m) && m.queue != []
    ensures CountInv(SendNow(m, now))
  {
    var p := m.queue[0];
    FrontIsNew(m);
    BytesOfNewId(m.inFlight, m.trial.ids, p.id);
    BytesOfConcat(m.inFlight, [Flight(p, now)], m.trial.ids + {p.id});
    assert [Flight(p, now)][1..] == [];
  }

  lemma SendNowInv(m: Manager, now: int, maxSize: nat)
    requires Inv(m, maxSize) && MaySend(m)
    ensures Inv(SendNow(m, now), maxSize)
  {
    SendNowQueue(m, now);
    SendNowCount(m, now);
    assert m.enqueued[|m.dispatched|] == m.queue[0];
  }

  lemma {:induction false} DispatchInv(m: Manager, now: int, maxSize: nat)
    requires Inv(m, maxSize)
    ensures Inv(Dispatch(m, now), maxSize) && Settled(Dispatch(m, now))
    decreases |m.queue|
  {
    if MaySend(m) {
      SendNowInv(m, now, maxSize);
      DispatchInv(SendNow(m, now), now, maxSize);
    }
  }

  lemma EstimateClamped(t: Trial, latency: real)
    requires MIN_LATENCY <= latency <= MAX_LATENCY
    ensures MIN_LATENCY <= EstimateLatency(t, latency) <= MAX_LATENCY
  {
  }

  lemma SwitchInv(m: Manager, now: int, maxSize: nat)
    requires Inv(m, maxSize)
    ensures Inv(SwitchTrial(m, now), maxSize)
  {
    var t := SwitchTrial(m, now);
    if now - m.trial.startedAt > TRIAL_DURATION_MSEC {
      EstimateClamped(m.trial, m.latency);
      RateStaysPositive(m.trial, m.rate, t.latency);
      BytesOfNone(m.inFlight);
      WindowIsPositive(t);
    }
  }

  lemma HandleInv(m: Manager, now: int, maxSize: nat)
    requires Inv(m, maxSize)
    ensures Inv(HandleNextPackets(m, now), maxSize) && Settled(HandleNextPackets(m, now))
  {
    SwitchInv(m, now, maxSize);
    DispatchInv(SwitchTrial(m, now), now, maxSize);
  }

  lemma LandedQueue(m: Manager, k: nat, ending: Ending, now: int)
    requires QueueInv(m) && k < |m.inFlight|
    ensures QueueInv(Landed(m, k, ending, now))
  {
    var ids := FlightIds(m.inFlight);
    assert FlightIds(Without(m.inFlight, k)) == ids[..k] + ids[k + 1..];
    assert ids == ids[..k] + [ids[k]] + ids[k + 1..];
  }

  lemma LandedCount(m: Manager, k: nat, ending: Ending, now: int)
    requires CountInv(m) && k < |m.inFlight|
    ensures CountInv(Landed(m, k, ending, now))
    ensures Unconfirmed(Landed(m, k, ending, now).trial) <= Unconfirmed(m.trial)
  {
    BytesOfWithout(m.inFlight, k, m.trial.ids);
  }

  lemma StaysInWindow(m: Manager, t: Manager, maxSize: nat)
    requires WindowInv(m, maxSize) && t.enqueued == m.enqueued && t.rate == m.rate && t.latency == m.latency
    requires Unconfirmed(t.trial) <= Unconfirmed(m.trial)
    ensures WindowInv(t, maxSize)
  {
  }

  lemma LandedInv(m: Manager, k: nat, ending: Ending, now: int, maxSize: nat)
    requires Inv(m, maxSize) && k < |m.inFlight|
    ensures Inv(Landed(m, k, ending, now), maxSize)
  {
    LandedQueue(m, k, ending, now);
    LandedCount(m, k, ending, now);
    StaysInWindow(m, Landed(m, k, ending, now), maxSize);
  }

  predicate SizesBelow(events: seq<Event>, maxSize: nat) {
    forall i :: 0 <= i < |events| ==> events[i].Enqueue? ==> events[i].packet.size <= maxSize
  }

  lemma EnqueueInv(m: Manager, p: Packet, maxSize: nat)
    requires Inv(m, maxSize) && Fresh(m, p.id) && p.size <= maxSize
    ensures Inv(m.(queue := m.queue + [p], enqueued := m.enqueued + [p]), maxSize)
  {
    assert m.dispatched + (m.queue + [p]) == m.enqueued + [p];
  }

  lemma StepInv(m: Manager, e: Event, maxSize: nat)
    requires Inv(m, maxSize) && Settled(m) && (e.Enqueue? ==> e.packet.size <= maxSize)
    ensures Inv(Step(m, e), maxSize) && Settled(Step(m, e))
  {
    match e
    case Enqueue(p, now) =>
      if Fresh(m, p.id) {
        EnqueueInv(m, p, maxSize);
        HandleInv(m.(queue := m.queue + [p], enqueued := m.enqueued + [p]), now, maxSize);
      }
    case Ends(id, ending, now) =>
      match Find(m.inFlight, id)
      case None =>
      case Some(k) =>
        LandedInv(m, k, ending, now, maxSize);
        HandleInv(Landed(m, k, ending, now), now, maxSize);
  }

  lemma {:induction false} RunInv(start: int, events: seq<Event>, maxSize: nat)
    requires SizesBelow(events, maxSize)
    ensures Inv(Run(start, events), maxSize) && Settled(Run(start, events))
    decreases |events|
  {
    if events != [] {
      var init := events[..|events| - 1];
      assert SizesBelow(init, maxSize);
      RunInv(start, init, maxSize);
      StepInv(Run(start, init), events[|events| - 1], maxSize);
    }
  }

  // ---- What every run guarantees

  /** Sent minus confirmed, timed-out and failed bytes is always the size of what the current trial has in flight, and
      stays below the window plus one maximal packet, however often trials were reset on the way. */
  lemma UnconfirmedIsInFlight(start: int, events: seq<Event>, maxSize: nat)
    requires SizesBelow(events, maxSize)
    ensures var m := Run(start, events);
            && Unconfirmed(m.trial) == BytesOf(m.inFlight, m.trial.ids)
            && 0 <= Unconfirmed(m.trial)
            && Unconfirmed(m.trial) as real < Window(m) + maxSize as real
  {
    RunInv(start, events, maxSize);
  }

  /** After every event the queue is empty or a packet of the current trial is in flight, whose end will handle the
      queue again; the latency stays in its range and the rate stays positive. */
  lemma QueueNeverStalls(start: int, events: seq<Event>, maxSize: nat)
    requires SizesBelow(events, maxSize)
    ensures var m := Run(start, events);
            && MIN_LATENCY <= m.latency <= MAX_LATENCY && m.rate > 0.0
            && (m.queue != [] ==> exists i :: 0 <= i < |m.inFlight| && m.inFlight[i].packet.id in m.trial.ids)
  {
    RunInv(start, events, maxSize);
    var m := Run(start, events);
    if m.queue != [] {
      WindowIsPositive(m);
      PositiveBytesHaveAFlight(m.inFlight, m.trial.ids);
    }
  }

  /** Packets are sent in the order they were handed in, each once, and each caller is answered at most once and only
      after its packet was sent. */
  lemma FirstInFirstOut(start: int, events: seq<Event>, maxSize: nat)
    requires SizesBelow(events, maxSize)
    ensures var m := Run(start, events);
            && m.enqueued == m.dispatched + m.queue
            && DistinctIds(m.dispatched)
            && (forall id :: multiset(m.settled)[id] <= multiset(IdsOf(m.dispatched))[id] <= 1)
  {
    RunInv(start, events, maxSize);
    var m := Run(start, events);
    assert forall i :: 0 <= i < |m.dispatched| ==> m.dispatched[i] == m.enqueued[i];
    forall id ensures multiset(IdsOf(m.dispatched))[id] <= 1 {
      AtMostOnce(IdsOf(m.dispatched), id);
    }
  }

  lemma {:induction false} AtMostOnce(ids: seq<InternalId>, id: InternalId)
    requires forall i, j :: 0 <= i < j < |ids| ==> ids[i] != ids[j]
    ensures multiset(ids)[id] <= 1
    decreases |ids|
  {
    if ids != [] {
      AtMostOnce(ids[1..], id);
      assert ids == [ids[0]] + ids[1..];
      if id == ids[0] {
        assert id !in ids[1..];
        assert multiset(ids[1..])[id] == 0;
      }
    }
  }

  // ---- The objects

  class TrialData {
    var timestampStarted: int
    var sentPacketInternalIds: set<InternalId>
    var numSentBytes: nat
    var numConfirmedBytes: nat
    var numTimedOutBytes: nat
    var numErrorBytes: nat
    var roundtripLatenciesMsec: seq<int>
    var peakNumUnconfirmedBytes: int

    function Model(): Trial
      reads this
    {
      Trial(timestampStarted, sentPacketInternalIds, numSentBytes, numConfirmedBytes, numTimedOutBytes, numErrorBytes,
            roundtripLatenciesMsec, peakNumUnconfirmedBytes)
    }

    constructor (now: int)
      ensures Model() == NewTrial(now)
    {
      timestampStarted, sentPacketInternalIds := now, {};
      numSentBytes, numConfirmedBytes, numTimedOutBytes, numErrorBytes := 0, 0, 0, 0;
      roundtripLatenciesMsec, peakNumUnconfirmedBytes := [], 0;
    }

    method Reset(now: int)
      modifies this
      ensures Model() == NewTrial(now)
    {
      timestampStarted, sentPacketInternalIds := now, {};
      numSentBytes, numConfirmedBytes, numTimedOutBytes, numErrorBytes := 0, 0, 0, 0;
      roundtripLatenciesMsec, peakNumUnconfirmedBytes := [], 0;
    }

    method ReportSentPacket(p: Packet)
      modifies this
      ensures Model() == ReportSent(old(Model()), p)
    {
      numSentBytes := numSentBytes + p.size;
      sentPacketInternalIds := sentPacketInternalIds + {p.id};
      var u := numSentBytes - numConfirmedBytes - numTimedOutBytes - numErrorBytes;
      if u > peakNumUnconfirmedBytes {
        peakNumUnconfirmedBytes := u;
      }
    }

    method ReportEndOf(p: Packet, ending: Ending, elapsed: int)
      modifies this
      ensures Model() == ReportEnding(old(Model()), p, ending, elapsed)
    {
      if p.id in sentPacketInternalIds {
        match ending
        case Confirmed =>
          numConfirmedBytes := numConfirmedBytes + p.size;
          roundtripLatenciesMsec := roundtripLatenciesMsec + [elapsed];
        case TimedOut => numTimedOutBytes := numTimedOutBytes + p.size;
        case Failed => numErrorBytes := numErrorBytes + p.size;
      }
    }
  }

  class UdpCongestionManager {
    var maxNumBytesPerSecondToSend: real
    var estimatedRoundtripLatencyMsec: real
    const currentTrialData: TrialData
    var queuedPackets: seq<Packet>
    var inFlight: seq<Flight>
    ghost var enqueued: seq<Packet>
    ghost var dispatched: seq<Packet>
    ghost var settled: seq<InternalId>

    ghost function Model(): Manager
      reads this, currentTrialData
    {
      Manager(maxNumBytesPerSecondToSend, estimatedRoundtripLatencyMsec, currentTrialData.Model(), queuedPackets, inFlight,
              enqueued, dispatched, settled)
    }

    constructor (now: int)
      ensures Model() == Init(now) && fresh(currentTrialData)
    {
      maxNumBytesPerSecondToSend, estimatedRoundtripLatencyMsec := 3000000.0, 200.0;
      queuedPackets, inFlight, enqueued, dispatched, settled := [], [], [], [], [];
      currentTrialData := new TrialData(now);
    }

    method SendPacket(p: Packet, now: int)
      requires Fresh(Model(), p.id)
      modifies this, currentTrialData
      ensures Model() == Step(old(Model()), Enqueue(p, now))
    {
      queuedPackets := queuedPackets + [p];
      enqueued := enqueued + [p];
      OnNextPackets(now);
    }

    /** A packet is confirmed, times out or fails; only the first such report about it has an effect. */
    method OnEnd(id: InternalId, ending: Ending, now: int)
      modifies this, currentTrialData
      ensures Model() == Step(old(Model()), Ends(id, ending, now))
    {
      var k := Find(inFlight, id);
      if k.None? { return; }
      var f := inFlight[k.value];
      inFlight := Without(inFlight, k.value);
      settled := settled + [id];
      currentTrialData.ReportEndOf(f.packet, ending, now - f.sentAt);
      OnNextPackets(now);
    }

    method OnNextPackets(now: int)
      modifies this, currentTrialData
      ensures Model() == HandleNextPackets(old(Model()), now)
    {
      if now - currentTrialData.timestampStarted > TRIAL_DURATION_MSEC {
        estimatedRoundtripLatencyMsec := EstimateLatency(currentTrialData.Model(), estimatedRoundtripLatencyMsec);
        maxNumBytesPerSecondToSend := DetermineRate(currentTrialData.Model(), maxNumBytesPerSecondToSend, estimatedRoundtripLatencyMsec);
        currentTrialData.Reset(now);
      }
      ghost var goal := Dispatch(Model(), now);
      assert goal == HandleNextPackets(old(Model()), now);
      var more := true;
      while more
        invariant Dispatch(Model(), now) == goal
        invariant !more ==> Model() == goal
        decreases |queuedPackets|, more
      {
        more := OnNextPacket(now);
      }
    }

    method OnNextPacket(now: int) returns (sentOne: bool)
      modifies this, currentTrialData
      ensures sentOne == MaySend(old(Model()))
      ensures Model() == if sentOne then SendNow(old(Model()), now) else old(Model())
    {
      if |queuedPackets| == 0 { return false; }
      var p := queuedPackets[0];
      var numUnconfirmedBytes := Unconfirmed(currentTrialData.Model());
      var maxNumUnconfirmedBytesAllowed := maxNumBytesPerSecondToSend / 1000.0 * estimatedRoundtripLatencyMsec;
      if numUnconfirmedBytes as real < maxNumUnconfirmedBytesAllowed {
        queuedPackets := queuedPackets[1..];
        inFlight := inFlight + [Flight(p, now)];
        dispatched := dispatched + [p];
        currentTrialData.ReportSentPacket(p);
        return true;
      }
      sentOne := false;
    }
  }
}
