/** What the congestion manager does with what it observes: how loss and latency move its estimates, how each packet's end is
  counted, when a trial ends, and that the window is used. */
module CongestionResponse {
  import opened Wrappers
  import opened CongestionManager

  // ---- The rate

  /** The fraction of a trial's bytes that were not confirmed. */
  function Lost(t: Trial): real
    requires t.sent > 0
  {
    (t.sent - t.confirmed) as real / t.sent as real
  }

  lemma QuotientIs(x: real, y: real, q: real)
    requires y > 0.0 && q * y == x
    ensures x / y == q
  {
    assert (x / y) * y == x;
  }

  lemma LostIsFraction(t: Trial)
    requires t.sent > 0
    ensures FracLost(t) == Lost(t)
  {
    var sent, confirmed := t.sent as real, t.confirmed as real;
    var q := confirmed / sent;
    assert q * sent == confirmed;
    assert (1.0 - q) * sent == sent - confirmed;
    assert (t.sent - t.confirmed) as real == sent - confirmed;
    QuotientIs(sent - confirmed, sent, 1.0 - q);
  }

  /** The rate is lowered exactly by a trial that sent enough and lost too much, and a rate of at most a megabyte a second
      only by one that lost a fifth. */
  lemma RateFallsIff(t: Trial, rate: real, latency: real)
    requires rate > 0.0
    ensures DetermineRate(t, rate, latency) < rate
            <==> t.sent >= 10000 && Lost(t) >= 0.02 && (Lost(t) >= 0.2 || rate > 1000000.0)
  {
    if t.sent >= 10000 { LostIsFraction(t); }
  }

  /** It is raised exactly by a trial that sent enough, lost little and came near the full load, or lost less than a fifth
      at a rate below a megabyte a second. */
  lemma RateRisesIff(t: Trial, rate: real, latency: real)
    requires rate > 0.0
    ensures DetermineRate(t, rate, latency) > rate
            <==> t.sent >= 10000
                 && ((Lost(t) < 0.02 && t.peak as real > 0.6 * (rate / 1000.0 * latency)) || (Lost(t) < 0.2 && rate < 1000000.0))
  {
    if t.sent >= 10000 { LostIsFraction(t); }
  }

  /** From a megabyte a second on, one trial changes the rate by a factor of at most 1.2. */
  lemma RateChangesGently(t: Trial, rate: real, latency: real)
    requires rate >= 1000000.0
    ensures rate / 1.2 <= DetermineRate(t, rate, latency) <= rate * 1.2
    ensures DetermineRate(t, rate, latency) > rate ==> DetermineRate(t, rate, latency) == rate * 1.2
    ensures t.sent >= 10000 && Lost(t) >= 0.2 ==> DetermineRate(t, rate, latency) == rate / 1.2
  {
    if t.sent >= 10000 { LostIsFraction(t); }
  }

  // ---- The latency

  /** With five samples or more the estimate moves towards their median, three tenths of the way; with fewer it stays. */
  lemma EstimateMovesToMedian(t: Trial, latency: real)
    requires MIN_LATENCY <= latency <= MAX_LATENCY
    ensures |t.latencies| < 5 ==> EstimateLatency(t, latency) == latency
    ensures |t.latencies| >= 5 && MIN_LATENCY <= Median(t.latencies) <= MAX_LATENCY ==>
              var next, median := EstimateLatency(t, latency), Median(t.latencies);
              && 10.0 * (next - latency) == 3.0 * (median - latency)
              && (next > latency <==> median > latency) && (next < latency <==> median < latency)
  {
  }

  /** Medians outside the range count no further than its ends. */
  lemma EstimateStopsAtEnds(t: Trial, latency: real)
    requires MIN_LATENCY <= latency <= MAX_LATENCY && |t.latencies| >= 5
    ensures 0.3 * Median(t.latencies) + 0.7 * latency >= 1000.0 ==> EstimateLatency(t, latency) == 1000.0
    ensures 0.3 * Median(t.latencies) + 0.7 * latency <= 20.0 ==> EstimateLatency(t, latency) == 20.0
  {
  }

  // ---- The window

  /** The bytes the trial has in flight stay below the window plus one packet, and fill it if packets wait. */
  predicate WindowFilled(m: Manager, maxSize: nat) {
    var bytes, window := BytesOf(m.inFlight, m.trial.ids) as real, m.rate / 1000.0 * m.latency;
    bytes < window + maxSize as real && (m.queue != [] ==> bytes >= window)
  }

  lemma SettledFills(m: Manager, maxSize: nat)
    requires CountInv(m) && WindowInv(m, maxSize) && Settled(m)
    ensures WindowFilled(m, maxSize)
  {
  }

  /** In every run, after every event, the window is kept and used: packets wait only if the bytes unconfirmed fill it. */
  lemma {:induction false} WindowIsUsed(start: int, events: seq<Event>, maxSize: nat)
    requires SizesBelow(events, maxSize)
    ensures WindowFilled(Run(start, events), maxSize)
  {
    RunInv(start, events, maxSize);
    SettledFills(Run(start, events), maxSize);
  }

  // ---- Packets

  /** What dispatching packets leaves alone. */
  predicate OnlyDispatches(m: Manager, t: Manager) {
    && t.rate == m.rate && t.latency == m.latency && t.enqueued == m.enqueued && t.settled == m.settled
    && t.trial.startedAt == m.trial.startedAt && t.trial.latencies == m.trial.latencies
    && t.trial.confirmed == m.trial.confirmed && t.trial.timedOut == m.trial.timedOut && t.trial.errors == m.trial.errors
    && t.trial.sent >= m.trial.sent && t.trial.peak >= m.trial.peak
    && m.dispatched <= t.dispatched && m.inFlight <= t.inFlight
  }

  lemma {:induction false} DispatchOnlyDispatches(m: Manager, now: int)
    ensures OnlyDispatches(m, Dispatch(m, now))
    decreases |m.queue|
  {
    if MaySend(m) { DispatchOnlyDispatches(SendNow(m, now), now); }
  }

  /** A new packet is taken into the queue, behind those handed in before. */
  lemma EnqueueTakes(m: Manager, p: Packet, now: int)
    requires forall i :: 0 <= i < |m.enqueued| ==> m.enqueued[i].id != p.id
    ensures Step(m, Enqueue(p, now)).enqueued == m.enqueued + [p]
  {
    var queued := m.(queue := m.queue + [p], enqueued := m.enqueued + [p]);
    DispatchOnlyDispatches(SwitchTrial(queued, now), now);
  }

  /** The end of a packet in flight answers its caller. */
  lemma EndSettles(m: Manager, id: InternalId, ending: Ending, now: int)
    requires exists i :: 0 <= i < |m.inFlight| && m.inFlight[i].packet.id == id
    ensures Step(m, Ends(id, ending, now)).settled == m.settled + [id]
  {
    match Find(m.inFlight, id)
    case Some(k) =>
      var landed := Landed(m, k, ending, now);
      DispatchOnlyDispatches(SwitchTrial(landed, now), now);
    case None =>
  }

  /** A packet of the current trial is counted under the way it ended, with its round trip if it was confirmed; a packet of
      an earlier trial is not counted. */
  lemma EndIsCounted(m: Manager, k: nat, ending: Ending, now: int, t: Manager)
    requires k < |m.inFlight| && Find(m.inFlight, m.inFlight[k].packet.id) == Some(k)
    requires now - m.trial.startedAt <= 5000 && t == Step(m, Ends(m.inFlight[k].packet.id, ending, now))
    ensures var size := if m.inFlight[k].packet.id in m.trial.ids then m.inFlight[k].packet.size else 0;
            && t.trial.confirmed == m.trial.confirmed + (if ending == Confirmed then size else 0)
            && t.trial.timedOut == m.trial.timedOut + (if ending == TimedOut then size else 0)
            && t.trial.errors == m.trial.errors + (if ending == Failed then size else 0)
    ensures t.trial.latencies ==
            if m.inFlight[k].packet.id in m.trial.ids && ending == Confirmed
            then m.trial.latencies + [now - m.inFlight[k].sentAt] else m.trial.latencies
  {
    DispatchOnlyDispatches(Landed(m, k, ending, now), now);
  }

  // ---- Trials

  /** When an event is handled more than five seconds after its trial began, the trial is judged and a new one begins. */
  lemma TrialEndsAfterFiveSeconds(m: Manager, now: int)
    ensures var t := HandleNextPackets(m, now);
            if now - m.trial.startedAt > 5000 then
              && t.trial.startedAt == now
              && t.latency == EstimateLatency(m.trial, m.latency)
              && t.rate == DetermineRate(m.trial, m.rate, t.latency)
              && t.trial.confirmed == t.trial.timedOut == t.trial.errors == 0 && t.trial.latencies == []
            else
              && t.trial.startedAt == m.trial.startedAt && t.latency == m.latency && t.rate == m.rate
              && t.trial.sent >= m.trial.sent
  {
    DispatchOnlyDispatches(SwitchTrial(m, now), now);
  }

  /** The peak of a trial is never below what it has unconfirmed. */
  predicate PeakInv(m: Manager) {
    Unconfirmed(m.trial) <= m.trial.peak
  }

  lemma {:induction false} DispatchPeak(m: Manager, now: int)
    requires PeakInv(m)
    ensures PeakInv(Dispatch(m, now))
    decreases |m.queue|
  {
    if MaySend(m) { DispatchPeak(SendNow(m, now), now); }
  }

  lemma StepPeak(m: Manager, e: Event)
    requires PeakInv(m)
    ensures PeakInv(Step(m, e))
  {
    match e
    case Enqueue(p, now) =>
      DispatchPeak(SwitchTrial(m.(queue := m.queue + [p], enqueued := m.enqueued + [p]), now), now);
    case Ends(id, ending, now) =>
      match Find(m.inFlight, id) {
        case None =>
        case Some(k) => DispatchPeak(SwitchTrial(Landed(m, k, ending, now), now), now);
      }
  }

  /** In every run the peak counts at least the bytes the trial has in flight. */
  lemma {:induction false} PeakCoversFlight(start: int, events: seq<Event>)
    ensures PeakInv(Run(start, events))
    decreases |events|
  {
    if events != [] {
      PeakCoversFlight(start, events[..|events| - 1]);
      StepPeak(Run(start, events[..|events| - 1]), events[|events| - 1]);
    }
  }
}
