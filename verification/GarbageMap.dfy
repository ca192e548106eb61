/** A map whose entries expire lazily: expired entries are removed by whole sweeps, at most one per half timeout, and
  only when the map is used. */
module GarbageMaps {
  import opened Wrappers

  datatype Entry<V> = Entry(value: V, timestamp: int)

  /** No timeout means no expiry. */
  datatype Lazy<!K, V> = Lazy(entries: map<K, Entry<V>>, lastCheck: int, timeout: Option<nat>)

  datatype Op<K, V> = Get(key: K) | Set(key: K, value: V) | Delete(key: K) | Has(key: K)

  datatype Timed<K, V> = Timed(at: int, op: Op<K, V>)

  function Empty<K, V>(timeout: Option<nat>, now: int): Lazy<K, V> {
    Lazy(map[], now, timeout)
  }

  predicate SweepDue<K, V>(m: Lazy<K, V>, now: int) {
    m.timeout.Some? && 2 * (now - m.lastCheck) > m.timeout.value
  }

  /** A sweep removes the entries older than the timeout. A timeout of zero counts as no timeout inside the sweep,
      which then gives up with an exception nobody sees. */
  function Sweep<K, V>(m: Lazy<K, V>, now: int): Lazy<K, V> {
    if !SweepDue(m, now) then m
    else if m.timeout.value == 0 then m.(lastCheck := now)
    else m.(lastCheck := now, entries := map k | k in m.entries && now - m.entries[k].timestamp <= m.timeout.value :: m.entries[k])
  }

  function Apply<K, V>(m: Lazy<K, V>, op: Op<K, V>, now: int): Lazy<K, V> {
    match op
    case Get(_) => Sweep(m, now)
    case Set(k, v) => Sweep(m.(entries := m.entries[k := Entry(v, now)]), now)
    case Delete(k) => Sweep(m.(entries := m.entries - {k}), now)
    case Has(_) => m
  }

  function Lookup<K, V>(m: Lazy<K, V>, k: K): Option<V> {
    if k in m.entries then Some(m.entries[k].value) else None
  }

  function Run<K, V>(timeout: Option<nat>, start: int, history: seq<Timed<K, V>>): Lazy<K, V> {
    if history == [] then Empty(timeout, start)
    else
      var last := history[|history| - 1];
      Apply(Run(timeout, start, history[..|history| - 1]), last.op, last.at)
  }

  /** The clock does not run backwards. */
  predicate Monotone<K, V>(start: int, history: seq<Timed<K, V>>) {
    (forall i :: 0 <= i < |history| ==> start <= history[i].at)
    && forall i, j :: 0 <= i < j < |history| ==> history[i].at <= history[j].at
  }

  function LastTime<K, V>(start: int, history: seq<Timed<K, V>>): int {
    if history == [] then start else history[|history| - 1].at
  }

  /** The value last set for a key and the time it was set, unless the key was deleted since. */
  function LastSet<K(==), V>(history: seq<Timed<K, V>>, k: K): Option<Entry<V>> {
    if history == [] then None
    else
      var last := history[|history| - 1];
      if last.op.Set? && last.op.key == k then Some(Entry(last.op.value, last.at))
      else if last.op.Delete? && last.op.key == k then None
      else LastSet(history[..|history| - 1], k)
  }

  predicate Young(timestamp: int, now: int, timeout: Option<nat>) {
    timeout.None? || now - timestamp <= timeout.value
  }

  // ---- The invariant

  /** Every entry is the last one set for its key. */
  ghost predicate Truthful<K(!new), V>(m: Lazy<K, V>, history: seq<Timed<K, V>>) {
    forall k :: k in m.entries ==> LastSet(history, k) == Some(m.entries[k])
  }

  /** Every young undeleted entry is there. */
  ghost predicate Complete<K(!new), V>(m: Lazy<K, V>, history: seq<Timed<K, V>>, now: int) {
    forall k :: LastSet(history, k).Some? && Young(LastSet(history, k).value.timestamp, now, m.timeout) ==> k in m.entries
  }

  /** What the last sweep left, and what was set since, is at most one timeout older than that sweep. */
  predicate Swept<K, V>(m: Lazy<K, V>) {
    m.timeout.Some? && m.timeout.value > 0 ==>
      forall k :: k in m.entries ==> m.lastCheck - m.entries[k].timestamp <= m.timeout.value
  }

  lemma {:induction false} RunInv<K(!new), V>(timeout: Option<nat>, start: int, history: seq<Timed<K, V>>)
    requires Monotone(start, history)
    ensures var m := Run(timeout, start, history);
            && m.timeout == timeout && m.lastCheck <= LastTime(start, history)
            && Truthful(m, history) && Complete(m, history, LastTime(start, history)) && Swept(m)
    decreases |history|
  {
    if history != [] {
      var init, last := history[..|history| - 1], history[|history| - 1];
      assert Monotone(start, init);
      assert init != [] ==> init[|init| - 1] == history[|init| - 1];
      RunInv(timeout, start, init);
      StepInv(Run(timeout, start, init), start, init, last);
      assert history == init + [last];
    }
  }

  lemma StepInv<K(!new), V>(m: Lazy<K, V>, start: int, history: seq<Timed<K, V>>, e: Timed<K, V>)
    requires Truthful(m, history) && Complete(m, history, LastTime(start, history)) && Swept(m)
    requires m.lastCheck <= LastTime(start, history) <= e.at
    ensures var t := Apply(m, e.op, e.at);
            && t.timeout == m.timeout && t.lastCheck <= e.at
            && Truthful(t, history + [e]) && Complete(t, history + [e], e.at) && Swept(t)
  {
    var longer := history + [e];
    assert longer[..|longer| - 1] == history;
    var t := Apply(m, e.op, e.at);
    forall k | k in t.entries ensures LastSet(longer, k) == Some(t.entries[k]) {}
    forall k | LastSet(longer, k).Some? && Young(LastSet(longer, k).value.timestamp, e.at, m.timeout) ensures k in t.entries {
      if !(e.op.Set? && e.op.key == k) {
        assert LastSet(history, k) == LastSet(longer, k);
        assert k in m.entries && m.entries[k] == LastSet(history, k).value;
      }
    }
  }

  // ---- What every history guarantees

  /** An undeleted entry set at most one timeout ago is found, with its latest value; and whatever is found is the
      latest value set and not deleted since. */
  lemma YoungEntriesAreFound<K(!new), V>(timeout: Option<nat>, start: int, history: seq<Timed<K, V>>, k: K, now: int, op: Op<K, V>)
    requires Monotone(start, history) && LastTime(start, history) <= now
    requires op == Get(k) || op == Has(k)
    ensures var latest := LastSet(history, k);
            var found := Lookup(Apply(Run(timeout, start, history), op, now), k);
            && (latest.Some? && Young(latest.value.timestamp, now, timeout) ==> found == Some(latest.value.value))
            && (found.Some? ==> latest.Some? && found == Some(latest.value.value))
  {
    RunInv(timeout, start, history);
  }

  predicate Collects<K, V>(op: Op<K, V>) {
    !op.Has?
  }

  predicate AgesBounded<K, V>(m: Lazy<K, V>, now: int, timeout: nat) {
    forall k :: k in m.entries ==> 2 * (now - m.entries[k].timestamp) <= 3 * timeout
  }

  /** After any get, set or delete no entry is older than one and a half timeouts. */
  lemma SurvivorsAreRecent<K(!new), V>(timeout: nat, start: int, history: seq<Timed<K, V>>)
    requires timeout > 0 && Monotone(start, history)
    requires history != [] && Collects(history[|history| - 1].op)
    ensures AgesBounded(Run(Some(timeout), start, history), LastTime(start, history), timeout)
  {
    RunInv(Some(timeout), start, history);
    var m := Run(Some(timeout), start, history);
    assert 2 * (LastTime(start, history) - m.lastCheck) <= timeout;
  }

  // ---- Dropping repeated packets

  datatype Arrival<K> = Arrival(key: K, at: int)

  /** An arrival is accepted, and then remembered, if its key is not remembered. */
  function Remembered<K(==)>(timeout: Option<nat>, start: int, arrivals: seq<Arrival<K>>): seq<Timed<K, bool>> {
    if arrivals == [] then []
    else
      var last := arrivals[|arrivals| - 1];
      var history := Remembered(timeout, start, arrivals[..|arrivals| - 1]);
      if last.key !in Run(timeout, start, history).entries then history + [Timed(last.at, Set(last.key, true))] else history
  }

  predicate Accepts<K(==)>(timeout: Option<nat>, start: int, arrivals: seq<Arrival<K>>, i: nat)
    requires i < |arrivals|
  {
    arrivals[i].key !in Run(timeout, start, Remembered(timeout, start, arrivals[..i])).entries
  }

  predicate InOrder<K>(start: int, arrivals: seq<Arrival<K>>) {
    (forall i :: 0 <= i < |arrivals| ==> start <= arrivals[i].at)
    && forall i, j :: 0 <= i < j < |arrivals| ==> arrivals[i].at <= arrivals[j].at
  }

  function LastArrival<K>(start: int, arrivals: seq<Arrival<K>>): int {
    if arrivals == [] then start else arrivals[|arrivals| - 1].at
  }

  lemma MonotoneExtends<K, V>(start: int, history: seq<Timed<K, V>>, e: Timed<K, V>)
    requires Monotone(start, history) && LastTime(start, history) <= e.at && start <= e.at
    ensures Monotone(start, history + [e]) && LastTime(start, history + [e]) == e.at
  {
    var longer := history + [e];
    forall i, j | 0 <= i < j < |longer| ensures longer[i].at <= longer[j].at {
      if j == |history| { assert history[i].at <= history[|history| - 1].at; }
    }
  }

  lemma InOrderInit<K>(start: int, arrivals: seq<Arrival<K>>)
    requires InOrder(start, arrivals) && arrivals != []
    ensures var init := arrivals[..|arrivals| - 1];
            InOrder(start, init) && LastArrival(start, init) <= LastArrival(start, arrivals) && start <= LastArrival(start, arrivals)
  {
    var init := arrivals[..|arrivals| - 1];
    if init != [] { assert init[|init| - 1] == arrivals[|arrivals| - 2]; }
  }

  lemma {:induction false} RememberedIsMonotone<K>(timeout: Option<nat>, start: int, arrivals: seq<Arrival<K>>)
    requires InOrder(start, arrivals)
    ensures Monotone(start, Remembered(timeout, start, arrivals))
    ensures LastTime(start, Remembered(timeout, start, arrivals)) <= LastArrival(start, arrivals)
    decreases |arrivals|
  {
    if arrivals != [] {
      var init, last := arrivals[..|arrivals| - 1], arrivals[|arrivals| - 1];
      InOrderInit(start, arrivals);
      RememberedIsMonotone(timeout, start, init);
      MonotoneExtends(start, Remembered(timeout, start, init), Timed(last.at, Set(last.key, true)));
    }
  }

  /** Once accepted, a key stays known as set at that time or later. */
  lemma {:induction false} AcceptedStaysSet<K>(timeout: Option<nat>, start: int, arrivals: seq<Arrival<K>>, i: nat)
    requires InOrder(start, arrivals) && i < |arrivals| && Accepts(timeout, start, arrivals, i)
    ensures var latest := LastSet(Remembered(timeout, start, arrivals), arrivals[i].key);
            latest.Some? && latest.value.timestamp >= arrivals[i].at
    decreases |arrivals|
  {
    var init, last := arrivals[..|arrivals| - 1], arrivals[|arrivals| - 1];
    var h := Remembered(timeout, start, init);
    var e := Timed(last.at, Set(last.key, true));
    assert (h + [e])[..|h + [e]| - 1] == h;
    if i < |init| {
      assert init[..i] == arrivals[..i];
      AcceptedStaysSet(timeout, start, init, i);
    }
  }

  /** A key that is not found was last set more than a timeout ago. */
  lemma AbsentIsOld<K(!new), V>(timeout: nat, start: int, history: seq<Timed<K, V>>, k: K, now: int)
    requires Monotone(start, history) && LastTime(start, history) <= now
    requires k !in Run(Some(timeout), start, history).entries && LastSet(history, k).Some?
    ensures now - LastSet(history, k).value.timestamp > timeout
  {
    RunInv(Some(timeout), start, history);
    var m := Run(Some(timeout), start, history);
    assert !Young(LastSet(history, k).value.timestamp, LastTime(start, history), m.timeout);
  }

  /** A key accepted at most a timeout ago is still remembered. */
  lemma StillRemembered<K(!new)>(timeout: nat, start: int, arrivals: seq<Arrival<K>>, i: nat, now: int)
    requires InOrder(start, arrivals) && i < |arrivals| && LastArrival(start, arrivals) <= now
    requires Accepts(Some(timeout), start, arrivals, i)
    ensures now - arrivals[i].at <= timeout ==> arrivals[i].key in Run(Some(timeout), start, Remembered(Some(timeout), start, arrivals)).entries
  {
    AcceptedStaysSet(Some(timeout), start, arrivals, i);
    RememberedIsMonotone(Some(timeout), start, arrivals);
    var h := Remembered(Some(timeout), start, arrivals);
    if arrivals[i].key !in Run(Some(timeout), start, h).entries {
      AbsentIsOld(timeout, start, h, arrivals[i].key, now);
    }
  }

  lemma InOrderPrefix<K>(start: int, arrivals: seq<Arrival<K>>, j: nat)
    requires InOrder(start, arrivals) && j < |arrivals|
    ensures InOrder(start, arrivals[..j]) && LastArrival(start, arrivals[..j]) <= arrivals[j].at
  {
    if j > 0 { assert arrivals[..j][j - 1] == arrivals[j - 1]; }
  }

  /** Two arrivals accepted under the same key are more than a timeout apart, so within the window every packet is
      processed at most once. */
  lemma AcceptedTwiceIsFarApart<K(!new)>(timeout: nat, start: int, arrivals: seq<Arrival<K>>, i: nat, j: nat)
    requires InOrder(start, arrivals) && i < j < |arrivals| && arrivals[i].key == arrivals[j].key
    requires Accepts(Some(timeout), start, arrivals, i) && Accepts(Some(timeout), start, arrivals, j)
    ensures arrivals[j].at - arrivals[i].at > timeout
  {
    var before := arrivals[..j];
    InOrderPrefix(start, arrivals, j);
    assert before[..i] == arrivals[..i] && before[i] == arrivals[i];
    StillRemembered(timeout, start, before, i, arrivals[j].at);
  }

  // ---- The object

  class GarbageMap<K(==), V> {
    var entries: map<K, Entry<V>>
    const expirationTimeoutMsec: Option<nat>
    var lastCheckTimestamp: int

    ghost function Model(): Lazy<K, V>
      reads this
    {
      Lazy(entries, lastCheckTimestamp, expirationTimeoutMsec)
    }

    constructor (expirationTimeoutMsec: Option<nat>, now: int)
      ensures Model() == Empty(expirationTimeoutMsec, now)
    {
      this.expirationTimeoutMsec := expirationTimeoutMsec;
      entries, lastCheckTimestamp := map[], now;
    }

    method Get(key: K, now: int) returns (value: Option<V>)
      modifies this
      ensures Model() == Apply(old(Model()), Op.Get(key), now) && value == Lookup(Model(), key)
    {
      CheckGarbageCollection(now);
      value := if key in entries then Some(entries[key].value) else None;
    }

    method Set(key: K, value: V, now: int)
      modifies this
      ensures Model() == Apply(old(Model()), Op.Set(key, value), now)
    {
      entries := entries[key := Entry(value, now)];
      CheckGarbageCollection(now);
    }

    method Delete(key: K, now: int)
      modifies this
      ensures Model() == Apply(old(Model()), Op.Delete(key), now)
    {
      if key in entries {
        entries := entries - {key};
      } else {
        assert entries - {key} == entries;
      }
      CheckGarbageCollection(now);
    }

    method Has(key: K) returns (has: bool)
      ensures has <==> Lookup(Model(), key).Some?
    {
      has := key in entries;
    }

    /** Collects the expired keys first and deletes them afterwards. */
    method CheckGarbageCollection(now: int)
      modifies this
      ensures Model() == Sweep(old(Model()), now)
    {
      if expirationTimeoutMsec.None? || 2 * (now - lastCheckTimestamp) <= expirationTimeoutMsec.value {
        return;
      }
      lastCheckTimestamp := now;
      if expirationTimeoutMsec.value == 0 {
        return;
      }
      var keysToDelete := ExpiredKeys(now, expirationTimeoutMsec.value);
      var remaining := keysToDelete;
      while remaining != {}
        invariant remaining <= keysToDelete
        invariant lastCheckTimestamp == now && entries == old(entries) - (keysToDelete - remaining)
        decreases |remaining|
      {
        var k :| k in remaining;
        entries := entries - {k};
        remaining := remaining - {k};
      }
    }

    method ExpiredKeys(now: int, timeout: nat) returns (expired: set<K>)
      ensures forall k :: k in expired <==> k in entries && now - entries[k].timestamp > timeout
    {
      expired := {};
      var remaining := entries.Keys;
      while remaining != {}
        invariant remaining <= entries.Keys
        invariant forall k :: k in expired <==> k in entries && k !in remaining && now - entries[k].timestamp > timeout
        decreases |remaining|
      {
        var k :| k in remaining;
        remaining := remaining - {k};
        if now - entries[k].timestamp > timeout {
          expired := expired + {k};
        }
      }
    }
  }
}
