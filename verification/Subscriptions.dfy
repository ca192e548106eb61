/** Which other nodes hear about new messages of a subfeed: a map of subscriptions, an index from subfeeds to their
    subscriptions, and removal timers that outlive the renewals that started them. Both maps expire lazily. */
module Subscriptions {
  import opened Wrappers
  import opened GarbageMaps

  const SubscriptionMsec := 60 * 1000
  const MapTimeoutMsec: nat := 300 * 60 * 1000

  // ---- Codes

  /** The two kinds of key. In the program both are strings, joined with colons. */
  datatype Code =
    | SubscriptionCode(node: string, feed: string, subfeed: string)
    | SubfeedCode(feed: string, subfeed: string)

  function Render(c: Code): string {
    match c
    case SubscriptionCode(n, f, s) => n + ":" + f + ":" + s
    case SubfeedCode(f, s) => f + ":" + s
  }

  predicate ColonFree(s: string) { ':' !in s }

  predicate Plain(c: Code) {
    ColonFree(c.feed) && ColonFree(c.subfeed) && (c.SubscriptionCode? ==> ColonFree(c.node))
  }

  lemma FirstFieldIsDetermined(a: string, x: string, b: string, y: string)
    requires ColonFree(a) && ColonFree(b) && a + ":" + x == b + ":" + y
    ensures a == b && x == y
  {
    var s, t := a + ":" + x, b + ":" + y;
    assert s[|a|] == ':' && t[|b|] == ':';
    assert forall i :: 0 <= i < |a| ==> s[i] == a[i];
    assert forall i :: 0 <= i < |b| ==> t[i] == b[i];
    assert |a| == |b|;
    assert a == s[..|a|] && b == t[..|b|] && x == s[|a| + 1..] && y == t[|b| + 1..];
  }

  /** Identifiers without colons give different strings to different codes; above all, a subfeed's code is never the
      code of a subscription. */
  lemma CodesAreInjective(c: Code, d: Code)
    requires Plain(c) && Plain(d) && Render(c) == Render(d)
    ensures c == d
  {
    var restC := if c.SubscriptionCode? then c.feed + ":" + c.subfeed else c.subfeed;
    var restD := if d.SubscriptionCode? then d.feed + ":" + d.subfeed else d.subfeed;
    var firstC := if c.SubscriptionCode? then c.node else c.feed;
    var firstD := if d.SubscriptionCode? then d.node else d.feed;
    assert Render(c) == firstC + ":" + restC && Render(d) == firstD + ":" + restD;
    assert c.SubscriptionCode? ==> restC[|c.feed|] == ':';
    assert d.SubscriptionCode? ==> restD[|d.feed|] == ':';
    FirstFieldIsDetermined(firstC, restC, firstD, restD);
    if c.SubscriptionCode? && d.SubscriptionCode? {
      FirstFieldIsDetermined(c.feed, c.subfeed, d.feed, d.subfeed);
    }
  }

  // ---- The manager's steps

  datatype Subscription = Subscription(node: string, feed: string, subfeed: string, lastRenew: int)

  datatype Manager = Manager(subscriptions: Lazy<Code, Subscription>, index: Lazy<Code, seq<Code>>)

  datatype Event =
    | Renew(node: string, feed: string, subfeed: string)
    | RemovalTimer(node: string, feed: string, subfeed: string)
    | Append(feed: string, subfeed: string)

  datatype Stamped = Stamped(at: int, event: Event)

  function Initial(now: int): Manager {
    Manager(Empty(Some(MapTimeoutMsec), now), Empty(Some(MapTimeoutMsec), now))
  }

  /** Keys keep the position they were first added at. */
  function AddCode(codes: seq<Code>, c: Code): seq<Code> {
    if c in codes then codes else codes + [c]
  }

  function CodesFor(index: Lazy<Code, seq<Code>>, subfeedCode: Code): seq<Code> {
    match Lookup(index, subfeedCode) case Some(codes) => codes case None => []
  }

  function Listing(index: Lazy<Code, seq<Code>>, code: Code, subfeedCode: Code, now: int): Lazy<Code, seq<Code>> {
    var read := Apply(index, Get(subfeedCode), now);
    Apply(read, Set(subfeedCode, AddCode(CodesFor(read, subfeedCode), code)), now)
  }

  /** The program looks for an existing subscription under the subfeed's code. */
  function Renewing(subscriptions: Lazy<Code, Subscription>, code: Code, now: int): Lazy<Code, Subscription>
    requires code.SubscriptionCode?
  {
    var subfeedCode := SubfeedCode(code.feed, code.subfeed);
    var read := Apply(subscriptions, Get(subfeedCode), now);
    match Lookup(read, subfeedCode)
    case Some(s) =>
      var renewed := Entry(s.(lastRenew := now), read.entries[subfeedCode].timestamp);
      read.(entries := read.entries[subfeedCode := renewed])
    case None => Apply(read, Set(code, Subscription(code.node, code.feed, code.subfeed, now)), now)
  }

  function Removing(subscriptions: Lazy<Code, Subscription>, code: Code, now: int): Lazy<Code, Subscription> {
    var read := Apply(subscriptions, Get(code), now);
    match Lookup(read, code)
    case Some(s) => if now - s.lastRenew > SubscriptionMsec then Apply(read, Delete(code), now) else read
    case None => read
  }

  /** The subscriptions map after looking up every code, and the nodes a report was sent to, in order. */
  function Notifying(subscriptions: Lazy<Code, Subscription>, codes: seq<Code>, now: int): (Lazy<Code, Subscription>, seq<string>) {
    if codes == [] then (subscriptions, [])
    else
      var (before, sent) := Notifying(subscriptions, codes[..|codes| - 1], now);
      var read := Apply(before, Get(codes[|codes| - 1]), now);
      match Lookup(read, codes[|codes| - 1])
      case Some(s) => (read, sent + [s.node])
      case None => (read, sent)
  }

  function Step(m: Manager, e: Stamped): Manager {
    match e.event
    case Renew(n, f, s) =>
      Manager(Renewing(m.subscriptions, SubscriptionCode(n, f, s), e.at),
              Listing(m.index, SubscriptionCode(n, f, s), SubfeedCode(f, s), e.at))
    case RemovalTimer(n, f, s) => m.(subscriptions := Removing(m.subscriptions, SubscriptionCode(n, f, s), e.at))
    case Append(f, s) =>
      var index := Apply(m.index, Get(SubfeedCode(f, s)), e.at);
      Manager(Notifying(m.subscriptions, CodesFor(index, SubfeedCode(f, s)), e.at).0, index)
  }

  /** The nodes an append is reported to. */
  function Reports(m: Manager, feed: string, subfeed: string, now: int): seq<string> {
    Notifying(m.subscriptions, CodesFor(Apply(m.index, Get(SubfeedCode(feed, subfeed)), now), SubfeedCode(feed, subfeed)), now).1
  }

  function RunOf(start: int, history: seq<Stamped>): Manager {
    if history == [] then Initial(start) else Step(RunOf(start, history[..|history| - 1]), history[|history| - 1])
  }

  function Clock(start: int, history: seq<Stamped>): int {
    if history == [] then start else history[|history| - 1].at
  }

  predicate ClockRunsForward(start: int, history: seq<Stamped>) {
    (forall i :: 0 <= i < |history| ==> start <= history[i].at)
    && forall i, j :: 0 <= i < j < |history| ==> history[i].at <= history[j].at
  }

  /** When a node last subscribed. */
  function LastRenewal(history: seq<Stamped>, code: Code): Option<int>
    requires code.SubscriptionCode?
  {
    if history == [] then None
    else
      var last := history[|history| - 1];
      if last.event == Renew(code.node, code.feed, code.subfeed) then Some(last.at)
      else LastRenewal(history[..|history| - 1], code)
  }

  // ---- The invariant

  predicate Accurate(subscriptions: Lazy<Code, Subscription>, history: seq<Stamped>) {
    forall c :: c in subscriptions.entries ==> AccurateEntry(subscriptions.entries[c], c, history)
  }

  predicate AccurateEntry(e: Entry<Subscription>, c: Code, history: seq<Stamped>) {
    c.SubscriptionCode?
    && LastRenewal(history, c) == Some(e.timestamp)
    && e.value == Subscription(c.node, c.feed, c.subfeed, e.timestamp)
  }

  /** A subscription renewed at most a minute ago is there. */
  ghost predicate Present(subscriptions: Lazy<Code, Subscription>, history: seq<Stamped>, now: int) {
    forall c: Code :: c.SubscriptionCode? && RenewedWithin(history, c, now, SubscriptionMsec) ==> c in subscriptions.entries
  }

  predicate RenewedWithin(history: seq<Stamped>, c: Code, now: int, msec: nat)
    requires c.SubscriptionCode?
  {
    LastRenewal(history, c).Some? && now - LastRenewal(history, c).value <= msec
  }

  /** The index entry of a subfeed is at least as fresh as each of its subscriptions. */
  ghost predicate Indexed(index: Lazy<Code, seq<Code>>, history: seq<Stamped>, now: int) {
    forall c: Code :: c.SubscriptionCode? && RenewedWithin(history, c, now, MapTimeoutMsec) ==>
      ListedSince(index, c, LastRenewal(history, c).value)
  }

  predicate ListedSince(index: Lazy<Code, seq<Code>>, c: Code, t: int)
    requires c.SubscriptionCode?
  {
    var sc := SubfeedCode(c.feed, c.subfeed);
    sc in index.entries && c in index.entries[sc].value && t <= index.entries[sc].timestamp
  }

  predicate NoRepeats(codes: seq<Code>) {
    forall i, j :: 0 <= i < j < |codes| ==> codes[i] != codes[j]
  }

  predicate AllOf(codes: seq<Code>, feed: string, subfeed: string) {
    forall c :: c in codes ==> c.SubscriptionCode? && c.feed == feed && c.subfeed == subfeed
  }

  predicate CleanIndex(index: Lazy<Code, seq<Code>>) {
    forall sc :: sc in index.entries ==>
      sc.SubfeedCode? && NoRepeats(index.entries[sc].value) && AllOf(index.entries[sc].value, sc.feed, sc.subfeed)
  }

  ghost predicate Inv(m: Manager, history: seq<Stamped>, now: int) {
    && m.subscriptions.timeout == m.index.timeout == Some(MapTimeoutMsec)
    && Accurate(m.subscriptions, history) && Present(m.subscriptions, history, now)
    && CleanIndex(m.index) && Indexed(m.index, history, now)
  }

  lemma LastRenewalOfLonger(history: seq<Stamped>, e: Stamped, c: Code)
    requires c.SubscriptionCode?
    ensures LastRenewal(history + [e], c) ==
            if e.event == Renew(c.node, c.feed, c.subfeed) then Some(e.at) else LastRenewal(history, c)
  {
    assert (history + [e])[..|history + [e]| - 1] == history;
  }

  /** Looking up codes changes the map only by a sweep. */
  lemma {:induction false} NotifyingSweeps(subscriptions: Lazy<Code, Subscription>, codes: seq<Code>, now: int)
    ensures Notifying(subscriptions, codes, now).0 == if codes == [] then subscriptions else Sweep(subscriptions, now)
    decreases |codes|
  {
    if codes != [] { NotifyingSweeps(subscriptions, codes[..|codes| - 1], now); }
  }

  lemma AddCodeKeeps(codes: seq<Code>, c: Code)
    requires NoRepeats(codes) && c.SubscriptionCode? && AllOf(codes, c.feed, c.subfeed)
    ensures NoRepeats(AddCode(codes, c)) && AllOf(AddCode(codes, c), c.feed, c.subfeed)
    ensures c in AddCode(codes, c) && forall d :: d in codes ==> d in AddCode(codes, c)
  {}

  lemma ListingKeepsClean(index: Lazy<Code, seq<Code>>, c: Code, now: int)
    requires CleanIndex(index) && c.SubscriptionCode?
    ensures CleanIndex(Listing(index, c, SubfeedCode(c.feed, c.subfeed), now))
  {
    var sc := SubfeedCode(c.feed, c.subfeed);
    var read := Apply(index, Get(sc), now);
    assert CleanIndex(read);
    AddCodeKeeps(CodesFor(read, sc), c);
  }

  lemma ListingKeepsListed(index: Lazy<Code, seq<Code>>, c: Code, d: Code, t: int, now: int)
    requires index.timeout == Some(MapTimeoutMsec) && CleanIndex(index)
    requires c.SubscriptionCode? && d.SubscriptionCode? && t <= now && now - t <= MapTimeoutMsec
    requires d == c || ListedSince(index, d, t)
    ensures ListedSince(Listing(index, c, SubfeedCode(c.feed, c.subfeed), now), d, t)
  {
    var sc := SubfeedCode(c.feed, c.subfeed);
    var read := Apply(index, Get(sc), now);
    assert CleanIndex(read);
    assert d != c ==> ListedSince(read, d, t);
    AddCodeKeeps(CodesFor(read, sc), c);
  }

  /** Subscriptions are stored under subscription codes only, so the lookup under a subfeed's code never succeeds. */
  lemma RenewalMakesNewSubscription(m: Manager, history: seq<Stamped>, c: Code, now: int)
    requires Inv(m, history, now) && c.SubscriptionCode?
    ensures Lookup(Apply(m.subscriptions, Get(SubfeedCode(c.feed, c.subfeed)), now), SubfeedCode(c.feed, c.subfeed)) == None
  {}

  lemma SweepIsExact<K, V>(m: Lazy<K, V>, now: int, k: K)
    ensures Sweep(m, now).timeout == m.timeout
    ensures k in Sweep(m, now).entries ==> k in m.entries && Sweep(m, now).entries[k] == m.entries[k]
    ensures k in m.entries && Young(m.entries[k].timestamp, now, m.timeout) ==> k in Sweep(m, now).entries
  {}

  lemma SubscriptionsStep(s: Lazy<Code, Subscription>, t: Lazy<Code, Subscription>, history: seq<Stamped>, e: Stamped, now: int)
    requires s.timeout == Some(MapTimeoutMsec) && now <= e.at
    requires Accurate(s, history) && Present(s, history, now)
    requires SubscriptionsAfter(s, t, e)
    ensures t.timeout == s.timeout && Accurate(t, history + [e]) && Present(t, history + [e], e.at)
  {
    forall c | c in t.entries ensures AccurateEntry(t.entries[c], c, history + [e]) {
      StepAccurate(s, t, history, e, c);
    }
    forall c: Code | c.SubscriptionCode? && RenewedWithin(history + [e], c, e.at, SubscriptionMsec) ensures c in t.entries {
      StepPresent(s, t, history, e, c, now);
    }
  }

  predicate SubscriptionsAfter(s: Lazy<Code, Subscription>, t: Lazy<Code, Subscription>, e: Stamped) {
    match e.event
    case Renew(n, f, sf) => t == Renewing(s, SubscriptionCode(n, f, sf), e.at)
    case RemovalTimer(n, f, sf) => t == Removing(s, SubscriptionCode(n, f, sf), e.at)
    case Append(_, _) => t == s || t == Sweep(s, e.at)
  }

  lemma StepAccurate(s: Lazy<Code, Subscription>, t: Lazy<Code, Subscription>, history: seq<Stamped>, e: Stamped, c: Code)
    requires Accurate(s, history) && SubscriptionsAfter(s, t, e) && c in t.entries
    ensures AccurateEntry(t.entries[c], c, history + [e])
  {
    if c in s.entries { assert AccurateEntry(s.entries[c], c, history); }
    assert c.SubscriptionCode?;
    LastRenewalOfLonger(history, e, c);
  }

  lemma StepPresent(s: Lazy<Code, Subscription>, t: Lazy<Code, Subscription>, history: seq<Stamped>, e: Stamped, c: Code, now: int)
    requires s.timeout == Some(MapTimeoutMsec) && now <= e.at && c.SubscriptionCode?
    requires Accurate(s, history) && Present(s, history, now) && SubscriptionsAfter(s, t, e)
    requires RenewedWithin(history + [e], c, e.at, SubscriptionMsec)
    ensures c in t.entries
  {
    LastRenewalOfLonger(history, e, c);
    if e.event != Renew(c.node, c.feed, c.subfeed) {
      assert RenewedWithin(history, c, now, SubscriptionMsec);
      assert AccurateEntry(s.entries[c], c, history);
    }
  }

  ghost predicate AllPast(history: seq<Stamped>, now: int) {
    forall c: Code :: c.SubscriptionCode? && LastRenewal(history, c).Some? ==> LastRenewal(history, c).value <= now
  }

  lemma IndexStep(m: Manager, history: seq<Stamped>, e: Stamped, now: int)
    requires m.index.timeout == Some(MapTimeoutMsec) && now <= e.at
    requires CleanIndex(m.index) && Indexed(m.index, history, now)
    requires AllPast(history, now)
    ensures var t := Step(m, e).index;
            t.timeout == m.index.timeout && CleanIndex(t) && Indexed(t, history + [e], e.at)
  {
    var t := Step(m, e).index;
    if e.event.Renew? {
      ListingKeepsClean(m.index, SubscriptionCode(e.event.node, e.event.feed, e.event.subfeed), e.at);
    }
    forall c: Code | c.SubscriptionCode? && RenewedWithin(history + [e], c, e.at, MapTimeoutMsec)
      ensures ListedSince(t, c, LastRenewal(history + [e], c).value)
    {
      LastRenewalOfLonger(history, e, c);
      var since := LastRenewal(history + [e], c).value;
      if e.event != Renew(c.node, c.feed, c.subfeed) {
        assert RenewedWithin(history, c, now, MapTimeoutMsec);
        assert ListedSince(m.index, c, since);
      }
      if e.event.Renew? {
        ListingKeepsListed(m.index, SubscriptionCode(e.event.node, e.event.feed, e.event.subfeed), c, since, e.at);
      }
    }
  }

  lemma {:induction false} RenewalsArePast(start: int, history: seq<Stamped>, c: Code)
    requires ClockRunsForward(start, history) && c.SubscriptionCode? && LastRenewal(history, c).Some?
    ensures LastRenewal(history, c).value <= Clock(start, history)
    decreases |history|
  {
    var last := history[|history| - 1];
    if last.event != Renew(c.node, c.feed, c.subfeed) {
      var init := history[..|history| - 1];
      RenewalsArePast(start, init, c);
      assert init[|init| - 1] == history[|init| - 1];
    }
  }

  lemma StepInv(m: Manager, history: seq<Stamped>, e: Stamped, now: int)
    requires Inv(m, history, now) && now <= e.at
    requires AllPast(history, now)
    ensures Inv(Step(m, e), history + [e], e.at)
  {
    if e.event.Append? {
      NotifyingSweeps(m.subscriptions, CodesFor(Step(m, e).index, SubfeedCode(e.event.feed, e.event.subfeed)), e.at);
    }
    SubscriptionsStep(m.subscriptions, Step(m, e).subscriptions, history, e, now);
    IndexStep(m, history, e, now);
  }

  lemma ClockRunsForwardInit(start: int, history: seq<Stamped>)
    requires ClockRunsForward(start, history) && history != []
    ensures var init := history[..|history| - 1];
            ClockRunsForward(start, init) && Clock(start, init) <= Clock(start, history)
  {
    var init := history[..|history| - 1];
    assert init != [] ==> init[|init| - 1] == history[|init| - 1];
  }

  lemma AllRenewalsPast(start: int, history: seq<Stamped>)
    requires ClockRunsForward(start, history)
    ensures AllPast(history, Clock(start, history))
  {
    forall c: Code | c.SubscriptionCode? && LastRenewal(history, c).Some? ensures LastRenewal(history, c).value <= Clock(start, history) {
      RenewalsArePast(start, history, c);
    }
  }

  lemma {:induction false} RunInv(start: int, history: seq<Stamped>)
    requires ClockRunsForward(start, history)
    ensures Inv(RunOf(start, history), history, Clock(start, history))
    decreases |history|
  {
    if history != [] {
      var init, e := history[..|history| - 1], history[|history| - 1];
      ClockRunsForwardInit(start, history);
      RunInv(start, init);
      AllRenewalsPast(start, init);
      StepInv(RunOf(start, init), init, e, Clock(start, init));
      assert history == init + [e];
    }
  }

  // ---- Who is told

  /** The reports sent are those of the listed codes that survive the sweep, in order. */
  function Recipients(entries: map<Code, Entry<Subscription>>, codes: seq<Code>): seq<string> {
    if codes == [] then []
    else
      var last := codes[|codes| - 1];
      Recipients(entries, codes[..|codes| - 1]) + if last in entries then [entries[last].value.node] else []
  }

  lemma {:induction false} NotifyingIsRecipients(subscriptions: Lazy<Code, Subscription>, codes: seq<Code>, now: int)
    ensures Notifying(subscriptions, codes, now).1 == Recipients(Sweep(subscriptions, now).entries, codes)
    decreases |codes|
  {
    if codes != [] {
      NotifyingIsRecipients(subscriptions, codes[..|codes| - 1], now);
      NotifyingSweeps(subscriptions, codes[..|codes| - 1], now);
    }
  }

  /** A node is told once if it is listed and still subscribed, and not at all otherwise. */
  lemma {:induction false} RecipientCounts(entries: map<Code, Entry<Subscription>>, codes: seq<Code>, c: Code)
    requires c.SubscriptionCode? && NoRepeats(codes) && AllOf(codes, c.feed, c.subfeed)
    requires forall d :: d in entries ==> d.SubscriptionCode? && entries[d].value.node == d.node
    ensures multiset(Recipients(entries, codes))[c.node] == if c in codes && c in entries then 1 else 0
    decreases |codes|
  {
    if codes != [] {
      var init, last := codes[..|codes| - 1], codes[|codes| - 1];
      assert codes == init + [last];
      RecipientCounts(entries, init, c);
      assert last in codes;
    }
  }

  lemma ReportCounts(m: Manager, history: seq<Stamped>, c: Code, earlier: int, now: int)
    requires Inv(m, history, earlier) && c.SubscriptionCode?
    ensures var sc := SubfeedCode(c.feed, c.subfeed);
            multiset(Reports(m, c.feed, c.subfeed, now))[c.node] ==
            if c in CodesFor(Sweep(m.index, now), sc) && c in Sweep(m.subscriptions, now).entries then 1 else 0
  {
    var sc := SubfeedCode(c.feed, c.subfeed);
    var index := Sweep(m.index, now);
    assert CleanIndex(index);
    var codes := CodesFor(index, sc);
    var entries := Sweep(m.subscriptions, now).entries;
    forall d | d in entries ensures d.SubscriptionCode? && entries[d].value.node == d.node {
      SweepIsExact(m.subscriptions, now, d);
      assert AccurateEntry(m.subscriptions.entries[d], d, history);
    }
    NotifyingIsRecipients(m.subscriptions, codes, now);
    RecipientCounts(entries, codes, c);
  }

  /** After any history, an append sends exactly one report to every node that renewed its subscription at most a minute
      ago, at most one to any node, and none to a node that never subscribed. */
  lemma {:induction false} SubscribersAreToldOnce(start: int, history: seq<Stamped>, node: string, feed: string, subfeed: string, now: int)
    requires ClockRunsForward(start, history) && Clock(start, history) <= now
    ensures var c := SubscriptionCode(node, feed, subfeed);
            var told := multiset(Reports(RunOf(start, history), feed, subfeed, now))[node];
            && told <= 1
            && (RenewedWithin(history, c, now, SubscriptionMsec) ==> told == 1)
            && (LastRenewal(history, c).None? ==> told == 0)
  {
    RunInv(start, history);
    var m, earlier := RunOf(start, history), Clock(start, history);
    var c := SubscriptionCode(node, feed, subfeed);
    ReportCounts(m, history, c, earlier, now);
    SweepIsExact(m.subscriptions, now, c);
    if RenewedWithin(history, c, now, SubscriptionMsec) {
      assert RenewedWithin(history, c, earlier, SubscriptionMsec) && RenewedWithin(history, c, earlier, MapTimeoutMsec);
      assert ListedSince(m.index, c, LastRenewal(history, c).value);
      assert AccurateEntry(m.subscriptions.entries[c], c, history);
      SweepIsExact(m.index, now, SubfeedCode(feed, subfeed));
    }
    if c in m.subscriptions.entries { assert AccurateEntry(m.subscriptions.entries[c], c, history); }
  }

  /** A removal timer, however stale, ends a subscription exactly if it was not renewed within the last minute. */
  lemma TimerRemovesIffLapsed(start: int, history: seq<Stamped>, c: Code, now: int)
    requires ClockRunsForward(start, history) && Clock(start, history) <= now && c.SubscriptionCode?
    ensures c in Step(RunOf(start, history), Stamped(now, RemovalTimer(c.node, c.feed, c.subfeed))).subscriptions.entries
            <==> RenewedWithin(history, c, now, SubscriptionMsec)
  {
    RunInv(start, history);
    RemovedIffLapsed(RunOf(start, history).subscriptions, history, c, Clock(start, history), now);
  }

  lemma RemovedIffLapsed(s: Lazy<Code, Subscription>, history: seq<Stamped>, c: Code, earlier: int, now: int)
    requires s.timeout == Some(MapTimeoutMsec) && Accurate(s, history) && Present(s, history, earlier)
    requires earlier <= now && c.SubscriptionCode?
    ensures c in Removing(s, c, now).entries <==> RenewedWithin(history, c, now, SubscriptionMsec)
  {
    SweepIsExact(s, now, c);
    if c in s.entries { assert AccurateEntry(s.entries[c], c, history); }
    if RenewedWithin(history, c, now, SubscriptionMsec) {
      assert RenewedWithin(history, c, earlier, SubscriptionMsec);
    }
  }

  lemma StaysEnded(m: Manager, history: seq<Stamped>, e: Stamped, c: Code, earlier: int)
    requires Inv(m, history, earlier) && c.SubscriptionCode? && c !in m.subscriptions.entries
    requires e.event != Renew(c.node, c.feed, c.subfeed)
    ensures c !in Step(m, e).subscriptions.entries
  {
    SweepIsExact(m.subscriptions, e.at, c);
    match e.event
    case Append(f, s) =>
      NotifyingSweeps(m.subscriptions, CodesFor(Step(m, e).index, SubfeedCode(f, s)), e.at);
    case _ =>
  }

  /** Once ended, a subscription stays ended until the node renews: nothing is sent to it. */
  lemma {:induction false} LapsedGetNothing(start: int, history: seq<Stamped>, later: seq<Stamped>, c: Code, now: int)
    requires c.SubscriptionCode? && c !in RunOf(start, history).subscriptions.entries
    requires ClockRunsForward(start, history + later) && NoRenewal(later, c)
    ensures c !in RunOf(start, history + later).subscriptions.entries
    ensures c.node !in Reports(RunOf(start, history + later), c.feed, c.subfeed, now)
  {
    LapsedStayOut(start, history, later, c);
    NothingSentAfter(start, history + later, c, now);
  }

  predicate NoRenewal(events: seq<Stamped>, c: Code)
    requires c.SubscriptionCode?
  {
    forall i :: 0 <= i < |events| ==> events[i].event != Renew(c.node, c.feed, c.subfeed)
  }

  lemma {:induction false} LapsedStayOut(start: int, history: seq<Stamped>, later: seq<Stamped>, c: Code)
    requires c.SubscriptionCode? && c !in RunOf(start, history).subscriptions.entries
    requires ClockRunsForward(start, history + later) && NoRenewal(later, c)
    ensures c !in RunOf(start, history + later).subscriptions.entries
    decreases |later|
  {
    if later == [] {
      assert history + later == history;
    } else {
      var init, e := later[..|later| - 1], later[|later| - 1];
      assert history + later == (history + init) + [e];
      ClockOneLess(start, history + init, e);
      LapsedStayOut(start, history, init, c);
      EndedOneMore(start, history + init, e, c);
    }
  }

  lemma ClockOneLess(start: int, history: seq<Stamped>, e: Stamped)
    requires ClockRunsForward(start, history + [e])
    ensures ClockRunsForward(start, history)
  {
    ClockRunsForwardInit(start, history + [e]);
    assert (history + [e])[..|history|] == history;
  }

  lemma EndedOneMore(start: int, history: seq<Stamped>, e: Stamped, c: Code)
    requires ClockRunsForward(start, history) && c.SubscriptionCode?
    requires c !in RunOf(start, history).subscriptions.entries && e.event != Renew(c.node, c.feed, c.subfeed)
    ensures c !in RunOf(start, history + [e]).subscriptions.entries
  {
    RunInv(start, history);
    StaysEnded(RunOf(start, history), history, e, c, Clock(start, history));
    assert (history + [e])[..|history|] == history;
  }

  lemma NothingSentAfter(start: int, history: seq<Stamped>, c: Code, now: int)
    requires ClockRunsForward(start, history) && c.SubscriptionCode?
    requires c !in RunOf(start, history).subscriptions.entries
    ensures c.node !in Reports(RunOf(start, history), c.feed, c.subfeed, now)
  {
    RunInv(start, history);
    NothingSent(RunOf(start, history), history, c, Clock(start, history), now);
  }

  lemma NothingSent(m: Manager, history: seq<Stamped>, c: Code, earlier: int, now: int)
    requires Inv(m, history, earlier) && c.SubscriptionCode? && c !in m.subscriptions.entries
    ensures c.node !in Reports(m, c.feed, c.subfeed, now)
  {
    ReportCounts(m, history, c, earlier, now);
    SweepIsExact(m.subscriptions, now, c);
    var sent := Reports(m, c.feed, c.subfeed, now);
    assert multiset(sent)[c.node] == 0;
  }

  /** The state after one renewal at time zero. */
  function OneSubscriber(c: Code): Manager
    requires c.SubscriptionCode?
  {
    Manager(Lazy(map[c := Entry(Subscription(c.node, c.feed, c.subfeed, 0), 0)], 0, Some(MapTimeoutMsec)),
            Lazy(map[SubfeedCode(c.feed, c.subfeed) := Entry([c], 0)], 0, Some(MapTimeoutMsec)))
  }

  lemma OneRenewal(c: Code)
    requires c.SubscriptionCode?
    ensures Step(Initial(0), Stamped(0, Renew(c.node, c.feed, c.subfeed))) == OneSubscriber(c)
  {
    assert AddCode([], c) == [c];
  }

  lemma OneSubscriberIsTold(c: Code, now: int)
    requires c.SubscriptionCode? && now <= MapTimeoutMsec / 2
    ensures Reports(OneSubscriber(c), c.feed, c.subfeed, now) == [c.node]
  {
    var m := OneSubscriber(c);
    NotifyingIsRecipients(m.subscriptions, [c], now);
    assert [c][..0] == [];
    assert Recipients(m.subscriptions.entries, [c]) == Recipients(m.subscriptions.entries, []) + [c.node];
  }

  /** A timer that fires on time, exactly a minute after the only renewal, ends nothing: the node is still told of an
      append more than two hours later. */
  lemma TimelyTimerEndsNothing(c: Code)
    requires c.SubscriptionCode?
    ensures var history := [Stamped(0, Renew(c.node, c.feed, c.subfeed)), Stamped(60000, RemovalTimer(c.node, c.feed, c.subfeed))];
            ClockRunsForward(0, history) && Reports(RunOf(0, history), c.feed, c.subfeed, 8000000) == [c.node]
  {
    var renew, timer := Stamped(0, Renew(c.node, c.feed, c.subfeed)), Stamped(60000, RemovalTimer(c.node, c.feed, c.subfeed));
    var history := [renew, timer];
    OneRenewal(c);
    assert RunOf(0, [renew]) == OneSubscriber(c) by { assert [renew][..0] == []; }
    assert RunOf(0, history) == Step(OneSubscriber(c), timer) by { assert history[..1] == [renew]; }
    assert Step(OneSubscriber(c), timer) == OneSubscriber(c);
    OneSubscriberIsTold(c, 8000000);
  }

  // ---- The object

  class NewIncomingSubfeedSubscriptionManager {
    const incomingSubscriptions: GarbageMap<Code, Subscription>
    const subscriptionCodesBySubfeedCode: GarbageMap<Code, seq<Code>>

    ghost predicate Valid()
      reads this, incomingSubscriptions
    {
      forall c :: c in incomingSubscriptions.entries ==> c.SubscriptionCode?
    }

    ghost function Model(): Manager
      reads this, incomingSubscriptions, subscriptionCodesBySubfeedCode
    {
      Manager(incomingSubscriptions.Model(), subscriptionCodesBySubfeedCode.Model())
    }

    constructor (now: int)
      ensures Valid() && Model() == Initial(now)
      ensures fresh(incomingSubscriptions) && fresh(subscriptionCodesBySubfeedCode)
    {
      incomingSubscriptions := new GarbageMap(Some(MapTimeoutMsec), now);
      subscriptionCodesBySubfeedCode := new GarbageMap(Some(MapTimeoutMsec), now);
    }

    /** The removal timer started at the end is the caller's. */
    method CreateOrRenewIncomingSubscription(node: string, feed: string, subfeed: string, now: int)
      requires Valid()
      modifies incomingSubscriptions, subscriptionCodesBySubfeedCode
      ensures Valid() && Model() == Step(old(Model()), Stamped(now, Renew(node, feed, subfeed)))
    {
      var subscriptionCode, subfeedCode := SubscriptionCode(node, feed, subfeed), SubfeedCode(feed, subfeed);
      var known := subscriptionCodesBySubfeedCode.Get(subfeedCode, now);
      var codes := match known case Some(codes) => codes case None => [];
      subscriptionCodesBySubfeedCode.Set(subfeedCode, AddCode(codes, subscriptionCode), now);
      var found := incomingSubscriptions.Get(subfeedCode, now);
      assert found.None?;
      incomingSubscriptions.Set(subscriptionCode, Subscription(node, feed, subfeed, now), now);
    }

    /** The nodes a report is sent to, in the order of sending. */
    method ReportMessagesAdded(feed: string, subfeed: string, now: int) returns (sent: seq<string>)
      requires Valid()
      modifies incomingSubscriptions, subscriptionCodesBySubfeedCode
      ensures Valid() && Model() == Step(old(Model()), Stamped(now, Append(feed, subfeed)))
      ensures sent == Reports(old(Model()), feed, subfeed, now)
    {
      var known := subscriptionCodesBySubfeedCode.Get(SubfeedCode(feed, subfeed), now);
      var codes := match known case Some(codes) => codes case None => [];
      ghost var before, index := incomingSubscriptions.Model(), subscriptionCodesBySubfeedCode.Model();
      sent := [];
      for i := 0 to |codes|
        invariant Valid() && (incomingSubscriptions.Model(), sent) == Notifying(before, codes[..i], now)
        invariant subscriptionCodesBySubfeedCode.Model() == index
      {
        assert codes[..i + 1][..i] == codes[..i];
        var s := incomingSubscriptions.Get(codes[i], now);
        if s.Some? {
          sent := sent + [s.value.node];
        }
      }
      assert codes[..|codes|] == codes;
    }

    method CheckRemove(node: string, feed: string, subfeed: string, now: int)
      requires Valid()
      modifies incomingSubscriptions
      ensures Valid() && Model() == Step(old(Model()), Stamped(now, RemovalTimer(node, feed, subfeed)))
    {
      var code := SubscriptionCode(node, feed, subfeed);
      var s := incomingSubscriptions.Get(code, now);
      if s.None? {
        return;
      }
      if now - s.value.lastRenew > SubscriptionMsec {
        incomingSubscriptions.Delete(code, now);
      }
    }
  }
}
