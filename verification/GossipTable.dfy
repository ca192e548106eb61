/** What a node knows about the others: for every remote node and channel the newest announcement, learnt by gossip in
    any order and forgotten two minutes after it was made. */
module GossipTable {
  import opened Wrappers

  const ExpiryMsec := 2 * 60 * 1000

  /** An announcement, with the identity whose key signed it. */
  datatype Info = Info(node: string, channel: string, timestamp: int, content: string, signer: string)

  /** A bootstrap node was configured by hand, with an address. */
  datatype Node = Node(bootstrapAddress: Option<string>, channels: map<string, Info>)

  type Table = map<string, Node>

  datatype Event =
    | Announce(info: Info)
    | SetBootstrap(node: string, address: string)
    | Prune

  datatype Stamped = Stamped(at: int, event: Event)

  datatype Refusal = InvalidSignature | OwnInfo

  // ---- The steps

  predicate Expired(info: Info, now: int) {
    now - info.timestamp > ExpiryMsec
  }

  /** Whether an announcement is considered at all. Expired ones are passed over before their signature is looked at. */
  predicate Counts(own: string, info: Info, now: int) {
    !Expired(info, now) && info.signer == info.node && info.node != own
  }

  /** An older announcement never replaces a newer one; of two equally old ones the later arrival stays. */
  function Newer(channels: map<string, Info>, info: Info): map<string, Info> {
    if info.channel in channels && channels[info.channel].timestamp > info.timestamp then channels
    else channels[info.channel := info]
  }

  function Announced(table: Table, info: Info): Table {
    var node := if info.node in table then table[info.node] else Node(None, map[]);
    table[info.node := node.(channels := Newer(node.channels, info))]
  }

  function PrunedChannels(channels: map<string, Info>, now: int): map<string, Info> {
    map c | c in channels && !Expired(channels[c], now) :: channels[c]
  }

  predicate Stays(node: Node, now: int) {
    node.bootstrapAddress.Some? || PrunedChannels(node.channels, now) != map[]
  }

  function Pruned(table: Table, now: int): Table {
    map n | n in table && Stays(table[n], now) :: table[n].(channels := PrunedChannels(table[n].channels, now))
  }

  /** Configuring a node under a new address forgets what was known about it. */
  predicate Replaces(table: Table, node: string, address: string) {
    node in table && table[node].bootstrapAddress != Some(address)
  }

  function Step(own: string, table: Table, e: Stamped): Table {
    match e.event
    case Announce(info) => if Counts(own, info, e.at) then Announced(table, info) else table
    case SetBootstrap(n, a) =>
      if n in table && !Replaces(table, n, a) then table else table[n := Node(Some(a), map[])]
    case Prune => Pruned(table, e.at)
  }

  function RunOf(own: string, history: seq<Stamped>): Table {
    if history == [] then map[] else Step(own, RunOf(own, history[..|history| - 1]), history[|history| - 1])
  }

  predicate ClockRunsForward(history: seq<Stamped>) {
    forall i, j :: 0 <= i < j < |history| ==> history[i].at <= history[j].at
  }

  function Find(table: Table, node: string, channel: string): Option<Info> {
    if node in table && channel in table[node].channels then Some(table[node].channels[channel]) else None
  }

  /** The announcements considered for a node and channel, in order of arrival, since the node was last replaced. */
  function Heard(own: string, history: seq<Stamped>, node: string, channel: string): seq<Info> {
    if history == [] then []
    else
      var init, last := history[..|history| - 1], history[|history| - 1];
      var before := Heard(own, init, node, channel);
      match last.event
      case Announce(info) =>
        if Counts(own, info, last.at) && info.node == node && info.channel == channel then before + [info] else before
      case SetBootstrap(n, a) => if n == node && Replaces(RunOf(own, init), n, a) then [] else before
      case Prune => before
  }

  // ---- The winner among the announcements heard

  /** The newest announcement, and of several equally new ones the last. */
  function Winner(heard: seq<Info>): Option<Info> {
    if heard == [] then None
    else
      var last := heard[|heard| - 1];
      match Winner(heard[..|heard| - 1])
      case Some(w) => if w.timestamp > last.timestamp then Some(w) else Some(last)
      case None => Some(last)
  }

  predicate Newest(info: Info, heard: seq<Info>) {
    info in heard && forall other :: other in heard ==> other.timestamp <= info.timestamp
  }

  lemma {:induction false} WinnerIsNewest(heard: seq<Info>)
    ensures Winner(heard).None? <==> heard == []
    ensures heard != [] ==> Newest(Winner(heard).value, heard)
    decreases |heard|
  {
    if heard != [] {
      var init := heard[..|heard| - 1];
      WinnerIsNewest(init);
      assert heard == init + [heard[|heard| - 1]];
    }
  }

  /** A newest announcement that arrives last wins. */
  lemma LastNewestWins(heard: seq<Info>, info: Info)
    requires Newest(info, heard)
    ensures Winner(heard + [info]) == Some(info)
  {
    WinnerIsNewest(heard);
    assert (heard + [info])[..|heard|] == heard;
  }

  ghost predicate SameAnnouncements(a: seq<Info>, b: seq<Info>) {
    forall info :: info in a <==> info in b
  }

  /** The time of the newest announcement does not depend on the order in which they arrive, nor on repetitions. */
  lemma WinnersAgreeOnTime(a: seq<Info>, b: seq<Info>)
    requires SameAnnouncements(a, b)
    ensures Winner(a).Some? <==> Winner(b).Some?
    ensures Winner(a).Some? ==> Winner(a).value.timestamp == Winner(b).value.timestamp
  {
    WinnerIsNewest(a);
    WinnerIsNewest(b);
    assert a != [] ==> a[0] in b;
    assert b != [] ==> b[0] in a;
  }

  ghost predicate OrderDoesNotMatter(heard: seq<Info>) {
    forall other :: SameAnnouncements(heard, other) ==> Winner(other) == Winner(heard)
  }

  predicate NoTie(heard: seq<Info>) {
    forall x, y :: x in heard && y in heard && Newest(x, heard) && Newest(y, heard) ==> x == y
  }

  lemma NewestOfSame(x: Info, a: seq<Info>, b: seq<Info>)
    requires SameAnnouncements(a, b) && Newest(x, a)
    ensures Newest(x, b)
  {}

  lemma NoTieConverges(heard: seq<Info>, other: seq<Info>)
    requires NoTie(heard) && SameAnnouncements(heard, other)
    ensures Winner(other) == Winner(heard)
  {
    WinnersAgreeOnTime(heard, other);
    WinnerIsNewest(heard);
    WinnerIsNewest(other);
    if heard != [] {
      NewestOfSame(Winner(other).value, other, heard);
    }
  }

  lemma TieDecides(heard: seq<Info>, x: Info)
    requires OrderDoesNotMatter(heard) && Newest(x, heard)
    ensures Winner(heard) == Some(x)
  {
    LastNewestWins(heard, x);
    assert SameAnnouncements(heard, heard + [x]);
  }

  /** Every order of arrival leads to the same content exactly if only one announcement is newest: with two different
      ones of the same time, the order decides. */
  lemma ContentConvergesIff(heard: seq<Info>)
    ensures OrderDoesNotMatter(heard) <==> NoTie(heard)
  {
    if NoTie(heard) {
      forall other | SameAnnouncements(heard, other) ensures Winner(other) == Winner(heard) {
        NoTieConverges(heard, other);
      }
    }
    if OrderDoesNotMatter(heard) {
      forall x | Newest(x, heard) ensures Winner(heard) == Some(x) {
        TieDecides(heard, x);
      }
    }
  }

  // ---- The invariant

  /** The entry is the winner; it is missing only if the winner has expired, and with it everything heard. */
  predicate Faithful(entry: Option<Info>, heard: seq<Info>, now: int) {
    match entry
    case Some(info) => Winner(heard) == Some(info)
    case None => forall info :: info in heard ==> Expired(info, now)
  }

  function Clock(history: seq<Stamped>): int
    requires history != []
  {
    history[|history| - 1].at
  }

  lemma AnnouncedFind(table: Table, info: Info, node: string, channel: string)
    ensures Find(Announced(table, info), node, channel) ==
            if (node, channel) != (info.node, info.channel) then Find(table, node, channel)
            else match Find(table, node, channel)
                 case Some(old_) => if old_.timestamp > info.timestamp then Some(old_) else Some(info)
                 case None => Some(info)
  {}

  lemma PrunedFind(table: Table, now: int, node: string, channel: string)
    ensures Find(Pruned(table, now), node, channel) ==
            match Find(table, node, channel)
            case Some(info) => if Expired(info, now) then None else Some(info)
            case None => None
  {
    if node in table {
      var kept := PrunedChannels(table[node].channels, now);
      assert channel in kept ==> kept != map[];
    }
  }

  lemma AnnouncedFaithful(entry: Option<Info>, heard: seq<Info>, info: Info, now: int)
    requires Faithful(entry, heard, now) && !Expired(info, now)
    ensures Faithful(match entry
                     case Some(old_) => if old_.timestamp > info.timestamp then Some(old_) else Some(info)
                     case None => Some(info), heard + [info], now)
  {
    WinnerIsNewest(heard);
    assert (heard + [info])[..|heard|] == heard;
  }

  lemma StepFaithful(own: string, history: seq<Stamped>, e: Stamped, node: string, channel: string)
    requires Faithful(Find(RunOf(own, history), node, channel), Heard(own, history, node, channel), e.at)
    ensures Faithful(Find(RunOf(own, history + [e]), node, channel), Heard(own, history + [e], node, channel), e.at)
  {
    var table := RunOf(own, history);
    var heard := Heard(own, history, node, channel);
    assert (history + [e])[..|history + [e]| - 1] == history;
    match e.event
    case Announce(info) =>
      AnnouncedFind(table, info, node, channel);
      if Counts(own, info, e.at) { AnnouncedFaithful(Find(table, node, channel), heard, info, e.at); }
    case SetBootstrap(_, _) =>
    case Prune =>
      PrunedFind(table, e.at, node, channel);
      WinnerIsNewest(heard);
  }

  /** In every run, for every node and channel, the entry is the newest announcement heard, unless everything heard has
      expired. */
  lemma {:induction false} EntryIsNewestHeard(own: string, history: seq<Stamped>, node: string, channel: string)
    requires ClockRunsForward(history) && history != []
    ensures Faithful(Find(RunOf(own, history), node, channel), Heard(own, history, node, channel), Clock(history))
    decreases |history|
  {
    var init, e := history[..|history| - 1], history[|history| - 1];
    assert history == init + [e];
    if init != [] {
      EntryIsNewestHeard(own, init, node, channel);
      assert Clock(init) == history[|history| - 2].at;
    }
    StepFaithful(own, init, e, node, channel);
  }

  /** After pruning, an entry is there exactly if something heard has not expired, and it is the newest. */
  lemma PrunedEntryIff(own: string, history: seq<Stamped>, node: string, channel: string)
    requires ClockRunsForward(history) && history != [] && history[|history| - 1].event.Prune?
    ensures var heard := Heard(own, history, node, channel);
            var entry := Find(RunOf(own, history), node, channel);
            && (entry.Some? <==> exists info :: info in heard && !Expired(info, Clock(history)))
            && (entry.Some? ==> entry == Winner(heard))
  {
    EntryIsNewestHeard(own, history, node, channel);
    PrunedFind(RunOf(own, history[..|history| - 1]), Clock(history), node, channel);
    WinnerIsNewest(Heard(own, history, node, channel));
  }

  /** Two nodes that heard the same announcements, in any order and number and with any prunings between, and then
      prune at the same time, know the same nodes and channels as of the same times. */
  lemma TablesConverge(ownA: string, a: seq<Stamped>, ownB: string, b: seq<Stamped>, node: string, channel: string)
    requires ClockRunsForward(a) && ClockRunsForward(b) && a != [] && b != []
    requires a[|a| - 1] == b[|b| - 1] && a[|a| - 1].event.Prune?
    requires SameAnnouncements(Heard(ownA, a, node, channel), Heard(ownB, b, node, channel))
    ensures var inA, inB := Find(RunOf(ownA, a), node, channel), Find(RunOf(ownB, b), node, channel);
            && (inA.Some? <==> inB.Some?)
            && (inA.Some? ==> inA.value.timestamp == inB.value.timestamp)
  {
    PrunedEntryIff(ownA, a, node, channel);
    PrunedEntryIff(ownB, b, node, channel);
    WinnersAgreeOnTime(Heard(ownA, a, node, channel), Heard(ownB, b, node, channel));
  }

  // ---- What each event does to the entry of a node and channel

  /** An announcement that its own node signed, at most two minutes old and not about the node itself, becomes the entry
      unless a newer one is there. No other entry changes. */
  lemma AnnouncementIsHeard(own: string, history: seq<Stamped>, info: Info, at: int, node: string, channel: string)
    requires at - info.timestamp <= 120000 && info.signer == info.node && info.node != own
    ensures var before := Find(RunOf(own, history), node, channel);
            var after := Find(RunOf(own, history + [Stamped(at, Announce(info))]), node, channel);
            && (node != info.node || channel != info.channel ==> after == before)
            && (node == info.node && channel == info.channel ==>
                  && (before.None? || before.value.timestamp <= info.timestamp ==> after == Some(info))
                  && (before.Some? && before.value.timestamp > info.timestamp ==> after == before))
  {
    assert (history + [Stamped(at, Announce(info))])[..|history|] == history;
    AnnouncedFind(RunOf(own, history), info, node, channel);
  }

  /** Any other announcement leaves the whole table as it was. */
  lemma OthersAreIgnored(own: string, history: seq<Stamped>, info: Info, at: int)
    requires at - info.timestamp > 120000 || info.signer != info.node || info.node == own
    ensures RunOf(own, history + [Stamped(at, Announce(info))]) == RunOf(own, history)
  {
    assert (history + [Stamped(at, Announce(info))])[..|history|] == history;
  }

  /** Pruning forgets the entries more than two minutes old, and the nodes left with neither an entry nor an address. */
  lemma PruneForgets(own: string, history: seq<Stamped>, at: int, node: string, channel: string)
    ensures var before, after := RunOf(own, history), RunOf(own, history + [Stamped(at, Prune)]);
            var entry := Find(before, node, channel);
            && Find(after, node, channel) == (if entry.Some? && at - entry.value.timestamp <= 120000 then entry else None)
            && (node in before && before[node].bootstrapAddress.Some? ==>
                  node in after && after[node].bootstrapAddress == before[node].bootstrapAddress)
            && (node in after ==> node in before && (before[node].bootstrapAddress.Some? || after[node].channels != map[]))
  {
    assert (history + [Stamped(at, Prune)])[..|history|] == history;
    PrunedFind(RunOf(own, history), at, node, channel);
  }

  /** Configuring a node lists it under that address; what was known about it stays exactly if it already had it. */
  lemma ConfiguringLists(own: string, history: seq<Stamped>, at: int, configured: string, address: string, node: string, channel: string)
    ensures var before, after := RunOf(own, history), RunOf(own, history + [Stamped(at, SetBootstrap(configured, address))]);
            && configured in after && after[configured].bootstrapAddress == Some(address)
            && (node != configured ==> Find(after, node, channel) == Find(before, node, channel))
            && (configured in before && before[configured].bootstrapAddress == Some(address) ==>
                  Find(after, configured, channel) == Find(before, configured, channel))
            && (configured in before && before[configured].bootstrapAddress != Some(address) ==>
                  Find(after, configured, channel).None?)
  {
    assert (history + [Stamped(at, SetBootstrap(configured, address))])[..|history|] == history;
  }

  /** Some event of the history announced this, within two minutes of its time. */
  predicate AnnouncedInTime(history: seq<Stamped>, info: Info) {
    exists k :: 0 <= k < |history| && history[k].event == Announce(info) && history[k].at - info.timestamp <= 120000
  }

  lemma AnnouncedInTimeStays(history: seq<Stamped>, e: Stamped, info: Info)
    ensures AnnouncedInTime(history, info) ==> AnnouncedInTime(history + [e], info)
    ensures e.event == Announce(info) && e.at - info.timestamp <= 120000 ==> AnnouncedInTime(history + [e], info)
  {
    if AnnouncedInTime(history, info) {
      var k :| 0 <= k < |history| && history[k].event == Announce(info) && history[k].at - info.timestamp <= 120000;
      assert (history + [e])[k] == history[k];
    }
    assert (history + [e])[|history|] == e;
  }

  /** In every run, every entry is an announcement that was received in time, about the node and channel it is kept for,
      signed by that node, which is not the own one. */
  lemma {:induction false} EntriesAreAuthentic(own: string, history: seq<Stamped>, node: string, channel: string)
    ensures var entry := Find(RunOf(own, history), node, channel);
            entry.Some? ==>
              var info := entry.value;
              && info.node == node && info.signer == node && node != own && info.channel == channel
              && AnnouncedInTime(history, info)
    decreases |history|
  {
    if history != [] {
      var init, e := history[..|history| - 1], history[|history| - 1];
      assert history == init + [e];
      EntriesAreAuthentic(own, init, node, channel);
      var before, after := Find(RunOf(own, init), node, channel), Find(RunOf(own, history), node, channel);
      if before.Some? { AnnouncedInTimeStays(init, e, before.value); }
      match e.event
      case Announce(info) =>
        AnnouncedInTimeStays(init, e, info);
        if Counts(own, info, e.at) { AnnouncementIsHeard(own, init, info, e.at, node, channel); }
      case SetBootstrap(n, a) => ConfiguringLists(own, init, e.at, n, a, node, channel);
      case Prune => PruneForgets(own, init, e.at, node, channel);
    }
  }

  /** A node that was not configured by hand is listed only while some entry of it is. */
  predicate NoIdleNodes(table: Table) {
    forall n :: n in table ==> table[n].bootstrapAddress.Some? || table[n].channels != map[]
  }

  lemma {:induction false} ListedNodesHaveEntries(own: string, history: seq<Stamped>)
    ensures NoIdleNodes(RunOf(own, history)) && (own in RunOf(own, history) ==> RunOf(own, history)[own].channels == map[])
    decreases |history|
  {
    if history != [] {
      var init, e := history[..|history| - 1], history[|history| - 1];
      ListedNodesHaveEntries(own, init);
      var table := RunOf(own, init);
      if e.event.Announce? {
        var info := e.event.info;
        var node := if info.node in table then table[info.node] else Node(None, map[]);
        assert info.channel in Newer(node.channels, info);
      }
    }
  }

  // ---- The objects

  class RemoteNode {
    const remoteNodeId: string
    const bootstrapAddress: Option<string>
    var channelNodeInfoByChannel: map<string, Info>

    ghost function Model(): Node
      reads this
    {
      Node(bootstrapAddress, channelNodeInfoByChannel)
    }

    constructor (remoteNodeId: string, bootstrapAddress: Option<string>)
      ensures Model() == Node(bootstrapAddress, map[]) && this.remoteNodeId == remoteNodeId
    {
      this.remoteNodeId, this.bootstrapAddress := remoteNodeId, bootstrapAddress;
      channelNodeInfoByChannel := map[];
    }

    method SetChannelNodeInfoIfMoreRecent(channel: string, info: Info, now: int)
      requires channel == info.channel
      modifies this
      ensures Model() == if Expired(info, now) then old(Model()) else old(Model()).(channels := Newer(old(Model()).channels, info))
    {
      if Expired(info, now) {
        return;
      }
      if channel in channelNodeInfoByChannel {
        if channelNodeInfoByChannel[channel].timestamp > info.timestamp {
          return;
        }
      }
      channelNodeInfoByChannel := channelNodeInfoByChannel[channel := info];
    }

    method PruneChannelNodeInfos(now: int)
      modifies this
      ensures Model() == old(Model()).(channels := PrunedChannels(old(Model()).channels, now))
    {
      var remaining := channelNodeInfoByChannel.Keys;
      while remaining != {}
        invariant remaining <= channelNodeInfoByChannel.Keys
        invariant forall c :: c in channelNodeInfoByChannel <==>
                    c in old(channelNodeInfoByChannel) && (c in remaining || !Expired(old(channelNodeInfoByChannel)[c], now))
        invariant forall c :: c in channelNodeInfoByChannel ==> channelNodeInfoByChannel[c] == old(channelNodeInfoByChannel)[c]
        decreases |remaining|
      {
        var c :| c in remaining;
        remaining := remaining - {c};
        if Expired(channelNodeInfoByChannel[c], now) {
          channelNodeInfoByChannel := channelNodeInfoByChannel - {c};
        }
      }
    }
  }

  /** Listing an unknown node first makes no difference to what its announcement does. */
  lemma AnnouncedNew(table: Table, info: Info)
    requires info.node !in table
    ensures Announced(table[info.node := Node(None, map[])], info) == Announced(table, info)
  {
  }

  /** What pruning one node does to the table. */
  function PrunedOne(table: Table, n: string, now: int): Table {
    if n in table && !Stays(table[n], now) then table - {n} else WithPruned(table, n, now)
  }

  function WithPruned(table: Table, n: string, now: int): Table {
    if n in table then table[n := table[n].(channels := PrunedChannels(table[n].channels, now))] else table
  }

  /** A table of which some nodes have been pruned, and the remaining ones not. */
  predicate HalfPruned(was: Table, table: Table, remaining: set<string>, now: int) {
    && (forall n :: n in remaining ==> n in was && n in table && table[n] == was[n])
    && (forall n :: n in was && n !in remaining ==>
          (n in table <==> Stays(was[n], now))
          && (n in table ==> table[n] == was[n].(channels := PrunedChannels(was[n].channels, now))))
    && (forall n :: n in table ==> n in was)
  }

  lemma PrunedOneMore(was: Table, table: Table, remaining: set<string>, n: string, now: int)
    requires HalfPruned(was, table, remaining, now) && n in remaining
    ensures HalfPruned(was, PrunedOne(table, n, now), remaining - {n}, now)
  {
  }

  lemma PrunedAll(was: Table, table: Table, now: int)
    requires HalfPruned(was, table, {}, now)
    ensures table == Pruned(was, now)
  {
  }

  class RemoteNodeManager {
    const nodeId: string
    var remoteNodes: map<string, RemoteNode>

    ghost predicate Valid()
      reads this
    {
      forall n :: n in remoteNodes ==> remoteNodes[n].remoteNodeId == n
    }

    ghost function Model(): Table
      reads this, remoteNodes.Values
    {
      map n | n in remoteNodes :: remoteNodes[n].Model()
    }

    constructor (nodeId: string)
      ensures Valid() && Model() == map[] && this.nodeId == nodeId
    {
      this.nodeId := nodeId;
      remoteNodes := map[];
    }

    /** Whether the callbacks for a new channel are called. */
    method SetChannelNodeInfo(info: Info, now: int) returns (newChannel: Result<bool, Refusal>)
      requires Valid()
      modifies this, remoteNodes.Values
      ensures Valid() && Model() == Step(nodeId, old(Model()), Stamped(now, Announce(info)))
      ensures newChannel == if Expired(info, now) then Ok(false)
                            else if info.signer != info.node then Err(InvalidSignature)
                            else if info.node == nodeId then Err(OwnInfo)
                            else Ok(Find(old(Model()), info.node, info.channel).None?)
    {
      if Expired(info, now) {
        return Ok(false);
      }
      if info.signer != info.node {
        return Err(InvalidSignature);
      }
      if info.node == nodeId {
        return Err(OwnInfo);
      }
      var joined := HasJoined(info.node, info.channel);
      Accept(info, now);
      newChannel := Ok(!joined);
    }

    method HasJoined(node: string, channel: string) returns (joined: bool)
      requires Valid()
      ensures joined <==> Find(Model(), node, channel).Some?
    {
      joined := node in remoteNodes && channel in remoteNodes[node].channelNodeInfoByChannel;
    }

    method Accept(info: Info, now: int)
      requires Valid() && !Expired(info, now)
      modifies this, remoteNodes.Values
      ensures Valid() && Model() == Announced(old(Model()), info)
    {
      if info.node !in remoteNodes {
        AnnouncedNew(Model(), info);
        AddNode(info.node, None);
      }
      Record(info, now);
    }

    method AddNode(remoteNodeId: string, bootstrapAddress: Option<string>)
      requires Valid()
      modifies this`remoteNodes
      ensures Valid() && Model() == old(Model())[remoteNodeId := Node(bootstrapAddress, map[])]
      ensures remoteNodes.Keys == old(remoteNodes.Keys) + {remoteNodeId} && fresh(remoteNodes[remoteNodeId])
    {
      var created := new RemoteNode(remoteNodeId, bootstrapAddress);
      remoteNodes := remoteNodes[remoteNodeId := created];
    }

    method Record(info: Info, now: int)
      requires Valid() && info.node in remoteNodes && !Expired(info, now)
      modifies remoteNodes[info.node]
      ensures Valid() && Model() == Announced(old(Model()), info)
    {
      remoteNodes[info.node].SetChannelNodeInfoIfMoreRecent(info.channel, info, now);
    }

    method SetBootstrapNode(remoteNodeId: string, address: string, now: int)
      requires Valid()
      modifies this
      ensures Valid() && Model() == Step(nodeId, old(Model()), Stamped(now, SetBootstrap(remoteNodeId, address)))
    {
      ghost var was := Model();
      if remoteNodeId in remoteNodes && remoteNodes[remoteNodeId].bootstrapAddress != Some(address) {
        DeleteNode(remoteNodeId);
      }
      if remoteNodeId !in remoteNodes {
        AddNode(remoteNodeId, Some(address));
        assert Model() == was[remoteNodeId := Node(Some(address), map[])];
      }
    }

    method DeleteNode(remoteNodeId: string)
      requires Valid()
      modifies this`remoteNodes
      ensures Valid() && Model() == old(Model()) - {remoteNodeId}
      ensures remoteNodes == old(remoteNodes) - {remoteNodeId}
    {
      remoteNodes := remoteNodes - {remoteNodeId};
    }

    method PruneRemoteNodes(now: int)
      requires Valid()
      modifies this, remoteNodes.Values
      ensures Valid() && Model() == Step(nodeId, old(Model()), Stamped(now, Prune))
    {
      ghost var was, objects := Model(), remoteNodes.Values;
      var remaining := remoteNodes.Keys;
      while remaining != {}
        invariant Valid() && remoteNodes.Values <= objects && HalfPruned(was, Model(), remaining, now)
        decreases |remaining|
      {
        var n :| n in remaining;
        PrunedOneMore(was, Model(), remaining, n, now);
        PruneRemoteNode(n, now);
        remaining := remaining - {n};
      }
      PrunedAll(was, Model(), now);
    }

    method PruneRemoteNode(n: string, now: int)
      requires Valid() && n in remoteNodes
      modifies this`remoteNodes, remoteNodes[n]
      ensures Valid() && Model() == PrunedOne(old(Model()), n, now) && remoteNodes.Values <= old(remoteNodes.Values)
    {
      PruneChannels(n, now);
      var rn := remoteNodes[n];
      if rn.bootstrapAddress.None? && rn.channelNodeInfoByChannel == map[] {
        DeleteNode(n);
      }
    }

    method PruneChannels(n: string, now: int)
      requires Valid() && n in remoteNodes
      modifies remoteNodes[n]
      ensures Valid() && Model() == WithPruned(old(Model()), n, now)
    {
      remoteNodes[n].PruneChannelNodeInfos(now);
    }
  }
}
