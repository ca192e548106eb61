/** The replicated log: any number of nodes, each with one database and any number of in-memory instances of the same
  subfeed, interleaved at their awaits.

  An instance dropped from the instance cache is still held by its callers, so instances only disappear when their
  node crashes or their own initialization fails. */
module FeedSystem {
  import opened Wrappers
  import opened SignedChain
  import opened LocalFeedsDatabase
  import opened Subfeeds

  type NodeId = nat
  type InstanceId = nat
  type Log = seq<SignedMessage>

  /** Where an instance is in an append: idle, waiting for the database, resumed with a committed batch, or left with
      its appending flag set by a failed transaction. */
  datatype Phase = Idle | Waiting(batch: Log) | Committed(batch: Log) | Stuck

  /** `loaded` holds the stored messages between reading them and checking them. */
  datatype Instance = Instance(loaded: Option<Log>, memory: Option<Log>, phase: Phase)

  /** `commits` is history: the batches the database has committed, in order. */
  datatype NodeState = NodeState(rows: Rows, commits: seq<Log>, instances: map<InstanceId, Instance>)

  /** `served` is history: every message some instance has handed out. */
  datatype System = System(nodes: map<NodeId, NodeState>, served: set<SignedMessage>)

  datatype Config = Config(key: PublicKey, writer: NodeId)

  datatype Event =
    | Open(node: NodeId, instance: InstanceId)
    | Read(node: NodeId, instance: InstanceId)
    | FinishLoad(node: NodeId, instance: InstanceId)
    | LoadEmpty(node: NodeId, instance: InstanceId)
    | AppendOwn(node: NodeId, instance: InstanceId, drafts: seq<Draft>)
    | AppendReceived(node: NodeId, instance: InstanceId, batch: Log)
    | Commit(node: NodeId, instance: InstanceId)
    | Push(node: NodeId, instance: InstanceId)
    | Serve(node: NodeId, instance: InstanceId, position: nat, numMessages: nat)
    | Crash(node: NodeId)

  function Init(nodes: set<NodeId>): System {
    System(map n | n in nodes :: NodeState(map[], [], map[]), {})
  }

  predicate Running(s: System, node: NodeId, instance: InstanceId) {
    node in s.nodes && instance in s.nodes[node].instances
  }

  function SetNode(s: System, node: NodeId, n: NodeState): System {
    s.(nodes := s.nodes[node := n])
  }

  function SetInstance(n: NodeState, instance: InstanceId, i: Instance): NodeState {
    n.(instances := n.instances[instance := i])
  }

  /** Only the writer's node holds the secret key. */
  function SecretAt(node: NodeId, c: Config): Option<PublicKey> {
    if node == c.writer then Some(c.key) else None
  }

  function Begin(i: Instance, outcome: AppendOutcome): Instance {
    if outcome.Submitted? then i.(phase := Waiting(outcome.batch)) else i
  }

  function StepInstance(n: NodeState, i: Instance, e: Event, c: Config): NodeState
    requires !e.Open? && !e.Crash?
  {
    match e
    case Read(_, id) =>
      if i.memory.Some? || i.loaded.Some? then n
      else (match ReadRows(n.rows)
            case Ok(log) => SetInstance(n, id, i.(loaded := Some(log)))
            case Err(_) => n.(instances := n.instances - {id}))
    case FinishLoad(_, id) =>
      if i.loaded.None? then n
      else if CheckBatch(i.loaded.value, None, 0, c.key).Ok?
      then SetInstance(n, id, i.(loaded := None, memory := i.loaded))
      else n.(instances := n.instances - {id})
    case LoadEmpty(_, id) =>
      if i.memory.Some? || i.loaded.Some? then n else SetInstance(n, id, i.(memory := Some([])))
    case AppendOwn(node, id, drafts) =>
      SetInstance(n, id, Begin(i, StartAppendOwn(i.memory, !i.phase.Idle?, drafts, SecretAt(node, c), c.key)))
    case AppendReceived(_, id, batch) =>
      SetInstance(n, id, Begin(i, StartAppend(i.memory, !i.phase.Idle?, batch, c.key)))
    case Commit(_, id) =>
      if !i.phase.Waiting? then n
      else
        var (ok, rows) := CommitBatch(n.rows, i.phase.batch);
        if ok
        then SetInstance(n.(rows := rows, commits := n.commits + [i.phase.batch]), id, i.(phase := Phase.Committed(i.phase.batch)))
        else SetInstance(n, id, i.(phase := Stuck))
    case Push(_, id) =>
      if !i.phase.Committed? || i.memory.None? then n
      else SetInstance(n, id, i.(memory := Some(i.memory.value + i.phase.batch), phase := Idle))
    case Serve(_, _, _, _) => n
  }

  /** A peer can send anything, but a message that verifies under the feed's key was handed out before. */
  predicate Possible(s: System, e: Event, c: Config) {
    e.AppendReceived? ==> forall m :: m in e.batch && Verify(m, c.key) ==> m in s.served
  }

  function Step(s: System, e: Event, c: Config): System {
    if e.node !in s.nodes || !Possible(s, e, c) then s
    else
      var n := s.nodes[e.node];
      if e.Crash? then SetNode(s, e.node, n.(instances := map[]))
      else if e.Open? then
        if e.instance in n.instances then s
        else SetNode(s, e.node, SetInstance(n, e.instance, Instance(None, None, Idle)))
      else if e.instance !in n.instances then s
      else
        var i := n.instances[e.instance];
        var t := SetNode(s, e.node, StepInstance(n, i, e, c));
        if e.Serve? && LocalMessages(i.memory, e.position, e.numMessages).Ok?
        then t.(served := s.served + (set m | m in LocalMessages(i.memory, e.position, e.numMessages).value))
        else t
  }

  function Run(s: System, events: seq<Event>, c: Config): System {
    if events == [] then s else Step(Run(s, events[..|events| - 1], c), events[|events| - 1], c)
  }

  // ---- Committed batches

  function Flatten(batches: seq<Log>): Log {
    if batches == [] then [] else Flatten(batches[..|batches| - 1]) + batches[|batches| - 1]
  }

  lemma {:induction false} FlattenPrefix(batches: seq<Log>, k: nat)
    requires k <= |batches|
    ensures Flatten(batches[..k]) <= Flatten(batches)
    decreases |batches|
  {
    if k < |batches| {
      FlattenPrefix(batches[..|batches| - 1], k);
      assert batches[..|batches| - 1][..k] == batches[..k];
    } else {
      assert batches[..k] == batches;
    }
  }

  /** A log made of whole committed batches. */
  ghost predicate AtBoundary(log: Log, commits: seq<Log>) {
    exists k :: 0 <= k <= |commits| && BoundaryAt(log, commits, k)
  }

  predicate BoundaryAt(log: Log, commits: seq<Log>, k: nat)
    requires k <= |commits|
  {
    log == Flatten(commits[..k])
  }

  lemma BoundaryIsPrefix(log: Log, commits: seq<Log>)
    requires AtBoundary(log, commits)
    ensures log <= Flatten(commits)
  {
    var k :| 0 <= k <= |commits| && BoundaryAt(log, commits, k);
    FlattenPrefix(commits, k);
  }

  lemma BoundaryStays(log: Log, commits: seq<Log>, more: seq<Log>)
    requires AtBoundary(log, commits)
    ensures AtBoundary(log, commits + more)
  {
    var k :| 0 <= k <= |commits| && BoundaryAt(log, commits, k);
    assert (commits + more)[..k] == commits[..k];
    assert BoundaryAt(log, commits + more, k);
  }

  lemma WholeLogIsBoundary(commits: seq<Log>)
    ensures AtBoundary(Flatten(commits), commits)
  {
    assert commits[..|commits|] == commits;
    assert BoundaryAt(Flatten(commits), commits, |commits|);
  }

  // ---- The invariant

  function StoredLog(n: NodeState): Log {
    Flatten(n.commits)
  }

  function WriterLog(s: System, c: Config): Log
    requires c.writer in s.nodes
  {
    StoredLog(s.nodes[c.writer])
  }

  ghost predicate InstanceInv(i: Instance, n: NodeState, isWriter: bool, writerLog: Log, key: PublicKey) {
    && (i.loaded.Some? ==> i.memory.None? && AtBoundary(i.loaded.value, n.commits))
    && (i.memory.Some? ==> AtBoundary(i.memory.value, n.commits))
    && (i.phase.Waiting? ==>
          && i.memory.Some? && i.phase.batch != [] && Chained(i.memory.value + i.phase.batch, key)
          && (!isWriter ==> i.memory.value + i.phase.batch <= writerLog))
    && (i.phase.Committed? ==> i.memory.Some? && AtBoundary(i.memory.value + i.phase.batch, n.commits))
  }

  ghost predicate NodeInv(n: NodeState, isWriter: bool, writerLog: Log, key: PublicKey) {
    && ReadRows(n.rows) == Ok(StoredLog(n))
    && StoredLog(n) <= writerLog
    && forall id :: id in n.instances ==> InstanceInv(n.instances[id], n, isWriter, writerLog, key)
  }

  ghost predicate Inv(s: System, c: Config) {
    && c.writer in s.nodes
    && Chained(WriterLog(s, c), c.key)
    && (forall n :: n in s.nodes ==> NodeInv(s.nodes[n], n == c.writer, WriterLog(s, c), c.key))
    && (forall m :: m in s.served ==> m in WriterLog(s, c))
  }

  lemma InitInv(nodes: set<NodeId>, c: Config)
    requires c.writer in nodes
    ensures Inv(Init(nodes), c)
  {
    var empty: Rows := map[];
    assert ReadRows(empty).value == [];
  }

  lemma PrefixChained(log: Log, whole: Log, key: PublicKey)
    requires Chained(whole, key) && log <= whole
    ensures Chained(log, key)
  {
    PrefixOfChained(whole, |log|, key);
    assert whole[..|log|] == log;
  }

  /** Growing the writer's log and the node's commits keeps what holds of an instance. */
  lemma InstanceInvGrows(i: Instance, n: NodeState, m: NodeState, isWriter: bool, w: Log, x: Log, more: seq<Log>, key: PublicKey)
    requires InstanceInv(i, n, isWriter, w, key) && w <= x && m.commits == n.commits + more
    ensures InstanceInv(i, m, isWriter, x, key)
  {
    if i.loaded.Some? { BoundaryStays(i.loaded.value, n.commits, more); }
    if i.memory.Some? { BoundaryStays(i.memory.value, n.commits, more); }
    if i.phase.Committed? { BoundaryStays(i.memory.value + i.phase.batch, n.commits, more); }
  }

  /** A batch that verifies message by message and continues memory inside what the writer has handed out is a stretch
      of the writer's log. */
  lemma ReceivedContinuesWriter(memory: Log, batch: Log, writerLog: Log, key: PublicKey)
    requires Chained(writerLog, key) && Chained(memory + batch, key) && memory <= writerLog
    requires forall m :: m in batch ==> m in writerLog
    ensures memory + batch <= writerLog
  {
    var whole := memory + batch;
    forall i | |memory| <= i < |whole| ensures i < |writerLog| && whole[i] == writerLog[i] {
      assert Linked(whole, i, key) && whole[i] in batch;
      var k :| 0 <= k < |writerLog| && writerLog[k] == whole[i];
      assert Linked(writerLog, k, key);
    }
    if batch != [] { assert whole[|whole| - 1] in batch; }
  }

  /** A transaction of a waiting instance succeeds exactly when its memory is the whole stored log; then the log grows
      by the batch, and otherwise nothing changes. */
  lemma CommitCases(n: NodeState, i: Instance, isWriter: bool, w: Log, key: PublicKey)
    requires NodeInv(n, isWriter, w, key) && InstanceInv(i, n, isWriter, w, key) && i.phase.Waiting?
    ensures var (ok, rows) := CommitBatch(n.rows, i.phase.batch);
            && ReadRows(rows) == Ok(if ok then StoredLog(n) + i.phase.batch else StoredLog(n))
            && (ok <==> i.memory.value == StoredLog(n))
            && (!ok ==> rows == n.rows)
  {
    var memory, batch := i.memory.value, i.phase.batch;
    BoundaryIsPrefix(memory, n.commits);
    forall k | 0 <= k < |batch| ensures batch[k].body.messageNumber == |memory| + k {
      assert Linked(memory + batch, |memory| + k, key);
    }
    CommitAppendsOrRefuses(n.rows, StoredLog(n), batch, |memory|);
  }

  lemma FlattenAppend(commits: seq<Log>, batch: Log)
    ensures Flatten(commits + [batch]) == Flatten(commits) + batch
  {
    assert (commits + [batch])[..|commits|] == commits;
  }

  // ---- Every event keeps the invariant

  /** An event that leaves a node's table alone keeps the invariant if it keeps it for the instance it touches. */
  lemma InstanceStepInv(s: System, node: NodeId, n: NodeState, served: set<SignedMessage>, c: Config)
    requires Inv(s, c) && node in s.nodes
    requires n.rows == s.nodes[node].rows && n.commits == s.nodes[node].commits
    requires forall id :: id in n.instances ==> InstanceInv(n.instances[id], n, node == c.writer, WriterLog(s, c), c.key)
    requires forall m :: m in served ==> m in WriterLog(s, c)
    ensures Inv(System(s.nodes[node := n], served), c)
    ensures WriterLog(System(s.nodes[node := n], served), c) == WriterLog(s, c)
  {
  }

  /** A node keeps its invariant when only the writer's log grows. */
  lemma NodeInvGrows(n: NodeState, isWriter: bool, w: Log, x: Log, key: PublicKey)
    requires NodeInv(n, isWriter, w, key) && w <= x
    ensures NodeInv(n, isWriter, x, key)
  {
    forall id | id in n.instances ensures InstanceInv(n.instances[id], n, isWriter, x, key) {
      assert n.commits + [] == n.commits;
      InstanceInvGrows(n.instances[id], n, n, isWriter, w, x, [], key);
    }
  }

  /** A node keeps its invariant when one of its instances, holding the whole stored log, commits its batch. */
  lemma CommittedNodeInv(n: NodeState, m: NodeState, id: InstanceId, isWriter: bool, w: Log, x: Log, key: PublicKey)
    requires NodeInv(n, isWriter, w, key) && w <= x
    requires id in n.instances && n.instances[id].phase.Waiting? && n.instances[id].memory == Some(StoredLog(n))
    requires var i := n.instances[id];
             && m.commits == n.commits + [i.phase.batch]
             && m.instances == n.instances[id := i.(phase := Phase.Committed(i.phase.batch))]
             && ReadRows(m.rows) == Ok(StoredLog(n) + i.phase.batch) && StoredLog(n) + i.phase.batch <= x
    ensures NodeInv(m, isWriter, x, key)
  {
    var i := n.instances[id];
    FlattenAppend(n.commits, i.phase.batch);
    WholeLogIsBoundary(m.commits);
    forall other | other in m.instances ensures InstanceInv(m.instances[other], m, isWriter, x, key) {
      if other != id { InstanceInvGrows(n.instances[other], n, m, isWriter, w, x, [i.phase.batch], key); }
      else {
        BoundaryStays(i.memory.value, n.commits, [i.phase.batch]);
        if i.loaded.Some? { BoundaryStays(i.loaded.value, n.commits, [i.phase.batch]); }
      }
    }
  }

  /** One node commits, and what the others hold stays inside the writer's log. */
  lemma CommitStepInv(s: System, node: NodeId, m: NodeState, x: Log, c: Config)
    requires Inv(s, c) && node in s.nodes && WriterLog(s, c) <= x
    requires NodeInv(m, node == c.writer, x, c.key) && Chained(x, c.key)
    requires x == if node == c.writer then StoredLog(m) else WriterLog(s, c)
    ensures Inv(SetNode(s, node, m), c) && WriterLog(SetNode(s, node, m), c) == x
  {
    forall other | other in s.nodes && other != node ensures NodeInv(s.nodes[other], other == c.writer, x, c.key) {
      NodeInvGrows(s.nodes[other], other == c.writer, WriterLog(s, c), x, c.key);
    }
  }

  lemma CommitInv(s: System, e: Event, c: Config)
    requires Inv(s, c) && e.Commit? && Running(s, e.node, e.instance)
    ensures Inv(Step(s, e, c), c)
    ensures WriterLog(s, c) <= WriterLog(Step(s, e, c), c)
  {
    var n := s.nodes[e.node];
    var i := n.instances[e.instance];
    var m := StepInstance(n, i, e, c);
    var w := WriterLog(s, c);
    assert Step(s, e, c) == SetNode(s, e.node, m);
    if i.phase.Waiting? && CommitBatch(n.rows, i.phase.batch).0 {
      CommitCases(n, i, e.node == c.writer, w, c.key);
      FlattenAppend(n.commits, i.phase.batch);
      var x := if e.node == c.writer then w + i.phase.batch else w;
      CommittedNodeInv(n, m, e.instance, e.node == c.writer, w, x, c.key);
      CommitStepInv(s, e.node, m, x, c);
    } else {
      if i.phase.Waiting? { CommitCases(n, i, e.node == c.writer, w, c.key); }
      InstanceStepInv(s, e.node, m, s.served, c);
    }
  }

  /** An instance that begins an append waits with a batch that continues the writer's log. */
  lemma BegunInstanceInv(n: NodeState, i: Instance, e: Event, served: set<SignedMessage>, w: Log, c: Config)
    requires NodeInv(n, e.node == c.writer, w, c.key) && InstanceInv(i, n, e.node == c.writer, w, c.key) && Chained(w, c.key)
    requires e.AppendOwn? || (e.AppendReceived? && forall m :: m in e.batch && Verify(m, c.key) ==> m in served)
    requires forall m :: m in served ==> m in w
    ensures var outcome := if e.AppendOwn? then StartAppendOwn(i.memory, !i.phase.Idle?, e.drafts, SecretAt(e.node, c), c.key)
                           else StartAppend(i.memory, !i.phase.Idle?, e.batch, c.key);
            InstanceInv(Begin(i, outcome), n, e.node == c.writer, w, c.key)
  {
    if i.memory.Some? {
      var memory := i.memory.value;
      BoundaryIsPrefix(memory, n.commits);
      PrefixChained(memory, w, c.key);
      if e.AppendReceived? {
        StartAppendOverChain(memory, !i.phase.Idle?, e.batch, c.key);
        ReceivedFromServed(memory, e.batch, served, w, c.key);
      } else if e.drafts != [] {
        OwnDraftsAreSubmitted(memory, !i.phase.Idle?, e.drafts, c.key);
      }
    }
  }

  lemma ReceivedFromServed(memory: Log, batch: Log, served: set<SignedMessage>, w: Log, key: PublicKey)
    requires Chained(w, key) && memory <= w
    requires forall m :: m in batch && Verify(m, key) ==> m in served
    requires forall m :: m in served ==> m in w
    ensures var b := Trim(batch, |memory|); Chained(memory + b, key) ==> memory + b <= w
  {
    var b := Trim(batch, |memory|);
    if Chained(memory + b, key) {
      forall m | m in b ensures m in w {
        assert m in batch;
        var k :| 0 <= k < |b| && b[k] == m;
        assert Linked(memory + b, |memory| + k, key);
      }
      ReceivedContinuesWriter(memory, b, w, key);
    }
  }

  lemma AppendInv(s: System, e: Event, c: Config)
    requires Inv(s, c) && (e.AppendOwn? || e.AppendReceived?) && Running(s, e.node, e.instance) && Possible(s, e, c)
    ensures Inv(Step(s, e, c), c)
    ensures WriterLog(s, c) == WriterLog(Step(s, e, c), c)
  {
    var n := s.nodes[e.node];
    BegunInstanceInv(n, n.instances[e.instance], e, s.served, WriterLog(s, c), c);
    InstanceStepInv(s, e.node, StepInstance(n, n.instances[e.instance], e, c), s.served, c);
  }

  /** Reading, finishing a load and pushing a committed batch move whole-batch logs around inside one instance. */
  lemma LoadedInstanceInv(n: NodeState, id: InstanceId, e: Event, isWriter: bool, w: Log, c: Config)
    requires NodeInv(n, isWriter, w, c.key) && id in n.instances
    requires (e.Read? || e.FinishLoad? || e.LoadEmpty? || e.Push?) && e.instance == id
    ensures var m := StepInstance(n, n.instances[id], e, c);
            && m.rows == n.rows && m.commits == n.commits
            && forall other :: other in m.instances ==> InstanceInv(m.instances[other], m, isWriter, w, c.key)
  {
    WholeLogIsBoundary(n.commits);
    assert n.commits[..0] == [] && BoundaryAt([], n.commits, 0);
    assert InstanceInv(n.instances[id], n, isWriter, w, c.key);
    var m := StepInstance(n, n.instances[id], e, c);
    forall other | other in m.instances ensures InstanceInv(m.instances[other], m, isWriter, w, c.key) {
      if other != id { assert InstanceInv(n.instances[other], n, isWriter, w, c.key); }
    }
  }

  lemma LoadInv(s: System, e: Event, c: Config)
    requires Inv(s, c) && (e.Read? || e.FinishLoad? || e.LoadEmpty? || e.Push?) && Running(s, e.node, e.instance)
    ensures Inv(Step(s, e, c), c)
    ensures WriterLog(s, c) == WriterLog(Step(s, e, c), c)
  {
    var n := s.nodes[e.node];
    var m := StepInstance(n, n.instances[e.instance], e, c);
    LoadedInstanceInv(n, e.instance, e, e.node == c.writer, WriterLog(s, c), c);
    InstanceStepInv(s, e.node, m, s.served, c);
  }

  lemma ServeInv(s: System, e: Event, c: Config)
    requires Inv(s, c) && e.Serve? && Running(s, e.node, e.instance)
    ensures Inv(Step(s, e, c), c)
    ensures WriterLog(s, c) == WriterLog(Step(s, e, c), c)
  {
    var n := s.nodes[e.node];
    var i := n.instances[e.instance];
    if i.memory.Some? { BoundaryIsPrefix(i.memory.value, n.commits); }
    InstanceStepInv(s, e.node, n, Step(s, e, c).served, c);
  }

  lemma StepInv(s: System, e: Event, c: Config)
    requires Inv(s, c)
    ensures Inv(Step(s, e, c), c)
    ensures WriterLog(s, c) <= WriterLog(Step(s, e, c), c)
  {
    if e.node in s.nodes && Possible(s, e, c) {
      if e.Crash? || e.Open? {
        InstanceStepInv(s, e.node, Step(s, e, c).nodes[e.node], s.served, c);
      } else if Running(s, e.node, e.instance) {
        if e.Commit? { CommitInv(s, e, c); }
        else if e.AppendOwn? || e.AppendReceived? { AppendInv(s, e, c); }
        else if e.Serve? { ServeInv(s, e, c); }
        else { LoadInv(s, e, c); }
      }
    }
  }

  lemma {:induction false} RunInv(nodes: set<NodeId>, events: seq<Event>, c: Config)
    requires c.writer in nodes
    ensures Inv(Run(Init(nodes), events, c), c)
    decreases |events|
  {
    if events == [] {
      InitInv(nodes, c);
    } else {
      RunInv(nodes, events[..|events| - 1], c);
      StepInv(Run(Init(nodes), events[..|events| - 1], c), events[|events| - 1], c);
    }
  }

  // ---- What every run guarantees

  /** In every run, every node's table is gapless and a valid chain, and every memory of it is made of whole committed
      batches, hence a prefix of the stored log. */
  lemma StoredLogIsChained(nodes: set<NodeId>, events: seq<Event>, c: Config, node: NodeId)
    requires c.writer in nodes && node in nodes
    ensures var s := Run(Init(nodes), events, c);
            && node in s.nodes
            && var n := s.nodes[node];
            && ReadRows(n.rows).Ok?
            && Chained(ReadRows(n.rows).value, c.key)
            && (forall p :: p in n.rows <==> 0 <= p < |n.rows|)
            && forall id :: id in n.instances && n.instances[id].memory.Some? ==>
                 && AtBoundary(n.instances[id].memory.value, n.commits)
                 && n.instances[id].memory.value <= ReadRows(n.rows).value
  {
    var s := Run(Init(nodes), events, c);
    RunInv(nodes, events, c);
    RunKeepsNodes(Init(nodes), events, c);
    var n := s.nodes[node];
    PrefixChained(StoredLog(n), WriterLog(s, c), c.key);
    ReadableIsGapless(n.rows);
    forall id | id in n.instances && n.instances[id].memory.Some?
      ensures n.instances[id].memory.value <= StoredLog(n)
    {
      BoundaryIsPrefix(n.instances[id].memory.value, n.commits);
    }
  }

  lemma {:induction false} RunKeepsNodes(s: System, events: seq<Event>, c: Config)
    ensures Run(s, events, c).nodes.Keys == s.nodes.Keys
    decreases |events|
  {
    if events != [] { RunKeepsNodes(s, events[..|events| - 1], c); }
  }

  /** Reloading after any run accepts exactly the concatenation of the batches committed so far. */
  lemma ReloadAcceptsCommitted(nodes: set<NodeId>, events: seq<Event>, c: Config, node: NodeId)
    requires c.writer in nodes && node in nodes
    ensures var n := Run(Init(nodes), events, c).nodes;
            && node in n
            && ReadRows(n[node].rows) == Ok(Flatten(n[node].commits))
            && CheckBatch(Flatten(n[node].commits), None, 0, c.key).Ok?
  {
    StoredLogIsChained(nodes, events, c, node);
    RunInv(nodes, events, c);
    var log := Flatten(Run(Init(nodes), events, c).nodes[node].commits);
    CheckBatchIffChained([], log, c.key);
    assert [] + log == log;
  }

  /** Whatever was downloaded, in whatever order, a follower stores a prefix of what the writer has committed. */
  lemma FollowerIsPrefixOfWriter(nodes: set<NodeId>, events: seq<Event>, c: Config, node: NodeId)
    requires c.writer in nodes && node in nodes
    ensures var n := Run(Init(nodes), events, c).nodes;
            && node in n && c.writer in n
            && Flatten(n[node].commits) <= Flatten(n[c.writer].commits)
            && ReadRows(n[node].rows) == Ok(Flatten(n[node].commits))
  {
    RunInv(nodes, events, c);
    RunKeepsNodes(Init(nodes), events, c);
  }

  /** The rows of one table are all in another, unchanged. */
  predicate RowsStay(before: Rows, after: Rows) {
    forall p :: p in before ==> p in after && after[p] == before[p]
  }

  lemma CommitKeepsRows(rows: Rows, batch: Log)
    ensures RowsStay(rows, CommitBatch(rows, batch).1)
  {
    InsertAllMeaning(rows, batch);
  }

  /** No event of any node, crashes included, removes or changes a stored row: of any state, reachable or not. */
  lemma CommittedMessagesStay(s: System, e: Event, c: Config, node: NodeId)
    requires node in s.nodes
    ensures node in Step(s, e, c).nodes && RowsStay(s.nodes[node].rows, Step(s, e, c).nodes[node].rows)
  {
    if node == e.node && e.Commit? && Running(s, e.node, e.instance) {
      var i := s.nodes[node].instances[e.instance];
      if i.phase.Waiting? { CommitKeepsRows(s.nodes[node].rows, i.phase.batch); }
    }
  }

  /** Along every run the rows of every node stay, and what it stores is extended only at its end. */
  lemma {:induction false} LogOnlyGrows(nodes: set<NodeId>, before: seq<Event>, after: seq<Event>, c: Config, node: NodeId)
    requires c.writer in nodes && node in nodes
    ensures var s := Run(Init(nodes), before, c);
            var t := Run(Init(nodes), before + after, c);
            && node in s.nodes && node in t.nodes
            && RowsStay(s.nodes[node].rows, t.nodes[node].rows)
            && ReadRows(s.nodes[node].rows) == Ok(StoredLog(s.nodes[node]))
            && ReadRows(t.nodes[node].rows) == Ok(StoredLog(t.nodes[node]))
            && StoredLog(s.nodes[node]) <= StoredLog(t.nodes[node])
    decreases |after|
  {
    RunInv(nodes, before, c);
    RunInv(nodes, before + after, c);
    RunKeepsNodes(Init(nodes), before, c);
    RunKeepsNodes(Init(nodes), before + after, c);
    RowsStayAlong(nodes, before, after, c, node);
    LongerTable(Run(Init(nodes), before, c).nodes[node], Run(Init(nodes), before + after, c).nodes[node]);
  }

  lemma {:induction false} RowsStayAlong(nodes: set<NodeId>, before: seq<Event>, after: seq<Event>, c: Config, node: NodeId)
    requires node in nodes
    ensures node in Run(Init(nodes), before, c).nodes && node in Run(Init(nodes), before + after, c).nodes
    ensures RowsStay(Run(Init(nodes), before, c).nodes[node].rows, Run(Init(nodes), before + after, c).nodes[node].rows)
    decreases |after|
  {
    RunKeepsNodes(Init(nodes), before, c);
    if after == [] {
      assert before + after == before;
    } else {
      var init := after[..|after| - 1];
      RowsStayAlong(nodes, before, init, c, node);
      assert (before + after)[..|before + after| - 1] == before + init;
      CommittedMessagesStay(Run(Init(nodes), before + init, c), after[|after| - 1], c, node);
    }
  }

  /** Of two readable tables the one that holds the other's rows reads as an extension of it. */
  lemma LongerTable(n: NodeState, m: NodeState)
    requires ReadRows(n.rows) == Ok(StoredLog(n)) && ReadRows(m.rows) == Ok(StoredLog(m)) && RowsStay(n.rows, m.rows)
    ensures StoredLog(n) <= StoredLog(m)
  {
    ReadableIsGapless(n.rows);
    ReadableIsGapless(m.rows);
    var short, long := StoredLog(n), StoredLog(m);
    if short != [] { assert |short| - 1 in n.rows && |short| - 1 in m.rows; }
    forall p | 0 <= p < |short| ensures p < |long| && long[p] == short[p] {
      assert p in n.rows && p in m.rows;
    }
  }
}
