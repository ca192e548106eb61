/** What undisturbed exchanges achieve in the replicated log: reloading, appending own messages, serving them, and following
  another node. */
module FeedProgress {
  import opened Wrappers
  import opened SignedChain
  import opened LocalFeedsDatabase
  import opened Subfeeds
  import opened FeedSystem

  /** In a state of the system, an instance that has nothing else under way holds this log, and so does its node's table,
      with the batch of a committed append on top. */
  ghost predicate UpToDate(s: System, node: NodeId, instance: InstanceId, phase: Phase, log: Log, c: Config) {
    && Inv(s, c) && Running(s, node, instance)
    && StoredLog(s.nodes[node]) == (if phase.Committed? then log + phase.batch else log)
    && s.nodes[node].instances[instance] == Instance(None, Some(log), phase)
  }

  /** What an event does to a running instance and its node. */
  lemma NodeStep(s: System, e: Event, c: Config)
    requires !e.Open? && !e.Crash? && !e.Serve? && Possible(s, e, c)
    requires Inv(s, c) && Running(s, e.node, e.instance)
    ensures var n := s.nodes[e.node];
            Step(s, e, c).nodes == s.nodes[e.node := StepInstance(n, n.instances[e.instance], e, c)]
    ensures Inv(Step(s, e, c), c)
  {
    StepInv(s, e, c);
  }

  lemma UndisturbedCommit(s: System, node: NodeId, instance: InstanceId, batch: Log, log: Log, c: Config, t: System)
    requires UpToDate(s, node, instance, Waiting(batch), log, c) && t == Step(s, Commit(node, instance), c)
    ensures UpToDate(t, node, instance, Phase.Committed(batch), log, c)
  {
    var n := s.nodes[node];
    NodeStep(s, Commit(node, instance), c);
    CommitCases(n, n.instances[instance], node == c.writer, WriterLog(s, c), c.key);
    FlattenAppend(n.commits, batch);
  }

  lemma UndisturbedPush(s: System, node: NodeId, instance: InstanceId, batch: Log, log: Log, c: Config, t: System)
    requires UpToDate(s, node, instance, Phase.Committed(batch), log, c) && t == Step(s, Push(node, instance), c)
    ensures UpToDate(t, node, instance, Idle, log + batch, c)
  {
    var n := s.nodes[node];
    NodeStep(s, Push(node, instance), c);
    assert t.nodes[node] == SetInstance(n, instance, Instance(None, Some(log + batch), Idle));
  }

  lemma RunThree(s: System, e1: Event, e2: Event, e3: Event, c: Config)
    ensures Run(s, [e1, e2, e3], c) == Step(Step(Step(s, e1, c), e2, c), e3, c)
  {
    assert [e1, e2, e3][..2] == [e1, e2] && [e1, e2][..1] == [e1] && [e1][..0] == [];
    assert Run(s, [e1], c) == Step(Run(s, [], c), e1, c);
    assert Run(s, [e1, e2], c) == Step(Run(s, [e1], c), e2, c);
  }

  // ---- The writer's own messages

  lemma UndisturbedStart(s: System, instance: InstanceId, drafts: seq<Draft>, log: Log, c: Config, t: System)
    requires UpToDate(s, c.writer, instance, Idle, log, c) && drafts != []
    requires t == Step(s, AppendOwn(c.writer, instance, drafts), c)
    ensures UpToDate(t, c.writer, instance, Waiting(SignAll(drafts, LastSignature(log), |log|, c.key)), log, c)
  {
    var e := AppendOwn(c.writer, instance, drafts);
    var signed := SignAll(drafts, LastSignature(log), |log|, c.key);
    NodeStep(s, e, c);
    assert StartAppendOwn(Some(log), false, drafts, Some(c.key), c.key) == Submitted(signed) by {
      OwnDraftsAreSubmitted(log, false, drafts, c.key);
    }
    var n := s.nodes[c.writer];
    assert StepInstance(n, n.instances[instance], e, c) == SetInstance(n, instance, Instance(None, Some(log), Waiting(signed)));
  }

  /** In every reachable state, an idle up-to-date instance of the writer that appends, commits and pushes stores
      exactly its own drafts, signed, after everything stored before, and holds the result in memory. */
  lemma {:induction false} UndisturbedAppend(s: System, instance: InstanceId, drafts: seq<Draft>, log: Log, c: Config)
    requires UpToDate(s, c.writer, instance, Idle, log, c) && drafts != []
    ensures var t := Run(s, [AppendOwn(c.writer, instance, drafts), Commit(c.writer, instance), Push(c.writer, instance)], c);
            UpToDate(t, c.writer, instance, Idle, log + SignAll(drafts, LastSignature(log), |log|, c.key), c)
  {
    var e1, e2, e3 := AppendOwn(c.writer, instance, drafts), Commit(c.writer, instance), Push(c.writer, instance);
    var signed := SignAll(drafts, LastSignature(log), |log|, c.key);
    var s1 := Step(s, e1, c);
    var s2 := Step(s1, e2, c);
    UndisturbedStart(s, instance, drafts, log, c, s1);
    UndisturbedCommit(s1, c.writer, instance, signed, log, c, s2);
    UndisturbedPush(s2, c.writer, instance, signed, log, c, Step(s2, e3, c));
    RunThree(s, e1, e2, e3, c);
  }

  // ---- Following

  /** A served stretch of the writer's log that starts inside what a follower holds and reaches further. */
  ghost predicate Continues(s: System, log: Log, from: nat, to: nat, c: Config) {
    c.writer in s.nodes
    && var w := WriterLog(s, c);
       from <= |log| < to <= |w| && forall m :: m in w[from..to] ==> m in s.served
  }

  lemma FollowerStart(s: System, node: NodeId, instance: InstanceId, log: Log, from: nat, to: nat, c: Config, t: System)
    requires UpToDate(s, node, instance, Idle, log, c) && Continues(s, log, from, to, c)
    requires t == Step(s, AppendReceived(node, instance, WriterLog(s, c)[from..to]), c)
    ensures UpToDate(t, node, instance, Waiting(WriterLog(s, c)[|log|..to]), log, c)
  {
    var w := WriterLog(s, c);
    var e := AppendReceived(node, instance, w[from..to]);
    var n := s.nodes[node];
    NodeStep(s, e, c);
    StretchIsSubmitted(log, w, from, to, c.key);
    assert StepInstance(n, n.instances[instance], e, c) == SetInstance(n, instance, Instance(None, Some(log), Waiting(w[|log|..to])));
  }

  lemma StretchIsSubmitted(log: Log, w: Log, from: nat, to: nat, key: PublicKey)
    requires Chained(w, key) && log <= w && from <= |log| < to <= |w|
    ensures StartAppend(Some(log), false, w[from..to], key) == Submitted(w[|log|..to])
  {
    OverlapIsTrimmed(w, from, to, |log|, key);
    assert log + w[|log|..to] == w[..to];
    PrefixOfChained(w, to, key);
    PrefixChained(log, w, key);
    StartAppendOverChain(log, false, w[from..to], key);
  }

  /** In every reachable state, an idle up-to-date instance of any node that receives a served stretch of the writer's log,
      overlapping what it holds or not, commits and pushes it, has its table and its memory up to the end of the stretch. */
  lemma {:induction false} UndisturbedFollow(s: System, node: NodeId, instance: InstanceId, log: Log, w: Log, from: nat, to: nat, c: Config, t: System)
    requires UpToDate(s, node, instance, Idle, log, c) && Continues(s, log, from, to, c) && w == WriterLog(s, c)
    requires t == Run(s, [AppendReceived(node, instance, w[from..to]), Commit(node, instance), Push(node, instance)], c)
    ensures UpToDate(t, node, instance, Idle, w[..to], c)
    ensures ReadRows(t.nodes[node].rows) == Ok(w[..to])
  {
    var rest := w[|log|..to];
    var e1, e2, e3 := AppendReceived(node, instance, w[from..to]), Commit(node, instance), Push(node, instance);
    var s1 := Step(s, e1, c);
    var s2 := Step(s1, e2, c);
    FollowerStart(s, node, instance, log, from, to, c, s1);
    UndisturbedCommit(s1, node, instance, rest, log, c, s2);
    RunThree(s, e1, e2, e3, c);
    UndisturbedPush(s2, node, instance, rest, log, c, t);
    HoldsPrefix(s, t, node, instance, log, w, to, c);
  }

  lemma HoldsPrefix(s: System, t: System, node: NodeId, instance: InstanceId, log: Log, w: Log, to: nat, c: Config)
    requires UpToDate(s, node, instance, Idle, log, c) && w == WriterLog(s, c) && |log| < to <= |w|
    requires UpToDate(t, node, instance, Idle, log + w[|log|..to], c)
    ensures UpToDate(t, node, instance, Idle, w[..to], c) && ReadRows(t.nodes[node].rows) == Ok(w[..to])
  {
    assert log <= w;
    assert log + w[|log|..to] == w[..to];
  }

  /** Serving a range that an instance holds hands out exactly its messages; any other range hands out nothing. */
  lemma ServeHandsOut(s: System, node: NodeId, instance: InstanceId, position: nat, numMessages: nat, c: Config)
    requires Running(s, node, instance)
    ensures var memory := s.nodes[node].instances[instance].memory;
            var t := Step(s, Serve(node, instance, position, numMessages), c);
            && t.nodes == s.nodes
            && (memory.Some? && position + numMessages <= |memory.value| ==>
                  forall m :: m in t.served <==> m in s.served || m in memory.value[position..position + numMessages])
            && (memory.None? || position + numMessages > |memory.value| ==> t.served == s.served)
  {
  }

  /** One exchange is enough: in every reachable state, if an up-to-date instance of the writer serves a stretch that
      continues what an up-to-date follower holds, up to the end of the log or not, and the follower appends, commits and
      pushes it, the follower stores the writer's log up to the end of the stretch. */
  lemma {:induction false} OneExchangeCatchesUp(s: System, source: InstanceId, node: NodeId, instance: InstanceId, log: Log, w: Log,
                                                from: nat, to: nat, c: Config, served: System, t: System)
    requires UpToDate(s, c.writer, source, Idle, w, c) && UpToDate(s, node, instance, Idle, log, c) && from <= |log| < to <= |w|
    requires served == Step(s, Serve(c.writer, source, from, to - from), c)
    requires t == Run(served, [AppendReceived(node, instance, w[from..to]), Commit(node, instance), Push(node, instance)], c)
    ensures UpToDate(t, node, instance, Idle, w[..to], c) && ReadRows(t.nodes[node].rows) == Ok(w[..to])
  {
    ServeKeepsUpToDate(s, node, instance, log, Serve(c.writer, source, from, to - from), c, served);
    HoldsLog(s, c.writer, source, w, c);
    ServedContinues(s, source, w, log, from, to, c, served);
    UndisturbedFollow(served, node, instance, log, w, from, to, c, t);
  }

  lemma HoldsLog(s: System, node: NodeId, instance: InstanceId, log: Log, c: Config)
    requires UpToDate(s, node, instance, Idle, log, c)
    ensures Running(s, node, instance) && s.nodes[node].instances[instance].memory == Some(log) && StoredLog(s.nodes[node]) == log
  {
  }

  lemma ServeKeepsUpToDate(s: System, node: NodeId, instance: InstanceId, log: Log, serve: Event, c: Config, t: System)
    requires UpToDate(s, node, instance, Idle, log, c) && serve.Serve? && Running(s, serve.node, serve.instance) && t == Step(s, serve, c)
    ensures UpToDate(t, node, instance, Idle, log, c)
  {
    StepInv(s, serve, c);
    ServeHandsOut(s, serve.node, serve.instance, serve.position, serve.numMessages, c);
  }

  lemma ServedContinues(s: System, source: InstanceId, w: Log, log: Log, from: nat, to: nat, c: Config, t: System)
    requires Running(s, c.writer, source) && s.nodes[c.writer].instances[source].memory == Some(w) && WriterLog(s, c) == w
    requires from <= |log| < to <= |w| && t == Step(s, Serve(c.writer, source, from, to - from), c)
    ensures Continues(t, log, from, to, c) && WriterLog(t, c) == w
  {
    ServeHandsOut(s, c.writer, source, from, to - from, c);
    assert t.nodes == s.nodes && from + (to - from) == to;
  }

  // ---- Loading

  /** After a crash, or beside other instances: a new instance that reads the table and finishes its load holds the whole
      stored log and is ready. */
  lemma {:induction false} ReloadHoldsStoredLog(s: System, node: NodeId, instance: InstanceId, c: Config)
    requires Inv(s, c) && node in s.nodes && instance !in s.nodes[node].instances
    ensures var t := Run(s, [Open(node, instance), Read(node, instance), FinishLoad(node, instance)], c);
            UpToDate(t, node, instance, Idle, StoredLog(s.nodes[node]), c)
  {
    var e1, e2, e3 := Open(node, instance), Read(node, instance), FinishLoad(node, instance);
    var log := StoredLog(s.nodes[node]);
    var s1 := Step(s, e1, c);
    var s2 := Step(s1, e2, c);
    OpenStarts(s, node, instance, c, s1);
    ReadLoads(s1, node, instance, c, s2);
    LoadFinishes(s2, node, instance, log, c, Step(s2, e3, c));
    RunThree(s, e1, e2, e3, c);
  }

  lemma OpenStarts(s: System, node: NodeId, instance: InstanceId, c: Config, t: System)
    requires Inv(s, c) && node in s.nodes && instance !in s.nodes[node].instances && t == Step(s, Open(node, instance), c)
    ensures Inv(t, c) && Running(t, node, instance) && t.nodes[node].instances[instance] == Instance(None, None, Idle)
    ensures t.nodes[node].commits == s.nodes[node].commits
  {
    StepInv(s, Open(node, instance), c);
  }

  lemma ReadLoads(s: System, node: NodeId, instance: InstanceId, c: Config, t: System)
    requires Inv(s, c) && Running(s, node, instance) && s.nodes[node].instances[instance] == Instance(None, None, Idle)
    requires t == Step(s, Read(node, instance), c)
    ensures Inv(t, c) && Running(t, node, instance) && t.nodes[node].commits == s.nodes[node].commits
    ensures t.nodes[node].instances[instance] == Instance(Some(StoredLog(s.nodes[node])), None, Idle)
  {
    NodeStep(s, Read(node, instance), c);
  }

  lemma LoadFinishes(s: System, node: NodeId, instance: InstanceId, log: Log, c: Config, t: System)
    requires Inv(s, c) && Running(s, node, instance) && StoredLog(s.nodes[node]) == log
    requires s.nodes[node].instances[instance] == Instance(Some(log), None, Idle)
    requires t == Step(s, FinishLoad(node, instance), c)
    ensures UpToDate(t, node, instance, Idle, log, c)
  {
    NodeStep(s, FinishLoad(node, instance), c);
    StoredLogPasses(s, node, c);
  }

  lemma StoredLogPasses(s: System, node: NodeId, c: Config)
    requires Inv(s, c) && node in s.nodes
    ensures CheckBatch(StoredLog(s.nodes[node]), None, 0, c.key).Ok?
  {
    var log := StoredLog(s.nodes[node]);
    PrefixChained(log, WriterLog(s, c), c.key);
    CheckBatchIffChained([], log, c.key);
    assert [] + log == log;
  }

  /** An instance of a feed that is not there locally starts with no messages. */
  lemma UnknownFeedStartsEmpty(s: System, node: NodeId, instance: InstanceId, c: Config)
    requires Running(s, node, instance) && s.nodes[node].instances[instance] == Instance(None, None, Idle)
    ensures Step(s, LoadEmpty(node, instance), c).nodes[node].instances[instance] == Instance(None, Some([]), Idle)
  {
  }

  /** A crash drops every instance of the node and nothing else. */
  lemma CrashDropsInstances(s: System, node: NodeId, c: Config)
    requires node in s.nodes
    ensures var t := Step(s, Crash(node), c);
            && t.nodes.Keys == s.nodes.Keys && t.served == s.served
            && t.nodes[node].instances == map[] && t.nodes[node].rows == s.nodes[node].rows
            && forall other :: other in s.nodes && other != node ==> t.nodes[other] == s.nodes[other]
  {
  }

  // ---- Refused transactions

  /** In every reachable state: a batch of an instance that is no longer up to date is refused by the table, which stays as
      it is, and the instance sticks with its appending flag set. */
  lemma RefusedCommitSticks(s: System, node: NodeId, instance: InstanceId, batch: Log, log: Log, c: Config, t: System)
    requires Inv(s, c) && Running(s, node, instance) && StoredLog(s.nodes[node]) != log
    requires s.nodes[node].instances[instance] == Instance(None, Some(log), Waiting(batch))
    requires t == Step(s, Commit(node, instance), c)
    ensures Inv(t, c) && Running(t, node, instance)
    ensures t.nodes[node].rows == s.nodes[node].rows && t.nodes[node].commits == s.nodes[node].commits
    ensures t.nodes[node].instances[instance] == Instance(None, Some(log), Stuck)
  {
    var n := s.nodes[node];
    NodeStep(s, Commit(node, instance), c);
    CommitCases(n, n.instances[instance], node == c.writer, WriterLog(s, c), c.key);
  }

  /** Nothing but a crash of its node frees a stuck instance: it goes on serving what it holds and refuses every append. */
  lemma StuckStays(s: System, node: NodeId, instance: InstanceId, log: Log, e: Event, c: Config)
    requires Running(s, node, instance) && s.nodes[node].instances[instance] == Instance(None, Some(log), Stuck)
    requires e != Crash(node)
    ensures Running(Step(s, e, c), node, instance)
    ensures Step(s, e, c).nodes[node].instances[instance] == Instance(None, Some(log), Stuck)
  {
  }
}
