/** Clients of the replicated log: what a client reads, at whatever node and time, are the writer's messages. */
module FeedReads {
  import opened Wrappers
  import opened SignedChain
  import opened FeedSystem
  import opened FeedCursor

  /** Where and when a fetch was answered: after so many events, by an instance of a node. */
  datatype Source = Source(time: nat, node: NodeId, instance: InstanceId)

  /** The fetch was answered from the memory the instance had at that time. */
  predicate AnsweredFrom(nodes: set<NodeId>, events: seq<Event>, c: Config, source: Source, memory: Log) {
    source.time <= |events|
    && var s := FeedSystem.Run(Init(nodes), events[..source.time], c);
       Running(s, source.node, source.instance) && s.nodes[source.node].instances[source.instance].memory == Some(memory)
  }

  /** A memory, however old, is a prefix of what the writer has committed by the end of the run. */
  lemma MemoryIsPrefixOfWriter(nodes: set<NodeId>, events: seq<Event>, c: Config, source: Source, memory: Log)
    requires c.writer in nodes && AnsweredFrom(nodes, events, c, source, memory)
    ensures var s := FeedSystem.Run(Init(nodes), events, c); c.writer in s.nodes && memory <= WriterLog(s, c)
  {
    var before, after := events[..source.time], events[source.time..];
    assert before + after == events;
    RunKeepsNodes(Init(nodes), before, c);
    StoredLogIsChained(nodes, before, c, source.node);
    FollowerIsPrefixOfWriter(nodes, before, c, source.node);
    LogOnlyGrows(nodes, before, after, c, c.writer);
  }

  /** A client that fetches with any waits and limits, from any instances of any nodes while the system runs, gets every
      message the writer committed between its first and its last position, once and in order. */
  lemma {:induction false} ClientsReadTheWritersLog(nodes: set<NodeId>, events: seq<Event>, c: Config, sources: seq<Source>,
                                 fetches: seq<Fetch<SignedMessage>>, start: nat)
    requires c.writer in nodes && |sources| == |fetches|
    requires forall i :: 0 <= i < |fetches| ==> AnsweredFrom(nodes, events, c, sources[i], fetches[i].memory)
    ensures var s := FeedSystem.Run(Init(nodes), events, c);
            && c.writer in s.nodes
            && var log := WriterLog(s, c);
            start <= |log| ==>
              start <= PositionAfter(fetches, start) <= |log| && Consumed(fetches, start) == log[start..PositionAfter(fetches, start)]
  {
    RunKeepsNodes(Init(nodes), events, c);
    var log := WriterLog(FeedSystem.Run(Init(nodes), events, c), c);
    forall i | 0 <= i < |fetches| ensures fetches[i].memory <= log {
      MemoryIsPrefixOfWriter(nodes, events, c, sources[i], fetches[i].memory);
    }
    FetchesReadTheLog(log, fetches, start);
  }

  /** An iterator used by nobody else, whose loads are answered by any instances of any nodes while the system runs, yields
      every message the writer committed from its start to its position, once and in order. */
  lemma {:induction false} IteratorsReadTheWritersLog(nodes: set<NodeId>, events: seq<Event>, c: Config, sources: seq<Source>,
                                   steps: seq<StreamEvent<SignedMessage>>, start: nat)
    requires c.writer in nodes && |sources| == |steps|
    requires forall i :: 0 <= i < |steps| ==>
               !steps[i].Moved? && (steps[i].Load? ==> AnsweredFrom(nodes, events, c, sources[i], steps[i].memory))
    ensures var s := FeedSystem.Run(Init(nodes), events, c);
            && c.writer in s.nodes
            && var log := WriterLog(s, c);
            var stream := StreamRun(start, steps);
            start <= |log| ==> start <= stream.position <= |log| && Yielded(stream) == log[start..stream.position]
  {
    RunKeepsNodes(Init(nodes), events, c);
    var log := WriterLog(FeedSystem.Run(Init(nodes), events, c), c);
    forall i | 0 <= i < |steps| && steps[i].Load? ensures steps[i].memory <= log {
      MemoryIsPrefixOfWriter(nodes, events, c, sources[i], steps[i].memory);
    }
    if start <= |log| { StreamYieldsTheLog(log, start, steps); }
  }
}
