/** What gets through the transport: a packet settles when its confirmation or the fallback's answer arrives, and a message
  whose packets all get through by one way or the other is sent and completed. */
module UdpProgress {
  import opened Wrappers
  import opened Blocks
  import opened UdpParts
  import opened UdpTransport

  // ---- One packet

  /** In every state: a confirmation that exists settles a packet still being tried. */
  lemma ConfirmationSettles(s: State, p: PacketId)
    requires HasStatus(s, p, Trying) && p in s.confirmations
    ensures HasStatus(Step(s, DeliverConfirmation(p)), p, Done)
  {
  }

  /** And an answer of the fallback settles a packet given to it. */
  lemma ResponseSettles(s: State, p: PacketId)
    requires HasStatus(s, p, Fallback) && p in s.responses
    ensures HasStatus(Step(s, DeliverResponse(p)), p, Done)
  {
  }

  predicate Known(s: State, p: PacketId) {
    p in s.status
  }

  /** These are all the ways a packet moves on; a settled or failed one never moves again. */
  lemma StatusMovesIff(s: State, e: Event, p: PacketId)
    requires Known(s, p) && (e.Send? ==> p !in e.packets)
    ensures var before := s.status[p];
            Known(Step(s, e), p)
            && var after := Step(s, e).status[p];
            && (before == Trying ==>
                  && (after == Done <==> e == DeliverConfirmation(p) && p in s.confirmations)
                  && (after == Fallback <==> e == GiveUp(p))
                  && after != Failed)
            && (before == Fallback ==>
                  && (after == Done <==> e == DeliverResponse(p) && p in s.responses)
                  && (after == Failed <==> e == FallbackFails(p))
                  && after != Trying)
            && (before == Done || before == Failed ==> after == before)
  {
  }

  /** And these are all the ways anything gets onto the network: a packet is transmitted or requested only while it is being
      tried, and confirmed or answered only when it has been delivered. */
  lemma NothingElseTravels(s: State, e: Event, p: PacketId)
    ensures var t := Step(s, e);
            && (p in t.wire <==> p in s.wire || (e == Transmit(p) && HasStatus(s, p, Trying)))
            && (p in t.requests <==> p in s.requests || (e == GiveUp(p) && HasStatus(s, p, Trying)))
            && (p in t.confirmations <==> p in s.confirmations || (e == Deliver(p) && p in s.wire && p in s.content))
            && (p in t.responses <==> p in s.responses || (e == DeliverRequest(p) && p in s.requests && p in s.content))
  {
  }

  /** A transmitted packet that is delivered is received and confirmed, and its confirmation settles it. */
  lemma DirectSettles(s: State, p: PacketId, t: State)
    requires HasStatus(s, p, Trying) && p in s.content
    requires t == Step(Step(Step(s, Transmit(p)), Deliver(p)), DeliverConfirmation(p))
    ensures t.status == s.status[p := Done] && t.messages == s.messages && t.content == s.content
  {
  }

  /** A packet given up is requested by the fallback, and the answer settles it. */
  lemma FallbackSettles(s: State, p: PacketId, t: State)
    requires HasStatus(s, p, Trying) && p in s.content
    requires t == Step(Step(Step(s, GiveUp(p)), DeliverRequest(p)), DeliverResponse(p))
    ensures t.status == s.status[p := Done] && t.messages == s.messages && t.content == s.content
  {
  }

  // ---- A whole message

  datatype Way = Direct | ByFallback

  function Through(p: PacketId, way: Way): seq<Event> {
    match way
    case Direct => [Transmit(p)] + [Deliver(p)] + [DeliverConfirmation(p)]
    case ByFallback => [GiveUp(p)] + [DeliverRequest(p)] + [DeliverResponse(p)]
  }

  /** The first k packets get through, one after the other, each in its way. */
  function AllThrough(packets: seq<PacketId>, ways: seq<Way>, k: nat): seq<Event>
    requires |ways| == |packets| && k <= |packets|
  {
    if k == 0 then [] else AllThrough(packets, ways, k - 1) + Through(packets[k - 1], ways[k - 1])
  }

  lemma RunOneMore(events: seq<Event>, e: Event)
    ensures Run(events + [e]) == Step(Run(events), e)
  {
    assert (events + [e])[..|events|] == events;
  }

  lemma RunThrough(events: seq<Event>, p: PacketId, way: Way)
    ensures Run(events + Through(p, way)) ==
            match way
            case Direct => Step(Step(Step(Run(events), Transmit(p)), Deliver(p)), DeliverConfirmation(p))
            case ByFallback => Step(Step(Step(Run(events), GiveUp(p)), DeliverRequest(p)), DeliverResponse(p))
  {
    match way
    case Direct => RunThree(events, Transmit(p), Deliver(p), DeliverConfirmation(p));
    case ByFallback => RunThree(events, GiveUp(p), DeliverRequest(p), DeliverResponse(p));
  }

  lemma RunThree(events: seq<Event>, e1: Event, e2: Event, e3: Event)
    ensures Run(events + ([e1] + [e2] + [e3])) == Step(Step(Step(Run(events), e1), e2), e3)
  {
    RunOneMore(events, e1);
    RunOneMore(events + [e1], e2);
    RunOneMore(events + [e1] + [e2], e3);
    assert events + ([e1] + [e2] + [e3]) == events + [e1] + [e2] + [e3];
  }

  /** The message is known, its first k packets are settled and the others are being tried. */
  predicate SentSoFar(s: State, id: MessageId, m: Message, k: nat) {
    && id in s.messages && s.messages[id] == m
    && forall i :: 0 <= i < |m.packets| ==>
         m.packets[i] in s.content && HasStatus(s, m.packets[i], if i < k then Done else Trying)
  }

  lemma SendBegins(s: State, id: MessageId, m: Message, t: State)
    requires CanSend(s, Send(id, m.meta, m.data, m.packets)) && t == Step(s, Send(id, m.meta, m.data, m.packets))
    ensures SentSoFar(t, id, m, 0)
  {
    forall i | 0 <= i < |m.packets| ensures m.packets[i] in t.content && HasStatus(t, m.packets[i], Trying) {
      assert m.packets[i] in m.packets;
    }
  }

  lemma OneMoreThrough(s: State, id: MessageId, m: Message, k: nat, t: State)
    requires k < |m.packets| && Distinct(m.packets) && SentSoFar(s, id, m, k)
    requires t.status == s.status[m.packets[k] := Done] && t.messages == s.messages && t.content == s.content
    ensures SentSoFar(t, id, m, k + 1)
  {
  }

  lemma OnePacketThrough(events: seq<Event>, id: MessageId, m: Message, way: Way, k: nat, all: seq<Event>)
    requires k < |m.packets| && Distinct(m.packets) && SentSoFar(Run(events), id, m, k)
    requires all == events + Through(m.packets[k], way)
    ensures SentSoFar(Run(all), id, m, k + 1)
  {
    RunThrough(events, m.packets[k], way);
    match way {
      case Direct => DirectSettles(Run(events), m.packets[k], Run(all));
      case ByFallback => FallbackSettles(Run(events), m.packets[k], Run(all));
    }
    OneMoreThrough(Run(events), id, m, k, Run(all));
  }

  lemma {:induction false} ThroughSettles(before: seq<Event>, id: MessageId, m: Message, ways: seq<Way>, k: nat, all: seq<Event>)
    requires |ways| == |m.packets| && k <= |m.packets| && Distinct(m.packets) && SentSoFar(Run(before), id, m, 0)
    requires all == before + AllThrough(m.packets, ways, k)
    ensures SentSoFar(Run(all), id, m, k)
    decreases k
  {
    if k == 0 {
      assert all == before;
    } else {
      var events := before + AllThrough(m.packets, ways, k - 1);
      assert all == events + Through(m.packets[k - 1], ways[k - 1]);
      ThroughSettles(before, id, m, ways, k - 1, events);
      OnePacketThrough(events, id, m, ways[k - 1], k - 1, all);
    }
  }

  lemma SettledIsResolved(s: State, id: MessageId, m: Message)
    requires SentSoFar(s, id, m, |m.packets|)
    ensures Resolved(s, id)
  {
  }

  lemma SendStarts(before: seq<Event>, id: MessageId, m: Message, sent: seq<Event>)
    requires CanSend(Run(before), Send(id, m.meta, m.data, m.packets)) && sent == before + [Send(id, m.meta, m.data, m.packets)]
    ensures SentSoFar(Run(sent), id, m, 0)
  {
    RunOneMore(before, Send(id, m.meta, m.data, m.packets));
    SendBegins(Run(before), id, m, Run(sent));
  }

  lemma Completes(events: seq<Event>, id: MessageId, m: Message)
    requires SentSoFar(Run(events), id, m, |m.packets|)
    ensures Resolved(Run(events), id) && Run(events).messages[id] == m && Whole(id, m) in Run(events).receiver.completed
  {
    SettledIsResolved(Run(events), id, m);
    ResolvedIsCompleted(events, id);
  }

  /** From every state of every run: a message that may be sent, and each packet of which gets through directly or by the
      fallback, is sent: its send call returns, and the receiver has completed it. */
  lemma {:induction false} SendGetsThrough(before: seq<Event>, id: MessageId, m: Message, ways: seq<Way>, all: seq<Event>)
    requires CanSend(Run(before), Send(id, m.meta, m.data, m.packets)) && |ways| == |m.packets|
    requires all == before + [Send(id, m.meta, m.data, m.packets)] + AllThrough(m.packets, ways, |m.packets|)
    ensures Resolved(Run(all), id) && Run(all).messages[id] == m && Whole(id, m) in Run(all).receiver.completed
  {
    var sent := before + [Send(id, m.meta, m.data, m.packets)];
    SendStarts(before, id, m, sent);
    ThroughSettles(sent, id, m, ways, |m.packets|, all);
    Completes(all, id, m);
  }
}
