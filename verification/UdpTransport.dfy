/** Messages over an unreliable network: a sender that falls back to another channel, a network that loses, repeats and
  reorders, and a receiver that confirms, drops repeated packets and reassembles.

  What has ever been put on a channel stays deliverable for ever and any number of times; a loss is a delivery that
  never happens. Packet and message identifiers are fresh, and packets arrive while the receiver still remembers their
  identifiers. */
module UdpTransport {
  import opened Wrappers
  import opened Blocks
  import opened UdpParts

  type PacketId = nat

  datatype Message = Message(meta: MetaData, data: Bytes, packets: seq<PacketId>)

  /** One packet at the sender: being sent by UDP, given to the fallback channel, settled or failed. */
  datatype Status = Trying | Fallback | Done | Failed

  type Statuses = map<PacketId, Status>

  function Begun(status: Statuses, packets: seq<PacketId>): Statuses {
    status + map p | p in packets :: Trying
  }

  /** A packet moves on only from the status it is expected to have; anything else comes too late. */
  function MovedOn(status: Statuses, p: PacketId, from: Status, to: Status): Statuses {
    if p in status && status[p] == from then status[p := to] else status
  }

  datatype Receiver = Receiver(received: set<PacketId>, parts: PartTable, completed: seq<CompleteMessage>)

  datatype State = State(
    messages: map<MessageId, Message>,
    content: map<PacketId, UdpPart>,
    status: map<PacketId, Status>,
    wire: set<PacketId>, confirmations: set<PacketId>,
    requests: set<PacketId>, responses: set<PacketId>,
    receiver: Receiver)

  datatype Event =
    | Send(message: MessageId, meta: MetaData, data: Bytes, packets: seq<PacketId>)
    | Transmit(packet: PacketId)
    | Deliver(packet: PacketId)
    | DeliverConfirmation(packet: PacketId)
    | GiveUp(packet: PacketId)
    | DeliverRequest(packet: PacketId)
    | DeliverResponse(packet: PacketId)
    | FallbackFails(packet: PacketId)

  const Init: State := State(map[], map[], map[], {}, {}, {}, {}, Receiver({}, map[], []))

  function PartOf(id: MessageId, m: Message, i: nat): UdpPart
    requires i < |Parts(m.data)|
  {
    UdpPart(UdpHeader(id, i, |Parts(m.data)|, m.meta), Parts(m.data)[i])
  }

  function Whole(id: MessageId, m: Message): CompleteMessage {
    CompleteMessage(UdpHeader(id, 0, |Parts(m.data)|, m.meta), m.data)
  }

  predicate Distinct(s: seq<PacketId>) {
    forall i, j :: 0 <= i < j < |s| ==> s[i] != s[j]
  }

  /** The receiver's side of a packet: repeated identifiers are dropped, others reach the part manager. */
  function Receive(r: Receiver, p: PacketId, part: UdpPart): Receiver
    requires part.header.numParts > 0
  {
    if p in r.received then r
    else
      var (parts, message) := AddPart(r.parts, part);
      Receiver(r.received + {p}, parts, r.completed + if message.Some? then [message.value] else [])
  }

  predicate CanSend(s: State, e: Event)
    requires e.Send?
  {
    && e.message !in s.messages
    && |e.packets| == |Parts(e.data)|
    && Distinct(e.packets)
    && forall p :: p in e.packets ==> p !in s.content
  }

  function Contents(id: MessageId, m: Message): (contents: map<PacketId, UdpPart>)
    requires |m.packets| == |Parts(m.data)| && Distinct(m.packets)
    ensures forall p :: p in contents <==> p in m.packets
    ensures forall i :: 0 <= i < |m.packets| ==> contents[m.packets[i]] == PartOf(id, m, i)
  {
    map i | 0 <= i < |m.packets| :: m.packets[i] := PartOf(id, m, i)
  }

  function Receives(s: State, p: PacketId): Receiver
    requires p in s.content
  {
    if s.content[p].header.numParts > 0 then Receive(s.receiver, p, s.content[p]) else s.receiver
  }

  predicate HasStatus(s: State, p: PacketId, status: Status) {
    p in s.status && s.status[p] == status
  }

  function Step(s: State, e: Event): State {
    match e
    case Send(id, meta, data, packets) =>
      if !CanSend(s, e) then s
      else
        var m := Message(meta, data, packets);
        s.(messages := s.messages[id := m],
           content := s.content + Contents(id, m),
           status := Begun(s.status, packets))
    case Transmit(p) => if HasStatus(s, p, Trying) then s.(wire := s.wire + {p}) else s
    case Deliver(p) =>
      if p in s.wire && p in s.content
      then s.(receiver := Receives(s, p), confirmations := s.confirmations + {p})
      else s
    case DeliverConfirmation(p) =>
      if p in s.confirmations then s.(status := MovedOn(s.status, p, Trying, Done)) else s
    case GiveUp(p) =>
      if HasStatus(s, p, Trying)
      then s.(status := MovedOn(s.status, p, Trying, Fallback), requests := s.requests + {p})
      else s
    case DeliverRequest(p) =>
      if p in s.requests && p in s.content
      then s.(receiver := Receives(s, p), responses := s.responses + {p})
      else s
    case DeliverResponse(p) =>
      if p in s.responses then s.(status := MovedOn(s.status, p, Fallback, Done)) else s
    case FallbackFails(p) =>
      s.(status := MovedOn(s.status, p, Fallback, Failed))
  }

  function Run(events: seq<Event>): State {
    if events == [] then Init else Step(Run(events[..|events| - 1]), events[|events| - 1])
  }

  // ---- The invariant

  predicate AllReceived(m: Message, received: set<PacketId>) {
    forall i :: 0 <= i < |m.packets| ==> m.packets[i] in received
  }

  predicate MessageSent(id: MessageId, m: Message, content: map<PacketId, UdpPart>) {
    && |m.packets| == |Parts(m.data)|
    && forall i :: 0 <= i < |m.packets| ==> m.packets[i] in content && content[m.packets[i]] == PartOf(id, m, i)
  }

  predicate PacketBelongs(p: PacketId, h: UdpHeader, messages: map<MessageId, Message>) {
    && h.message in messages
    && h.partIndex < |messages[h.message].packets|
    && messages[h.message].packets[h.partIndex] == p
  }

  ghost predicate SentInv(messages: map<MessageId, Message>, content: map<PacketId, UdpPart>) {
    && (forall id :: id in messages ==> MessageSent(id, messages[id], content))
    && (forall p :: p in content ==> PacketBelongs(p, content[p].header, messages))
  }

  /** A table entry: the part of an incomplete message whose packet has been received. */
  predicate EntryFits(id: PartId, part: UdpPart, messages: map<MessageId, Message>, received: set<PacketId>) {
    && id.message in messages
    && var m := messages[id.message];
    && id.numParts == |m.packets| == |Parts(m.data)| && id.partIndex < id.numParts
    && part == PartOf(id.message, m, id.partIndex)
    && m.packets[id.partIndex] in received
    && !AllReceived(m, received)
  }

  /** Every received part of an incomplete message is in the table. */
  predicate PartsWait(id: MessageId, m: Message, parts: PartTable, received: set<PacketId>) {
    AllReceived(m, received)
    || forall i :: 0 <= i < |m.packets| && m.packets[i] in received ==> PartId(id, i, |m.packets|) in parts
  }

  /** A part waits in the table exactly when it has been received and its message is still incomplete. */
  ghost predicate TableInv(messages: map<MessageId, Message>, r: Receiver) {
    && (forall id :: id in r.parts ==> EntryFits(id, r.parts[id], messages, r.received))
    && (forall id :: id in messages ==> PartsWait(id, messages[id], r.parts, r.received))
  }

  predicate EntryCompleted(c: CompleteMessage, messages: map<MessageId, Message>, received: set<PacketId>) {
    var id := c.header.message;
    id in messages && c == Whole(id, messages[id]) && AllReceived(messages[id], received)
  }

  /** The completed messages are exactly those whose packets have all been received, each once, and unchanged. */
  ghost predicate CompletedInv(messages: map<MessageId, Message>, r: Receiver) {
    && (forall k :: 0 <= k < |r.completed| ==> EntryCompleted(r.completed[k], messages, r.received))
    && (forall j, k :: 0 <= j < k < |r.completed| ==> r.completed[j].header.message != r.completed[k].header.message)
    && (forall id :: id in messages && AllReceived(messages[id], r.received) ==> Whole(id, messages[id]) in r.completed)
  }

  /** Confirmations and fallback responses only exist for packets the receiver has, and a settled packet has one. */
  predicate ChannelsInv(s: State) {
    && s.receiver.received <= s.content.Keys
    && s.status.Keys == s.content.Keys && s.requests <= s.content.Keys
    && s.confirmations <= s.receiver.received && s.responses <= s.receiver.received
    && forall p :: p in s.status && s.status[p].Done? ==> p in s.receiver.received
  }

  ghost predicate Inv(s: State) {
    && SentInv(s.messages, s.content)
    && TableInv(s.messages, s.receiver)
    && CompletedInv(s.messages, s.receiver)
    && ChannelsInv(s)
  }

  lemma SendKeepsSent(s: State, e: Event)
    requires Inv(s) && e.Send? && CanSend(s, e)
    ensures SentInv(Step(s, e).messages, Step(s, e).content)
  {
    var m := Message(e.meta, e.data, e.packets);
    var t := Step(s, e);
    forall id | id in t.messages ensures MessageSent(id, t.messages[id], t.content) {
      if id != e.message {
        assert MessageSent(id, s.messages[id], s.content);
        forall i | 0 <= i < |t.messages[id].packets| ensures t.messages[id].packets[i] !in e.packets {}
      } else {
        forall i | 0 <= i < |m.packets| ensures m.packets[i] in t.content && t.content[m.packets[i]] == PartOf(id, m, i) {
          assert m.packets[i] in e.packets;
        }
      }
    }
    forall p | p in t.content ensures PacketBelongs(p, t.content[p].header, t.messages) {
      if p in e.packets {
        var i :| 0 <= i < |m.packets| && m.packets[i] == p;
      } else {
        assert PacketBelongs(p, s.content[p].header, s.messages);
      }
    }
  }

  lemma ChannelsGrow(s: State, t: State, packets: set<PacketId>)
    requires ChannelsInv(s)
    requires t.receiver == s.receiver && t.requests == s.requests
    requires t.confirmations == s.confirmations && t.responses == s.responses
    requires t.content.Keys == s.content.Keys + packets && t.status.Keys == s.status.Keys + packets
    requires forall p :: p in t.status && t.status[p].Done? ==> p in s.status && s.status[p].Done?
    ensures ChannelsInv(t)
  {
  }

  lemma BegunIs(status: Statuses, packets: seq<PacketId>)
    ensures Begun(status, packets).Keys == status.Keys + set p | p in packets
    ensures forall p :: p in Begun(status, packets) && Begun(status, packets)[p].Done? ==> p in status && status[p].Done?
  {
  }

  lemma SendKeepsChannels(s: State, e: Event)
    requires ChannelsInv(s) && e.Send? && CanSend(s, e)
    ensures ChannelsInv(Step(s, e))
  {
    var packets := set p | p in e.packets;
    BegunIs(s.status, e.packets);
    assert Contents(e.message, Message(e.meta, e.data, e.packets)).Keys == packets;
    ChannelsGrow(s, Step(s, e), packets);
  }

  lemma NewMessageKeepsTable(messages: map<MessageId, Message>, id: MessageId, m: Message, r: Receiver)
    requires TableInv(messages, r) && id !in messages
    requires forall i :: 0 <= i < |m.packets| ==> m.packets[i] !in r.received
    ensures TableInv(messages[id := m], r)
  {
    var more := messages[id := m];
    forall k | k in r.parts ensures EntryFits(k, r.parts[k], more, r.received) {
      assert EntryFits(k, r.parts[k], messages, r.received);
    }
    forall k | k in more ensures PartsWait(k, more[k], r.parts, r.received) {
      if k != id { assert PartsWait(k, messages[k], r.parts, r.received); }
    }
  }

  lemma NewMessageKeepsCompleted(messages: map<MessageId, Message>, id: MessageId, m: Message, r: Receiver)
    requires CompletedInv(messages, r) && id !in messages && |m.packets| > 0
    requires forall i :: 0 <= i < |m.packets| ==> m.packets[i] !in r.received
    ensures CompletedInv(messages[id := m], r)
  {
    var more := messages[id := m];
    assert !AllReceived(m, r.received) by { assert m.packets[0] !in r.received; }
    forall k | 0 <= k < |r.completed| ensures EntryCompleted(r.completed[k], more, r.received) {
      assert EntryCompleted(r.completed[k], messages, r.received);
    }
  }

  lemma SendInv(s: State, e: Event)
    requires Inv(s) && e.Send?
    ensures Inv(Step(s, e))
  {
    if CanSend(s, e) {
      SendKeepsSent(s, e);
      var m := Message(e.meta, e.data, e.packets);
      forall i | 0 <= i < |m.packets| ensures m.packets[i] !in s.receiver.received { assert m.packets[i] in e.packets; }
      NewMessageKeepsTable(s.messages, e.message, m, s.receiver);
      NewMessageKeepsCompleted(s.messages, e.message, m, s.receiver);
      SendKeepsChannels(s, e);
    }
  }

  /** The table gets its missing part back exactly when the last missing packet arrives. */
  lemma LastPartCompletes(messages: map<MessageId, Message>, content: map<PacketId, UdpPart>, r: Receiver, p: PacketId)
    requires SentInv(messages, content) && TableInv(messages, r) && p in content && p !in r.received
    ensures var h := content[p].header;
            var added := r.parts[IdOf(h) := content[p]];
            && h.message in messages
            && var m := messages[h.message];
            && !AllReceived(m, r.received)
            && (HasAllParts(added, h.message, h.numParts) <==> AllReceived(m, r.received + {p}))
            && (HasAllParts(added, h.message, h.numParts) ==> Buffers(added, h.message, h.numParts) == Parts(m.data))
  {
    var h := content[p].header;
    assert PacketBelongs(p, h, messages);
    var m := messages[h.message];
    assert MessageSent(h.message, m, content) && PartsWait(h.message, m, r.parts, r.received);
    var added := r.parts[IdOf(h) := content[p]];
    if AllReceived(m, r.received + {p}) {
      forall i | 0 <= i < h.numParts ensures PartId(h.message, i, h.numParts) in added {
        if i != h.partIndex { assert content[m.packets[i]].header.partIndex == i; }
      }
    }
    if HasAllParts(added, h.message, h.numParts) {
      forall i | 0 <= i < h.numParts
        ensures m.packets[i] in r.received + {p} && Buffers(added, h.message, h.numParts)[i] == Parts(m.data)[i]
      {
        var id := PartId(h.message, i, h.numParts);
        assert id in added;
        if i != h.partIndex { assert EntryFits(id, r.parts[id], messages, r.received); }
      }
    }
  }

  /** A packet of one message says nothing about another message. */
  lemma OtherMessagesUntouched(messages: map<MessageId, Message>, content: map<PacketId, UdpPart>, received: set<PacketId>, p: PacketId, id: MessageId)
    requires SentInv(messages, content) && p in content && id in messages && id != content[p].header.message
    ensures AllReceived(messages[id], received + {p}) <==> AllReceived(messages[id], received)
    ensures forall i :: 0 <= i < |messages[id].packets| ==> messages[id].packets[i] != p
  {
    assert MessageSent(id, messages[id], content);
  }

  lemma ReceiveKeepsEntries(messages: map<MessageId, Message>, content: map<PacketId, UdpPart>, r: Receiver, p: PacketId)
    requires SentInv(messages, content) && TableInv(messages, r) && p in content && p !in r.received
    requires content[p].header.numParts > 0
    ensures var t := Receive(r, p, content[p]);
            forall id :: id in t.parts ==> EntryFits(id, t.parts[id], messages, t.received)
  {
    var h := content[p].header;
    assert PacketBelongs(p, h, messages) && MessageSent(h.message, messages[h.message], content);
    var t := Receive(r, p, content[p]);
    LastPartCompletes(messages, content, r, p);
    forall id | id in t.parts ensures EntryFits(id, t.parts[id], messages, t.received) {
      if id != IdOf(h) {
        assert EntryFits(id, r.parts[id], messages, r.received);
        if id.message != h.message { OtherMessagesUntouched(messages, content, r.received, p, id.message); }
      }
    }
  }

  lemma ReceiveKeepsWaiting(messages: map<MessageId, Message>, content: map<PacketId, UdpPart>, r: Receiver, p: PacketId, id: MessageId)
    requires SentInv(messages, content) && TableInv(messages, r) && p in content && p !in r.received
    requires content[p].header.numParts > 0 && id in messages
    ensures var t := Receive(r, p, content[p]); PartsWait(id, messages[id], t.parts, t.received)
  {
    var h := content[p].header;
    var m := messages[id];
    assert PacketBelongs(p, h, messages) && MessageSent(id, m, content) && PartsWait(id, m, r.parts, r.received);
    var t := Receive(r, p, content[p]);
    LastPartCompletes(messages, content, r, p);
    if id != h.message { OtherMessagesUntouched(messages, content, r.received, p, id); }
    if !AllReceived(m, t.received) {
      forall i | 0 <= i < |m.packets| && m.packets[i] in t.received ensures PartId(id, i, |m.packets|) in t.parts {
        if m.packets[i] == p { assert content[m.packets[i]].header == PartOf(id, m, i).header; }
      }
    }
  }

  /** Completing one more message, or none, when all other messages stay as they are. */
  lemma CompletedGrows(messages: map<MessageId, Message>, r: Receiver, received: set<PacketId>, parts: PartTable, id: MessageId)
    requires CompletedInv(messages, r) && id in messages && !AllReceived(messages[id], r.received)
    requires forall k :: k in messages && k != id ==> (AllReceived(messages[k], received) <==> AllReceived(messages[k], r.received))
    ensures var completed := if AllReceived(messages[id], received) then r.completed + [Whole(id, messages[id])] else r.completed;
            CompletedInv(messages, Receiver(received, parts, completed))
  {
    var more := [Whole(id, messages[id])];
    var completed := if AllReceived(messages[id], received) then r.completed + more else r.completed;
    forall k | 0 <= k < |completed|
      ensures EntryCompleted(completed[k], messages, received)
      ensures k < |r.completed| ==> completed[k].header.message != id
    {
      if k < |r.completed| { assert EntryCompleted(r.completed[k], messages, r.received); }
    }
    forall k | k in messages && AllReceived(messages[k], received) ensures Whole(k, messages[k]) in completed {
      if k != id { assert Whole(k, messages[k]) in r.completed; }
      else { assert completed[|r.completed|] == Whole(k, messages[k]); }
    }
  }

  lemma ReceiveKeepsCompleted(messages: map<MessageId, Message>, content: map<PacketId, UdpPart>, r: Receiver, p: PacketId)
    requires SentInv(messages, content) && TableInv(messages, r) && CompletedInv(messages, r)
    requires p in content && p !in r.received && content[p].header.numParts > 0
    ensures CompletedInv(messages, Receive(r, p, content[p]))
  {
    var id := content[p].header.message;
    var t := Receive(r, p, content[p]);
    LastPartCompletes(messages, content, r, p);
    forall k | k in messages && k != id
      ensures AllReceived(messages[k], t.received) <==> AllReceived(messages[k], r.received)
    {
      OtherMessagesUntouched(messages, content, r.received, p, k);
    }
    if AllReceived(messages[id], t.received) { CompletedPartIsWhole(messages, content, r, p); }
    CompletedGrows(messages, r, t.received, t.parts, id);
    assert t.completed == if AllReceived(messages[id], t.received) then r.completed + [Whole(id, messages[id])] else r.completed;
  }

  lemma CompletedPartIsWhole(messages: map<MessageId, Message>, content: map<PacketId, UdpPart>, r: Receiver, p: PacketId)
    requires SentInv(messages, content) && TableInv(messages, r) && p in content && p !in r.received
    requires content[p].header.numParts > 0
    requires var h := content[p].header; h.message in messages && AllReceived(messages[h.message], r.received + {p})
    ensures var h := content[p].header;
            AddPart(r.parts, content[p]).1 == Some(Whole(h.message, messages[h.message]))
  {
    var h := content[p].header;
    assert PacketBelongs(p, h, messages);
    var m := messages[h.message];
    assert MessageSent(h.message, m, content);
    LastPartCompletes(messages, content, r, p);
    PartsCarryMessage(m.data);
    var first := PartId(h.message, 0, h.numParts);
    var added := r.parts[IdOf(h) := content[p]];
    assert first in added;
    if first != IdOf(h) { assert EntryFits(first, r.parts[first], messages, r.received); }
  }

  lemma ReceiveInv(messages: map<MessageId, Message>, content: map<PacketId, UdpPart>, r: Receiver, p: PacketId)
    requires SentInv(messages, content) && TableInv(messages, r) && CompletedInv(messages, r)
    requires p in content && content[p].header.numParts > 0
    ensures var t := Receive(r, p, content[p]);
            TableInv(messages, t) && CompletedInv(messages, t) && t.received == r.received + {p}
  {
    if p in r.received {
      assert r.received + {p} == r.received;
    } else {
      ReceiveKeepsEntries(messages, content, r, p);
      forall id | id in messages
        ensures PartsWait(id, messages[id], Receive(r, p, content[p]).parts, Receive(r, p, content[p]).received)
      {
        ReceiveKeepsWaiting(messages, content, r, p, id);
      }
      ReceiveKeepsCompleted(messages, content, r, p);
    }
  }

  lemma ArrivalInv(s: State, p: PacketId)
    requires Inv(s) && p in s.content
    ensures s.content[p].header.numParts > 0
    ensures TableInv(s.messages, Receives(s, p)) && CompletedInv(s.messages, Receives(s, p))
    ensures Receives(s, p).received == s.receiver.received + {p}
  {
    var h := s.content[p].header;
    assert PacketBelongs(p, h, s.messages) && MessageSent(h.message, s.messages[h.message], s.content);
    ReceiveInv(s.messages, s.content, s.receiver, p);
  }

  /** The invariant of a state with the same messages and packets, from the invariant of its receiver. */
  lemma InvFromReceiver(s: State, t: State)
    requires SentInv(s.messages, s.content) && t.messages == s.messages && t.content == s.content
    requires TableInv(s.messages, t.receiver) && CompletedInv(s.messages, t.receiver) && ChannelsInv(t)
    ensures Inv(t)
  {
  }

  lemma DeliveryKeepsChannels(s: State, r: Receiver, t: State, p: PacketId)
    requires ChannelsInv(s) && p in s.content && r.received == s.receiver.received + {p}
    requires || t == s.(receiver := r, confirmations := s.confirmations + {p})
             || t == s.(receiver := r, responses := s.responses + {p})
    ensures ChannelsInv(t)
  {
  }

  lemma DeliveryInv(s: State, r: Receiver, t: State, p: PacketId)
    requires Inv(s) && p in s.content && TableInv(s.messages, r) && CompletedInv(s.messages, r)
    requires r.received == s.receiver.received + {p}
    requires || t == s.(receiver := r, confirmations := s.confirmations + {p})
             || t == s.(receiver := r, responses := s.responses + {p})
    ensures Inv(t)
  {
    DeliveryKeepsChannels(s, r, t, p);
    InvFromReceiver(s, t);
  }

  /** The events that only move a packet at the sender. */
  lemma SenderKeepsChannels(s: State, e: Event)
    requires ChannelsInv(s) && !e.Send? && !e.Deliver? && !e.DeliverRequest?
    ensures var t := Step(s, e);
            ChannelsInv(t) && t.messages == s.messages && t.content == s.content && t.receiver == s.receiver
  {
  }

  lemma SenderInv(s: State, e: Event)
    requires Inv(s) && !e.Send? && !e.Deliver? && !e.DeliverRequest?
    ensures Inv(Step(s, e))
  {
    SenderKeepsChannels(s, e);
    InvFromReceiver(s, Step(s, e));
  }

  lemma DeliverInv(s: State, p: PacketId)
    requires Inv(s)
    ensures Inv(Step(s, Deliver(p)))
  {
    if p in s.wire && p in s.content {
      ArrivalInv(s, p);
      DeliveryInv(s, Receives(s, p), Step(s, Deliver(p)), p);
    }
  }

  lemma DeliverRequestInv(s: State, p: PacketId)
    requires Inv(s)
    ensures Inv(Step(s, DeliverRequest(p)))
  {
    if p in s.requests && p in s.content {
      ArrivalInv(s, p);
      DeliveryInv(s, Receives(s, p), Step(s, DeliverRequest(p)), p);
    }
  }

  lemma StepInv(s: State, e: Event)
    requires Inv(s)
    ensures Inv(Step(s, e))
  {
    match e
    case Send(_, _, _, _) => SendInv(s, e);
    case Deliver(p) => DeliverInv(s, p);
    case DeliverRequest(p) => DeliverRequestInv(s, p);
    case _ => SenderInv(s, e);
  }

  lemma {:induction false} RunInv(events: seq<Event>)
    ensures Inv(Run(events))
    decreases |events|
  {
    if events != [] {
      RunInv(events[..|events| - 1]);
      StepInv(Run(events[..|events| - 1]), events[|events| - 1]);
    }
  }

  // ---- What every run guarantees

  /** Each message is completed at most once and with exactly the bytes sent. */
  lemma {:induction false} CompletedOnceAndExact(events: seq<Event>)
    ensures var s := Run(events);
            && (forall k :: 0 <= k < |s.receiver.completed| ==>
                  var id := s.receiver.completed[k].header.message;
                  id in s.messages && s.receiver.completed[k] == Whole(id, s.messages[id]))
            && (forall j, k :: 0 <= j < k < |s.receiver.completed| ==>
                  s.receiver.completed[j].header.message != s.receiver.completed[k].header.message)
  {
    RunInv(events);
  }

  /** All packets of the message have settled, so the send call has returned. */
  predicate Resolved(s: State, id: MessageId) {
    id in s.messages && forall i :: 0 <= i < |s.messages[id].packets| ==> HasStatus(s, s.messages[id].packets[i], Done)
  }

  /** When the send call has returned, the receiver has completed the message. */
  lemma {:induction false} ResolvedIsCompleted(events: seq<Event>, id: MessageId)
    requires Resolved(Run(events), id)
    ensures Whole(id, Run(events).messages[id]) in Run(events).receiver.completed
  {
    RunInv(events);
    var s := Run(events);
    assert AllReceived(s.messages[id], s.receiver.received) by {
      forall i | 0 <= i < |s.messages[id].packets| ensures s.messages[id].packets[i] in s.receiver.received {
        assert HasStatus(s, s.messages[id].packets[i], Done);
      }
    }
  }

  /** The message is completed exactly when each of its packets has arrived by one way or the other. */
  lemma {:induction false} CompletedIffAllArrived(events: seq<Event>, id: MessageId)
    requires id in Run(events).messages
    ensures var s := Run(events);
            Whole(id, s.messages[id]) in s.receiver.completed <==> AllReceived(s.messages[id], s.receiver.received)
  {
    RunInv(events);
  }

  // ---- The objects

  class PacketReceiver {
    var receivedUdpPackets: set<PacketId>
    const messagePartManager: UdpMessagePartManager
    var completed: seq<CompleteMessage>

    ghost function Model(): Receiver
      reads this, messagePartManager
    {
      Receiver(receivedUdpPackets, messagePartManager.messageParts, completed)
    }

    constructor ()
      ensures Model() == Receiver({}, map[], []) && fresh(messagePartManager)
    {
      receivedUdpPackets, completed := {}, [];
      messagePartManager := new UdpMessagePartManager();
    }

    method ReceiveUdpPacket(p: PacketId, part: UdpPart)
      requires part.header.numParts > 0
      modifies this, messagePartManager
      ensures Model() == Receive(old(Model()), p, part)
    {
      if p in receivedUdpPackets {
        return;
      }
      receivedUdpPackets := receivedUdpPackets + {p};
      var message := messagePartManager.AddMessagePart(part);
      if message.Some? {
        completed := completed + [message.value];
      }
    }
  }

  datatype Outcome = Confirmed | Cancelled | SendError | TimedOut

  /** One packet at the sender: a first attempt by UDP and, unless that is confirmed, one by the fallback. The first
      outcome of the attempt counts, later ones are ignored. */
  class OutgoingPacket {
    const packetId: PacketId
    var completed: bool
    var outcome: Option<Outcome>
    var fallback: Option<bool>

    ghost predicate Valid()
      reads this
    {
      completed == outcome.Some? && (fallback.Some? ==> outcome.Some? && outcome != Some(Confirmed))
    }

    ghost function Model(): Status
      reads this
    {
      match outcome
      case None => Trying
      case Some(Confirmed) => Done
      case Some(_) =>
        match fallback
        case None => Fallback
        case Some(ok) => if ok then Done else Failed
    }

    constructor (packetId: PacketId)
      ensures Valid() && Model() == Trying && this.packetId == packetId
    {
      this.packetId := packetId;
      completed, outcome, fallback := false, None, None;
    }

    method Settle(o: Outcome)
      requires Valid()
      modifies this
      ensures Valid() && completed
      ensures Model() == if old(Model()) != Trying then old(Model()) else if o == Confirmed then Done else Fallback
    {
      if completed { return; }
      completed, outcome := true, Some(o);
    }

    method FallbackReturns(ok: bool)
      requires Valid() && Model() == Fallback
      modifies this
      ensures Valid() && Model() == if ok then Done else Failed
    {
      fallback := Some(ok);
    }
  }

  lemma BegunOneMore(status: Statuses, packets: seq<PacketId>, i: nat)
    requires i < |packets|
    ensures Begun(status, packets[..i + 1]) == Begun(status, packets[..i])[packets[i] := Trying]
  {
    assert packets[..i + 1] == packets[..i] + [packets[i]];
  }

  /** The sender's packets, and among them those a confirmation is still expected for. */
  class UdpPacketSender {
    var outgoingPackets: map<PacketId, OutgoingPacket>
    var unconfirmedOutgoingPackets: map<PacketId, OutgoingPacket>

    ghost predicate Valid()
      reads this, outgoingPackets.Values
    {
      && (forall p :: p in outgoingPackets ==> outgoingPackets[p].Valid() && outgoingPackets[p].packetId == p)
      && (forall p :: p in unconfirmedOutgoingPackets ==>
            p in outgoingPackets && outgoingPackets[p] == unconfirmedOutgoingPackets[p])
      && (forall p :: p in outgoingPackets && p !in unconfirmedOutgoingPackets ==> outgoingPackets[p].completed)
    }

    ghost function Model(): Statuses
      reads this, outgoingPackets.Values
    {
      map p | p in outgoingPackets :: outgoingPackets[p].Model()
    }

    constructor ()
      ensures Valid() && Model() == map[]
    {
      outgoingPackets, unconfirmedOutgoingPackets := map[], map[];
    }

    /** Begins to send new packets. */
    method SendPackets(packets: seq<PacketId>)
      requires Valid() && Distinct(packets) && forall p :: p in packets ==> p !in outgoingPackets
      modifies this
      ensures Valid() && Model() == Begun(old(Model()), packets)
    {
      ghost var before := Model();
      for i := 0 to |packets|
        invariant Valid() && Model() == Begun(before, packets[..i])
        invariant forall k :: i <= k < |packets| ==> packets[k] !in outgoingPackets
      {
        BegunOneMore(before, packets, i);
        AddPacket(packets[i]);
      }
      assert packets[..|packets|] == packets;
    }

    method AddPacket(p: PacketId)
      requires Valid() && p !in outgoingPackets
      modifies this
      ensures Valid() && Model() == old(Model())[p := Trying]
      ensures outgoingPackets.Keys == old(outgoingPackets.Keys) + {p}
    {
      var packet := new OutgoingPacket(p);
      Keep(packet);
    }

    method Keep(packet: OutgoingPacket)
      requires Valid() && packet.packetId !in outgoingPackets && packet.Valid()
      modifies this
      ensures Valid() && Model() == old(Model())[packet.packetId := packet.Model()]
      ensures outgoingPackets.Keys == old(outgoingPackets.Keys) + {packet.packetId}
    {
      outgoingPackets := outgoingPackets[packet.packetId := packet];
      unconfirmedOutgoingPackets := unconfirmedOutgoingPackets[packet.packetId := packet];
    }

    /** A confirmation, possibly repeated, late, or for a packet of somebody else. */
    method ReceivePacketConfirmation(p: PacketId)
      requires Valid()
      modifies this, outgoingPackets.Values
      ensures Valid() && Model() == MovedOn(old(Model()), p, Trying, Done)
      ensures p in outgoingPackets ==>
                outgoingPackets[p].Model() == if old(outgoingPackets[p].Model()) == Trying then Done else old(outgoingPackets[p].Model())
    {
      if p in unconfirmedOutgoingPackets {
        Settle(p, Confirmed);
        Forget(p);
      }
    }

    method Forget(p: PacketId)
      requires Valid() && p in outgoingPackets && outgoingPackets[p].completed
      modifies this`unconfirmedOutgoingPackets
      ensures Valid() && Model() == old(Model())
    {
      unconfirmedOutgoingPackets := unconfirmedOutgoingPackets - {p};
    }

    method Settle(p: PacketId, o: Outcome)
      requires Valid() && p in outgoingPackets
      modifies outgoingPackets[p]
      ensures Valid() && Model() == MovedOn(old(Model()), p, Trying, if o == Confirmed then Done else Fallback)
      ensures outgoingPackets[p].Model() ==
              if old(outgoingPackets[p].Model()) != Trying then old(outgoingPackets[p].Model())
              else if o == Confirmed then Done else Fallback
      ensures outgoingPackets[p].completed
    {
      outgoingPackets[p].Settle(o);
    }

    /** The attempt is cancelled, fails or times out; the packet is then given to the fallback. */
    method AttemptFails(p: PacketId, o: Outcome)
      requires Valid() && p in outgoingPackets && o != Confirmed
      modifies outgoingPackets[p]
      ensures Valid() && Model() == MovedOn(old(Model()), p, Trying, Fallback)
      ensures outgoingPackets[p].Model() ==
              if old(outgoingPackets[p].Model()) == Trying then Fallback else old(outgoingPackets[p].Model())
    {
      Settle(p, o);
    }

    method FallbackReturns(p: PacketId, ok: bool)
      requires Valid() && p in outgoingPackets && Model()[p] == Fallback
      modifies outgoingPackets[p]
      ensures Valid() && Model() == MovedOn(old(Model()), p, Fallback, if ok then Done else Failed)
      ensures outgoingPackets[p].Model() == if ok then Done else Failed
    {
      outgoingPackets[p].FallbackReturns(ok);
    }
  }
}
