/** A data stream over the unreliable network: the sender numbers its chunks, the messages carry the numbers, and the
  receiver feeds the reorder buffer with what the completed messages say. */
module StreamOverUdp {
  import opened Blocks
  import opened UdpParts
  import T = UdpTransport
  import D = DataStreamies

  // ---- The sender

  datatype Outgoing = Outgoing(meta: MetaData, data: Bytes)

  /** How the sender's stream was closed, if it was. */
  datatype Closing = NotYet | WithEnd | WithError

  /** The messages for a stream: its chunks numbered from zero, and then the count or the error. */
  function Numbered(stream: StreamId, chunks: seq<Bytes>, closing: Closing): seq<Outgoing> {
    seq(|chunks|, i requires 0 <= i < |chunks| => Outgoing(StreamDataChunk(stream, i), chunks[i]))
    + match closing
      case NotYet => []
      case WithEnd => [Outgoing(StreamDataEnd(stream, |chunks|), [])]
      case WithError => [Outgoing(StreamDataError(stream), [])]
  }

  class OutgoingDataStream {
    const stream: StreamId
    var dataChunkIndex: nat
    var sent: seq<Outgoing>
    ghost var chunks: seq<Bytes>
    ghost var closing: Closing

    /** What has been sent are the chunks seen, numbered in order, and what closed the stream. */
    ghost predicate Valid()
      reads this
    {
      dataChunkIndex == |chunks| && sent == Numbered(stream, chunks, closing)
    }

    constructor (stream: StreamId)
      ensures Valid() && this.stream == stream && chunks == [] && closing == NotYet
    {
      this.stream := stream;
      dataChunkIndex, sent, chunks, closing := 0, [], [], NotYet;
    }

    /** A data stream passes on nothing after its end or an error. */
    method OnData(chunk: Bytes)
      requires Valid() && closing == NotYet
      modifies this
      ensures Valid() && chunks == old(chunks) + [chunk] && closing == NotYet
    {
      sent := sent + [Outgoing(StreamDataChunk(stream, dataChunkIndex), chunk)];
      dataChunkIndex := dataChunkIndex + 1;
      chunks := chunks + [chunk];
    }

    method OnFinished()
      requires Valid() && closing == NotYet
      modifies this
      ensures Valid() && chunks == old(chunks) && closing == WithEnd
    {
      sent := sent + [Outgoing(StreamDataEnd(stream, dataChunkIndex), [])];
      closing := WithEnd;
    }

    method OnError()
      requires Valid() && closing == NotYet
      modifies this
      ensures Valid() && chunks == old(chunks) && closing == WithError
    {
      sent := sent + [Outgoing(StreamDataError(stream), [])];
      closing := WithError;
    }
  }

  predicate About(meta: MetaData, stream: StreamId) {
    !meta.OtherMessage? && meta.stream == stream
  }

  /** A message says the truth about a stream of these chunks. */
  predicate Fits(meta: MetaData, data: Bytes, stream: StreamId, chunks: seq<Bytes>, closing: Closing) {
    About(meta, stream) ==>
      match meta
      case StreamDataChunk(_, i) => i < |chunks| && data == chunks[i]
      case StreamDataEnd(_, n) => n == |chunks| && closing == WithEnd
      case StreamDataError(_) => closing == WithError
      case OtherMessage(_) => true
  }

  lemma NumberedFits(stream: StreamId, chunks: seq<Bytes>, closing: Closing, o: Outgoing)
    requires o in Numbered(stream, chunks, closing)
    ensures Fits(o.meta, o.data, stream, chunks, closing)
  {
  }

  /** All that is handed to the transport about the stream is what its sender sent. */
  predicate SendsOnly(udp: seq<T.Event>, stream: StreamId, sent: seq<Outgoing>) {
    forall k :: 0 <= k < |udp| && udp[k].Send? && About(udp[k].meta, stream) ==> Outgoing(udp[k].meta, udp[k].data) in sent
  }

  lemma {:induction false} MessagesWereSent(udp: seq<T.Event>, stream: StreamId, sent: seq<Outgoing>, id: MessageId)
    requires SendsOnly(udp, stream, sent) && id in T.Run(udp).messages && About(T.Run(udp).messages[id].meta, stream)
    ensures Outgoing(T.Run(udp).messages[id].meta, T.Run(udp).messages[id].data) in sent
    decreases |udp|
  {
    var init, e := udp[..|udp| - 1], udp[|udp| - 1];
    var s := T.Run(init);
    if id in s.messages {
      assert T.Step(s, e).messages[id] == s.messages[id];
      MessagesWereSent(init, stream, sent, id);
    } else {
      assert e.Send? && e.message == id && T.Step(s, e).messages[id] == T.Message(e.meta, e.data, e.packets);
    }
  }

  // ---- The receiver

  /** The handler of a completed message: what it does to the stream it names. */
  function Accept(s: D.State, c: CompleteMessage, stream: StreamId): D.State {
    if !About(c.header.meta, stream) then s
    else match c.header.meta
      case StreamDataChunk(_, i) => D.Reordered(s, i, c.data)
      case StreamDataEnd(_, n) => D.EndMarked(s, n)
      case StreamDataError(_) => s.(stream := D.Error(s.stream))
      case OtherMessage(_) => s
  }

  function Received(completed: seq<CompleteMessage>, stream: StreamId): D.State {
    if completed == [] then D.Init
    else Accept(Received(completed[..|completed| - 1], stream), completed[|completed| - 1], stream)
  }

  /** What a message means to the stream. */
  function EventOf(meta: MetaData, stream: StreamId): seq<D.Event> {
    if !About(meta, stream) then []
    else match meta
      case StreamDataChunk(_, i) => [D.ChunkArrives(i)]
      case StreamDataEnd(_, _) => [D.EndArrives]
      case StreamDataError(_) => [D.ErrorArrives]
      case OtherMessage(_) => []
  }

  function EventsOf(completed: seq<CompleteMessage>, stream: StreamId): seq<D.Event> {
    if completed == [] then []
    else EventsOf(completed[..|completed| - 1], stream) + EventOf(completed[|completed| - 1].header.meta, stream)
  }

  predicate AllFit(completed: seq<CompleteMessage>, stream: StreamId, chunks: seq<Bytes>, closing: Closing) {
    forall k :: 0 <= k < |completed| ==> Fits(completed[k].header.meta, completed[k].data, stream, chunks, closing)
  }

  lemma AcceptIsStep(s: D.State, c: CompleteMessage, stream: StreamId, chunks: seq<Bytes>, closing: Closing)
    requires Fits(c.header.meta, c.data, stream, chunks, closing)
    ensures About(c.header.meta, stream) ==>
              |EventOf(c.header.meta, stream)| == 1
              && Accept(s, c, stream) == D.Step(chunks, s, EventOf(c.header.meta, stream)[0])
  {
  }

  /** Messages that say the truth feed the buffer as a stream of the sender's chunks does. */
  lemma {:induction false} ReceivedIsRun(completed: seq<CompleteMessage>, stream: StreamId, chunks: seq<Bytes>, closing: Closing)
    requires AllFit(completed, stream, chunks, closing)
    ensures Received(completed, stream) == D.Run(chunks, EventsOf(completed, stream))
    decreases |completed|
  {
    if completed != [] {
      var init, last := completed[..|completed| - 1], completed[|completed| - 1];
      ReceivedIsRun(init, stream, chunks, closing);
      var before, now := EventsOf(init, stream), EventOf(last.header.meta, stream);
      AcceptIsStep(Received(init, stream), last, stream, chunks, closing);
      if About(last.header.meta, stream) {
        D.RunOneMore(chunks, before, now[0]);
        assert now == [now[0]];
      } else {
        assert before + now == before;
      }
    }
  }

  lemma {:induction false} EventsOfAre(completed: seq<CompleteMessage>, stream: StreamId, e: D.Event)
    ensures e in EventsOf(completed, stream) <==>
            exists k :: 0 <= k < |completed| && e in EventOf(completed[k].header.meta, stream)
    decreases |completed|
  {
    if completed != [] {
      var init := completed[..|completed| - 1];
      EventsOfAre(init, stream, e);
      assert forall k :: 0 <= k < |init| ==> init[k] == completed[k];
    }
  }

  // ---- From one end to the other

  lemma CompletedAt(udp: seq<T.Event>, k: nat)
    requires k < |T.Run(udp).receiver.completed|
    ensures var s := T.Run(udp);
            var id := s.receiver.completed[k].header.message;
            id in s.messages && s.receiver.completed[k] == T.Whole(id, s.messages[id])
  {
    T.CompletedOnceAndExact(udp);
  }

  lemma CompletedFit(udp: seq<T.Event>, stream: StreamId, chunks: seq<Bytes>, closing: Closing)
    requires SendsOnly(udp, stream, Numbered(stream, chunks, closing))
    ensures AllFit(T.Run(udp).receiver.completed, stream, chunks, closing)
  {
    var s := T.Run(udp);
    forall k | 0 <= k < |s.receiver.completed| && About(s.receiver.completed[k].header.meta, stream)
      ensures Fits(s.receiver.completed[k].header.meta, s.receiver.completed[k].data, stream, chunks, closing)
    {
      var id := s.receiver.completed[k].header.message;
      CompletedAt(udp, k);
      var m := s.messages[id];
      MessagesWereSent(udp, stream, Numbered(stream, chunks, closing), id);
      NumberedFits(stream, chunks, closing, Outgoing(m.meta, m.data));
    }
  }

  /** Whatever the network loses, repeats, reorders or delivers by the fallback, and however much of the stream is still to
      be sent: the chunks passed on are a prefix of the sender's, and the stream ends at most once, after all of them, and
      only if the sender's did. */
  lemma {:induction false} StreamIsNeverWrong(udp: seq<T.Event>, stream: StreamId, chunks: seq<Bytes>, closing: Closing)
    requires SendsOnly(udp, stream, Numbered(stream, chunks, closing))
    ensures var out := Received(T.Run(udp).receiver.completed, stream).stream;
            out.emitted <= chunks && out.ends <= 1 && (out.ends == 1 ==> out.emitted == chunks && closing == WithEnd)
  {
    var completed := T.Run(udp).receiver.completed;
    CompletedFit(udp, stream, chunks, closing);
    ReceivedIsRun(completed, stream, chunks, closing);
    var events := EventsOf(completed, stream);
    D.OutputIsPrefix(chunks, events);
    D.RunInv(chunks, events);
    if closing != WithEnd {
      EventsOfAre(completed, stream, D.EndArrives);
      assert D.EndArrives !in events;
    }
  }

  /** A message has been handed to the transport and its send call has returned. */
  predicate Delivered(s: T.State, o: Outgoing) {
    exists id :: id in s.messages && s.messages[id].meta == o.meta && s.messages[id].data == o.data && T.Resolved(s, id)
  }

  lemma DeliveredIsReceived(udp: seq<T.Event>, stream: StreamId, o: Outgoing)
    requires Delivered(T.Run(udp), o)
    ensures forall e :: e in EventOf(o.meta, stream) ==> e in EventsOf(T.Run(udp).receiver.completed, stream)
  {
    var s := T.Run(udp);
    var id :| id in s.messages && s.messages[id].meta == o.meta && s.messages[id].data == o.data && T.Resolved(s, id);
    T.ResolvedIsCompleted(udp, id);
    var k :| 0 <= k < |s.receiver.completed| && s.receiver.completed[k] == T.Whole(id, s.messages[id]);
    assert s.receiver.completed[k].header.meta == o.meta;
    forall e | e in EventOf(o.meta, stream) ensures e in EventsOf(s.receiver.completed, stream) {
      EventsOfAre(s.receiver.completed, stream, e);
    }
  }

  /** When the sender's stream has ended and the send calls of all its messages have returned, the receiver's stream has
      ended with exactly the sender's chunks, in order. */
  lemma {:induction false} ResolvedStreamIsComplete(udp: seq<T.Event>, stream: StreamId, chunks: seq<Bytes>)
    requires SendsOnly(udp, stream, Numbered(stream, chunks, WithEnd))
    requires forall o :: o in Numbered(stream, chunks, WithEnd) ==> Delivered(T.Run(udp), o)
    ensures var out := Received(T.Run(udp).receiver.completed, stream).stream;
            out.finished && !out.errored && out.emitted == chunks && out.ends == 1
  {
    var completed := T.Run(udp).receiver.completed;
    var events := EventsOf(completed, stream);
    var sent := Numbered(stream, chunks, WithEnd);
    CompletedFit(udp, stream, chunks, WithEnd);
    ReceivedIsRun(completed, stream, chunks, WithEnd);
    forall i | 0 <= i < |chunks| ensures D.ChunkArrives(i) in events {
      assert sent[i] == Outgoing(StreamDataChunk(stream, i), chunks[i]) && sent[i] in sent;
      DeliveredIsReceived(udp, stream, sent[i]);
    }
    assert sent[|chunks|] == Outgoing(StreamDataEnd(stream, |chunks|), []) && sent[|chunks|] in sent;
    DeliveredIsReceived(udp, stream, sent[|chunks|]);
    NoErrors(completed, stream, chunks);
    D.FinishedIffAllArrived(chunks, events);
    D.RunInv(chunks, events);
  }

  lemma NoErrors(completed: seq<CompleteMessage>, stream: StreamId, chunks: seq<Bytes>)
    requires AllFit(completed, stream, chunks, WithEnd)
    ensures D.ErrorArrives !in EventsOf(completed, stream)
  {
    EventsOfAre(completed, stream, D.ErrorArrives);
  }

  lemma EventAt(events: seq<D.Event>, e: D.Event) returns (k: nat)
    requires e in events
    ensures k < |events| && events[k] == e
  {
    k :| k < |events| && events[k] == e;
  }

  /** When the sender's stream has failed and the send calls of its messages have returned, the receiver's has failed too,
      with a prefix of the sender's chunks, and its end is never signalled. */
  lemma {:induction false} SentErrorArrives(udp: seq<T.Event>, stream: StreamId, chunks: seq<Bytes>)
    requires SendsOnly(udp, stream, Numbered(stream, chunks, WithError))
    requires forall o :: o in Numbered(stream, chunks, WithError) ==> Delivered(T.Run(udp), o)
    ensures var out := Received(T.Run(udp).receiver.completed, stream).stream;
            out.completed && out.errored && !out.finished && out.ends == 0 && out.emitted <= chunks
  {
    var completed := T.Run(udp).receiver.completed;
    var sent := Numbered(stream, chunks, WithError);
    CompletedFit(udp, stream, chunks, WithError);
    ReceivedIsRun(completed, stream, chunks, WithError);
    assert sent[|chunks|] == Outgoing(StreamDataError(stream), []) && sent[|chunks|] in sent;
    DeliveredIsReceived(udp, stream, sent[|chunks|]);
    NoEnds(completed, stream, chunks);
    ErrorWithoutEnd(chunks, EventsOf(completed, stream));
  }

  lemma NoEnds(completed: seq<CompleteMessage>, stream: StreamId, chunks: seq<Bytes>)
    requires AllFit(completed, stream, chunks, WithError)
    ensures D.EndArrives !in EventsOf(completed, stream)
  {
    EventsOfAre(completed, stream, D.EndArrives);
  }

  lemma ErrorWithoutEnd(chunks: seq<Bytes>, events: seq<D.Event>)
    requires D.ErrorArrives in events && D.EndArrives !in events
    ensures var out := D.Run(chunks, events).stream;
            out.completed && out.errored && !out.finished && out.ends == 0 && out.emitted <= chunks
  {
    var k := EventAt(events, D.ErrorArrives);
    D.RunInv(chunks, events);
    D.ErrorCompletes(chunks, events, k);
  }
}
