/** Messages as parts: header framing, cutting into parts, and putting parts together again. */
module UdpParts {
  import opened Wrappers
  import opened Blocks

  const UDP_MESSAGE_HEADER_SIZE: nat := 1000
  const UDP_PACKET_SIZE: nat := 20000
  const PART_SIZE: nat := UDP_PACKET_SIZE - UDP_MESSAGE_HEADER_SIZE

  // ---- Framing a header and its data in one buffer

  /** Header texts are ASCII, so a text is the sequence of its bytes. */
  predicate IsSpace(b: byte) {
    b == 32 || 9 <= b <= 13
  }

  function TrimEnd(text: Bytes): Bytes {
    if text != [] && IsSpace(text[|text| - 1]) then TrimEnd(text[..|text| - 1]) else text
  }

  function PadEnd(text: Bytes, size: nat): Bytes {
    if |text| >= size then text else text + seq(size - |text|, _ => 32)
  }

  function Frame(header: Bytes, data: Bytes, size: nat): Bytes {
    PadEnd(header, size) + data
  }

  function Unframe(packet: Bytes, size: nat): (Bytes, Bytes) {
    (TrimEnd(packet[..Min(size, |packet|)]), packet[Min(size, |packet|)..])
  }

  lemma {:induction false} TrimEndPadded(text: Bytes, padding: nat)
    ensures TrimEnd(text + seq(padding, _ => 32)) == TrimEnd(text)
    decreases padding
  {
    var padded := text + seq(padding, _ => 32);
    if padding == 0 {
      assert padded == text;
    } else {
      assert padded[..|padded| - 1] == text + seq(padding - 1, _ => 32);
      TrimEndPadded(text, padding - 1);
    }
  }

  lemma {:induction false} TrimEndShortens(text: Bytes)
    ensures |TrimEnd(text)| <= |text|
    ensures TrimEnd(text) == text <==> text == [] || !IsSpace(text[|text| - 1])
    decreases |text|
  {
    if text != [] { TrimEndShortens(text[..|text| - 1]); }
  }

  /** A header and its data come back out of the buffer exactly when the header fits and does not end in white space. */
  lemma FrameRoundTripIff(header: Bytes, data: Bytes, size: nat)
    ensures Unframe(Frame(header, data, size), size) == (header, data)
            <==> |header| <= size && (header == [] || !IsSpace(header[|header| - 1]))
  {
    var packet := Frame(header, data, size);
    TrimEndShortens(header);
    if |header| <= size {
      assert packet[..size] == PadEnd(header, size) && packet[size..] == data;
      TrimEndPadded(header, size - |header|);
      assert header + seq(0, _ => 32) == header;
    } else {
      TrimEndShortens(packet[..size]);
    }
  }

  // ---- Cutting a message into parts

  /** An empty message still has one part, so that its header gets sent. */
  function Parts(data: Bytes): (parts: seq<Bytes>)
    ensures |parts| > 0
  {
    if data == [] then [[]] else Split(data, PART_SIZE)
  }

  /** The parts carry the message, each fits a packet, and all but the last are full. */
  lemma PartsCarryMessage(data: Bytes)
    ensures Join(Parts(data)) == data
    ensures forall i :: 0 <= i < |Parts(data)| ==> |Parts(data)[i]| <= PART_SIZE
    ensures forall i :: 0 <= i < |Parts(data)| - 1 ==> |Parts(data)[i]| == PART_SIZE
    ensures data != [] ==> Parts(data)[|Parts(data)| - 1] != []
  {
    JoinSplit(data, PART_SIZE);
    SplitSizes(data, PART_SIZE);
    JoinOne(data);
  }

  /** What is left of the data from an index on, which may lie beyond its end. */
  function From(data: Bytes, i: nat): Bytes {
    data[Min(i, |data|)..]
  }

  lemma SplitAt(data: Bytes, i: nat)
    requires i < |data|
    ensures Split(From(data, i), PART_SIZE)
         == [data[i..Min(i + PART_SIZE, |data|)]] + Split(From(data, i + PART_SIZE), PART_SIZE)
  {
    var rest := From(data, i);
    assert rest[..Min(PART_SIZE, |rest|)] == data[i..Min(i + PART_SIZE, |data|)];
    assert rest[Min(PART_SIZE, |rest|)..] == From(data, i + PART_SIZE);
  }

  lemma NextPart(data: Bytes, buffers: seq<Bytes>, i: nat)
    requires i < |data|
    ensures buffers + Split(From(data, i), PART_SIZE)
         == (buffers + [data[i..Min(i + PART_SIZE, |data|)]]) + Split(From(data, i + PART_SIZE), PART_SIZE)
  {
    SplitAt(data, i);
  }

  method CreateParts(messageData: Bytes) returns (buffers: seq<Bytes>)
    ensures buffers == Parts(messageData)
  {
    buffers := [];
    var i := 0;
    while i < |messageData|
      invariant 0 <= i && (i == 0 <==> buffers == [])
      invariant Split(messageData, PART_SIZE) == buffers + Split(From(messageData, i), PART_SIZE)
      decreases |messageData| - i
    {
      NextPart(messageData, buffers, i);
      buffers := buffers + [messageData[i..Min(i + PART_SIZE, |messageData|)]];
      i := i + PART_SIZE;
    }
    if |buffers| == 0 {
      buffers := buffers + [[]];
    }
  }

  // ---- Putting parts together

  type MessageId = nat

  type StreamId = nat

  /** The type of a message with the metadata that goes with it. */
  datatype MetaData =
    | StreamDataChunk(stream: StreamId, dataChunkIndex: nat)
    | StreamDataEnd(stream: StreamId, numDataChunks: nat)
    | StreamDataError(stream: StreamId)
    | OtherMessage(metaData: Bytes)

  /** The part manager looks at the first three fields only. */
  datatype UdpHeader = UdpHeader(message: MessageId, partIndex: nat, numParts: nat, meta: MetaData)

  datatype UdpPart = UdpPart(header: UdpHeader, buffer: Bytes)

  datatype PartId = PartId(message: MessageId, partIndex: nat, numParts: nat)

  type PartTable = map<PartId, UdpPart>

  datatype CompleteMessage = CompleteMessage(header: UdpHeader, data: Bytes)

  function IdOf(h: UdpHeader): PartId {
    PartId(h.message, h.partIndex, h.numParts)
  }

  predicate HasAllParts(table: PartTable, message: MessageId, numParts: nat) {
    forall i :: 0 <= i < numParts ==> PartId(message, i, numParts) in table
  }

  function PartIds(message: MessageId, numParts: nat, n: nat): (ids: set<PartId>)
    ensures forall id :: id in ids <==> id.message == message && id.numParts == numParts && id.partIndex < n
  {
    if n == 0 then {} else PartIds(message, numParts, n - 1) + {PartId(message, n - 1, numParts)}
  }

  function Buffers(table: PartTable, message: MessageId, numParts: nat): (buffers: seq<Bytes>)
    requires HasAllParts(table, message, numParts)
    ensures |buffers| == numParts
  {
    seq(numParts, i requires 0 <= i < numParts => table[PartId(message, i, numParts)].buffer)
  }

  /** Adding a part completes its message when all parts are there; they are then removed from the table. */
  function AddPart(table: PartTable, part: UdpPart): (PartTable, Option<CompleteMessage>)
    requires part.header.numParts > 0
  {
    var h := part.header;
    var added := table[IdOf(h) := part];
    if HasAllParts(added, h.message, h.numParts) then
      (added - PartIds(h.message, h.numParts, h.numParts),
       Some(CompleteMessage(added[PartId(h.message, 0, h.numParts)].header, Join(Buffers(added, h.message, h.numParts)))))
    else (added, None)
  }

  class UdpMessagePartManager {
    var messageParts: PartTable

    constructor ()
      ensures messageParts == map[]
    {
      messageParts := map[];
    }

    method AddMessagePart(part: UdpPart) returns (message: Option<CompleteMessage>)
      requires part.header.numParts > 0
      modifies this
      ensures (messageParts, message) == AddPart(old(messageParts), part)
    {
      var h := part.header;
      messageParts := messageParts[IdOf(h) := part];
      ghost var added := messageParts;
      var complete := true;
      var data := [];
      var i := 0;
      while i < h.numParts && complete
        invariant 0 <= i <= h.numParts && messageParts == added
        invariant complete ==> forall j :: 0 <= j < i ==> PartId(h.message, j, h.numParts) in added
        invariant !complete ==> !HasAllParts(added, h.message, h.numParts)
        invariant complete && HasAllParts(added, h.message, h.numParts) ==>
                  data == Join(Buffers(added, h.message, h.numParts)[..i])
        decreases h.numParts - i, complete
      {
        if PartId(h.message, i, h.numParts) in messageParts {
          if HasAllParts(added, h.message, h.numParts) {
            ghost var all := Buffers(added, h.message, h.numParts);
            assert all[..i + 1] == all[..i] + [all[i]];
            JoinConcat(all[..i], [all[i]]);
            JoinOne(all[i]);
          }
          data := data + messageParts[PartId(h.message, i, h.numParts)].buffer;
          i := i + 1;
        } else {
          complete := false;
        }
      }
      if !complete {
        return None;
      }
      ghost var all := Buffers(added, h.message, h.numParts);
      assert all[..i] == all;
      var first := messageParts[PartId(h.message, 0, h.numParts)].header;
      i := 0;
      while i < h.numParts
        invariant 0 <= i <= h.numParts
        invariant messageParts == added - PartIds(h.message, h.numParts, i)
      {
        messageParts := messageParts - {PartId(h.message, i, h.numParts)};
        i := i + 1;
      }
      message := Some(CompleteMessage(first, data));
    }
  }
}
