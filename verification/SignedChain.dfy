/** Signed, hash-chained subfeed messages.

  A signature is ideal: it is made from the key and the whole body, so it verifies exactly for the body and the key
  it was made from. Bodies carry the previous signature, so the two datatypes are mutually recursive. */
module SignedChain {
  import opened Wrappers

  type PublicKey = nat
  type Payload = string

  datatype Signature = Signature(signer: PublicKey, signed: Body)

  datatype Body = Body(message: Payload, previousSignature: Option<Signature>, messageNumber: int, timestamp: int)

  datatype SignedMessage = SignedMessage(body: Body, signature: Signature)

  /** A message before it is signed: its payload and the clock reading taken for it. */
  datatype Draft = Draft(message: Payload, timestamp: int)

  datatype ChainError = BadSignature | BadPreviousSignature | BadMessageNumber

  predicate Verify(m: SignedMessage, key: PublicKey) {
    m.signature == Signature(key, m.body)
  }

  function LastSignature(log: seq<SignedMessage>): Option<Signature> {
    if log == [] then None else Some(log[|log| - 1].signature)
  }

  /** What a log must satisfy: message i has number i, verifies, and names the signature of message i-1. */
  predicate Chained(log: seq<SignedMessage>, key: PublicKey) {
    forall i :: 0 <= i < |log| ==> Linked(log, i, key)
  }

  predicate Linked(log: seq<SignedMessage>, i: nat, key: PublicKey)
    requires i < |log|
  {
    Verify(log[i], key) && log[i].body.messageNumber == i && log[i].body.previousSignature == LastSignature(log[..i])
  }

  /** The checking loop shared by loading and appending: the first message that does not continue the chain decides
      the error. */
  function CheckBatch(batch: seq<SignedMessage>, previous: Option<Signature>, number: int, key: PublicKey)
    : Result<(), ChainError>
  {
    if batch == [] then Ok(())
    else
      var m := batch[0];
      if !Verify(m, key) then Err(BadSignature)
      else if m.body.previousSignature != previous then Err(BadPreviousSignature)
      else if m.body.messageNumber != number then Err(BadMessageNumber)
      else CheckBatch(batch[1..], Some(m.signature), number + 1, key)
  }

  /** JavaScript's slice(k) for a non-negative k. */
  function Drop<T>(s: seq<T>, k: nat): seq<T> {
    if k <= |s| then s[k..] else []
  }

  /** Removes the messages of a batch that, counting from its first message number, are already held. */
  function Trim(batch: seq<SignedMessage>, numLocal: nat): seq<SignedMessage> {
    if batch != [] && batch[0].body.messageNumber < numLocal
    then Drop(batch, numLocal - batch[0].body.messageNumber)
    else batch
  }

  datatype AppendRequest = NothingToDo | Submit(batch: seq<SignedMessage>) | Reject(error: ChainError)

  /** What an append asks of the database, given the messages held in memory. */
  function PrepareAppend(memory: seq<SignedMessage>, batch: seq<SignedMessage>, key: PublicKey): AppendRequest {
    var toAppend := Trim(batch, |memory|);
    if toAppend == [] then NothingToDo
    else match CheckBatch(toAppend, LastSignature(memory), |memory|, key)
      case Ok(_) => Submit(toAppend)
      case Err(e) => Reject(e)
  }

  function SignOne(d: Draft, previous: Option<Signature>, number: int, key: PublicKey): SignedMessage {
    var body := Body(d.message, previous, number, d.timestamp);
    SignedMessage(body, Signature(key, body))
  }

  /** The signing loop: each message names the signature made just before it. */
  function SignAll(drafts: seq<Draft>, previous: Option<Signature>, number: int, key: PublicKey): seq<SignedMessage> {
    if drafts == [] then []
    else
      var m := SignOne(drafts[0], previous, number, key);
      [m] + SignAll(drafts[1..], Some(m.signature), number + 1, key)
  }

  // ---- What the checking loop accepts

  /** The loop accepts exactly the batches that continue a chained log to a chained log. */
  lemma {:induction false} CheckBatchIffChained(log: seq<SignedMessage>, batch: seq<SignedMessage>, key: PublicKey)
    requires Chained(log, key)
    ensures CheckBatch(batch, LastSignature(log), |log|, key).Ok? <==> Chained(log + batch, key)
    decreases |batch|
  {
    if batch == [] {
      assert log + batch == log;
    } else {
      var longer := log + [batch[0]];
      assert (log + batch)[..|log|] == log && (log + batch)[|log|] == batch[0];
      if Linked(log + batch, |log|, key) {
        forall i | 0 <= i < |longer| ensures Linked(longer, i, key) {
          assert longer[..i] == if i < |log| then log[..i] else log;
          assert i < |log| ==> Linked(log, i, key);
        }
        CheckBatchIffChained(longer, batch[1..], key);
        assert longer + batch[1..] == log + batch;
      }
    }
  }

  /** Otherwise the first message that breaks the chain decides the error: its signature is looked at first, then the
      signature it continues from, then its number. */
  lemma {:induction false} FirstViolationDecides(log: seq<SignedMessage>, batch: seq<SignedMessage>, i: nat, key: PublicKey)
    requires i < |batch| && Chained(log + batch[..i], key) && !Linked(log + batch[..i + 1], |log| + i, key)
    ensures var m := batch[i];
            CheckBatch(batch, LastSignature(log), |log|, key) ==
            Err(if m.signature != Signature(key, m.body) then BadSignature
                else if m.body.previousSignature != LastSignature(log + batch[..i]) then BadPreviousSignature
                else BadMessageNumber)
    decreases |batch|
  {
    if i == 0 {
      assert log + batch[..0] == log;
      assert (log + batch[..1])[..|log|] == log;
    } else {
      var longer, rest := log + [batch[0]], batch[1..];
      assert Linked(log + batch[..i], |log|, key);
      assert (log + batch[..i])[..|log|] == log;
      assert longer + rest[..i - 1] == log + batch[..i] && longer + rest[..i] == log + batch[..i + 1];
      FirstViolationDecides(longer, rest, i - 1, key);
    }
  }

  lemma PrefixOfChained(log: seq<SignedMessage>, k: nat, key: PublicKey)
    requires Chained(log, key) && k <= |log|
    ensures Chained(log[..k], key)
  {
    forall i | 0 <= i < k ensures Linked(log[..k], i, key) {
      assert Linked(log, i, key);
      assert log[..k][..i] == log[..i];
    }
  }

  /** An append submits exactly the non-empty trimmed batch, and does so exactly when memory stays a chain with it. */
  lemma PrepareAppendIffChained(memory: seq<SignedMessage>, batch: seq<SignedMessage>, key: PublicKey)
    requires Chained(memory, key)
    ensures PrepareAppend(memory, batch, key).Submit?
            <==> Trim(batch, |memory|) != [] && Chained(memory + Trim(batch, |memory|), key)
    ensures PrepareAppend(memory, batch, key).NothingToDo? <==> Trim(batch, |memory|) == []
  {
    CheckBatchIffChained(memory, Trim(batch, |memory|), key);
  }

  /** Re-sending any stretch of a chained log that starts inside memory trims to what memory lacks. */
  lemma OverlapIsTrimmed(log: seq<SignedMessage>, from: nat, to: nat, held: nat, key: PublicKey)
    requires Chained(log, key) && from <= held <= |log| && from <= to <= |log|
    ensures Trim(log[from..to], held) == if held < to then log[held..to] else []
  {
    if from < to {
      assert Linked(log, from, key);
      if held < to { assert log[from..to][held - from..] == log[held..to]; }
    }
  }

  // ---- What signing produces

  lemma {:induction false} SignAllExtends(log: seq<SignedMessage>, drafts: seq<Draft>, key: PublicKey)
    requires Chained(log, key)
    ensures var signed := SignAll(drafts, LastSignature(log), |log|, key);
            && Chained(log + signed, key)
            && |signed| == |drafts|
            && forall i :: 0 <= i < |drafts| ==>
                 signed[i].body.message == drafts[i].message && signed[i].body.timestamp == drafts[i].timestamp
    decreases |drafts|
  {
    var signed := SignAll(drafts, LastSignature(log), |log|, key);
    if drafts == [] {
      assert log + signed == log;
    } else {
      var m := SignOne(drafts[0], LastSignature(log), |log|, key);
      var longer := log + [m];
      forall i | 0 <= i < |longer| ensures Linked(longer, i, key) {
        assert longer[..i] == if i < |log| then log[..i] else log;
        assert i < |log| ==> Linked(log, i, key);
      }
      SignAllExtends(longer, drafts[1..], key);
      assert longer + SignAll(drafts[1..], Some(m.signature), |log| + 1, key) == log + signed;
    }
  }

  /** A freshly signed batch is never trimmed or rejected by the instance that signed it. */
  lemma SignedBatchIsSubmitted(memory: seq<SignedMessage>, drafts: seq<Draft>, key: PublicKey)
    requires Chained(memory, key) && drafts != []
    ensures var signed := SignAll(drafts, LastSignature(memory), |memory|, key);
            PrepareAppend(memory, signed, key) == Submit(signed) && Chained(memory + signed, key)
  {
    var signed := SignAll(drafts, LastSignature(memory), |memory|, key);
    SignAllExtends(memory, drafts, key);
    CheckBatchIffChained(memory, signed, key);
    assert Linked(memory + signed, |memory|, key);
  }

  // ---- What the chain protects

  /** The last signature of a log fixes every message before it. */
  lemma {:induction false} LastSignatureFixesLog(a: seq<SignedMessage>, b: seq<SignedMessage>, key: PublicKey)
    requires Chained(a, key) && Chained(b, key)
    requires LastSignature(a) == LastSignature(b)
    ensures a == b
    decreases |a|
  {
    if a != [] {
      assert Linked(a, |a| - 1, key) && Linked(b, |b| - 1, key);
      PrefixOfChained(a, |a| - 1, key);
      PrefixOfChained(b, |b| - 1, key);
      LastSignatureFixesLog(a[..|a| - 1], b[..|b| - 1], key);
      assert a == a[..|a| - 1] + [a[|a| - 1]];
      assert b == b[..|b| - 1] + [b[|b| - 1]];
    }
  }
}
