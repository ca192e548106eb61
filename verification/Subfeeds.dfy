/** One in-memory subfeed: the signed messages it holds and the part of an append between two awaits. */
module Subfeeds {
  import opened Wrappers
  import opened SignedChain

  datatype AppendError = NotInitialized | NoPrivateKey | Chain(error: ChainError) | UnexpectedFirstNumber | Busy

  /** The synchronous part of an append: nothing to do, a batch handed to the database, or an exception. */
  datatype AppendOutcome = Nothing | Submitted(batch: seq<SignedMessage>) | Failed(error: AppendError)

  predicate FirstNumberFits(memory: seq<SignedMessage>, batch: seq<SignedMessage>)
    requires batch != []
  {
    batch[0].body.messageNumber == if memory == [] then 0 else memory[|memory| - 1].body.messageNumber + 1
  }

  /** Trimming, the chain check, and then the checks of the message manager. */
  function StartAppend(memory: Option<seq<SignedMessage>>, appending: bool, batch: seq<SignedMessage>, key: PublicKey)
    : AppendOutcome
  {
    if memory.None? then Failed(NotInitialized)
    else match PrepareAppend(memory.value, batch, key)
      case NothingToDo => Nothing
      case Reject(e) => Failed(Chain(e))
      case Submit(b) =>
        if !FirstNumberFits(memory.value, b) then Failed(UnexpectedFirstNumber)
        else if appending then Failed(Busy)
        else Submitted(b)
  }

  /** Signs drafts on top of memory and appends them. The secret is named by the public key it belongs to. */
  function StartAppendOwn(memory: Option<seq<SignedMessage>>, appending: bool, drafts: seq<Draft>, secret: Option<PublicKey>, key: PublicKey)
    : AppendOutcome
  {
    if memory.None? then Failed(NotInitialized)
    else if drafts == [] then Nothing
    else if secret.None? then Failed(NoPrivateKey)
    else if secret.value != key then Failed(Chain(BadSignature))
    else StartAppend(memory, appending, SignAll(drafts, LastSignature(memory.value), |memory.value|, key), key)
  }

  datatype RangeError = NotLoaded | OutOfRange

  function LocalMessages(memory: Option<seq<SignedMessage>>, position: nat, numMessages: nat)
    : Result<seq<SignedMessage>, RangeError>
  {
    if memory.None? then Err(NotLoaded)
    else if position + numMessages <= |memory.value| then Ok(memory.value[position..position + numMessages])
    else Err(OutOfRange)
  }

  /** A range is served exactly if memory has all of it, and then message by message. */
  lemma LocalMessagesAre(memory: seq<SignedMessage>, position: nat, numMessages: nat)
    ensures LocalMessages(Some(memory), position, numMessages).Ok? <==> position + numMessages <= |memory|
    ensures position + numMessages <= |memory| ==>
              var r := LocalMessages(Some(memory), position, numMessages).value;
              |r| == numMessages && forall i :: 0 <= i < numMessages ==> r[i] == memory[position + i]
    ensures LocalMessages(None, position, numMessages) == Err(NotLoaded)
    ensures position + numMessages > |memory| ==> LocalMessages(Some(memory), position, numMessages) == Err(OutOfRange)
  {
  }

  /** What an append is refused for: not being loaded first, then the first message that breaks the chain, then an append in
      progress. */
  lemma AppendRefusals(memory: seq<SignedMessage>, appending: bool, batch: seq<SignedMessage>, key: PublicKey)
    requires Chained(memory, key)
    ensures StartAppend(None, appending, batch, key) == Failed(NotInitialized)
    ensures var b := Trim(batch, |memory|);
            && (b != [] && !Chained(memory + b, key) ==>
                  var check := CheckBatch(b, LastSignature(memory), |memory|, key);
                  check.Err? && StartAppend(Some(memory), appending, batch, key) == Failed(Chain(check.error)))
            && (b != [] && Chained(memory + b, key) && appending ==> StartAppend(Some(memory), appending, batch, key) == Failed(Busy))
  {
    CheckBatchIffChained(memory, Trim(batch, |memory|), key);
    StartAppendOverChain(memory, appending, batch, key);
  }

  /** And own drafts: not being loaded, then the missing secret, then a secret of another key. */
  lemma OwnAppendRefusals(memory: seq<SignedMessage>, appending: bool, drafts: seq<Draft>, other: PublicKey, key: PublicKey)
    requires drafts != [] && other != key
    ensures StartAppendOwn(None, appending, drafts, Some(key), key) == Failed(NotInitialized)
    ensures StartAppendOwn(Some(memory), appending, drafts, None, key) == Failed(NoPrivateKey)
    ensures StartAppendOwn(Some(memory), appending, drafts, Some(other), key) == Failed(Chain(BadSignature))
    ensures StartAppendOwn(Some(memory), appending, [], None, key) == Nothing
  {
  }

  /** Over a chained memory the last two checks of an append can only fail because an append is in progress. */
  lemma StartAppendOverChain(memory: seq<SignedMessage>, appending: bool, batch: seq<SignedMessage>, key: PublicKey)
    requires Chained(memory, key)
    ensures StartAppend(Some(memory), appending, batch, key) != Failed(UnexpectedFirstNumber)
    ensures StartAppend(Some(memory), appending, batch, key).Submitted? <==>
            var b := Trim(batch, |memory|);
            b != [] && Chained(memory + b, key) && !appending
    ensures StartAppend(Some(memory), appending, batch, key).Submitted? ==>
            StartAppend(Some(memory), appending, batch, key).batch == Trim(batch, |memory|)
  {
    PrepareAppendIffChained(memory, batch, key);
    var b := Trim(batch, |memory|);
    if b != [] && Chained(memory + b, key) {
      assert Linked(memory + b, |memory|, key) && (memory + b)[|memory|] == b[0];
      if memory != [] { assert Linked(memory, |memory| - 1, key); }
    }
  }

  /** What is submitted is the trimmed batch, and there is something to submit. */
  lemma SubmittedIsTrimmed(memory: seq<SignedMessage>, appending: bool, batch: seq<SignedMessage>, key: PublicKey)
    ensures StartAppend(Some(memory), appending, batch, key).Submitted? ==>
              Trim(batch, |memory|) != [] && StartAppend(Some(memory), appending, batch, key).batch == Trim(batch, |memory|)
    ensures StartAppend(Some(memory), appending, batch, key).Nothing? <==> Trim(batch, |memory|) == []
  {
    assert PrepareAppend(memory, batch, key).NothingToDo? <==> Trim(batch, |memory|) == [];
  }

  /** The owner of the key can always append its own drafts, unless an append is already in progress. */
  lemma OwnDraftsAreSubmitted(memory: seq<SignedMessage>, appending: bool, drafts: seq<Draft>, key: PublicKey)
    requires Chained(memory, key) && drafts != []
    ensures var outcome := StartAppendOwn(Some(memory), appending, drafts, Some(key), key);
            var signed := SignAll(drafts, LastSignature(memory), |memory|, key);
            && outcome == (if appending then Failed(Busy) else Submitted(signed))
            && Chained(memory + signed, key)
  {
    var signed := SignAll(drafts, LastSignature(memory), |memory|, key);
    SignedBatchIsSubmitted(memory, drafts, key);
    SignAllExtends(memory, drafts, key);
    assert Linked(memory + signed, |memory|, key) && (memory + signed)[|memory|] == signed[0];
    if memory != [] { assert Linked(memory, |memory| - 1, key); }
  }

  /** One turn of the signing loop. */
  lemma SignNext(signed: seq<SignedMessage>, drafts: seq<Draft>, i: nat, previous: Option<Signature>, number: int, key: PublicKey)
    requires i < |drafts|
    ensures var m := SignOne(drafts[i], previous, number, key);
            signed + SignAll(drafts[i..], previous, number, key)
            == (signed + [m]) + SignAll(drafts[i + 1..], Some(m.signature), number + 1, key)
  {
    assert drafts[i..][0] == drafts[i] && drafts[i..][1..] == drafts[i + 1..];
  }

  /** One turn of the checking loop. */
  lemma CheckNext(batch: seq<SignedMessage>, i: nat, previous: Option<Signature>, number: int, key: PublicKey)
    requires i < |batch|
    ensures CheckBatch(batch[i..], previous, number, key) ==
            if !Verify(batch[i], key) then Err(BadSignature)
            else if batch[i].body.previousSignature != previous then Err(BadPreviousSignature)
            else if batch[i].body.messageNumber != number then Err(BadMessageNumber)
            else CheckBatch(batch[i + 1..], Some(batch[i].signature), number + 1, key)
  {
    assert batch[i..][0] == batch[i] && batch[i..][1..] == batch[i + 1..];
  }

  class Subfeed {
    const publicKey: PublicKey
    var secret: Option<PublicKey>
    var signedMessages: Option<seq<SignedMessage>>
    var appending: bool

    constructor (publicKey: PublicKey, secret: Option<PublicKey>)
      ensures this.publicKey == publicKey && this.secret == secret && signedMessages == None && !appending
    {
      this.publicKey := publicKey;
      this.secret := secret;
      signedMessages := None;
      appending := false;
    }

    /** Runs once the database has returned the stored messages: checks the chain, then keeps them in memory. */
    method InitializeFromLocal(messages: seq<SignedMessage>) returns (r: Result<(), ChainError>)
      modifies this`signedMessages
      ensures r == CheckBatch(messages, None, 0, publicKey)
      ensures signedMessages == if r.Ok? then Some(messages) else old(signedMessages)
      ensures appending == old(appending) && secret == old(secret)
    {
      var previousSignature: Option<Signature> := None;
      var previousMessageNumber := -1;
      var i := 0;
      while i < |messages|
        invariant 0 <= i <= |messages| && signedMessages == old(signedMessages)
        invariant CheckBatch(messages, None, 0, publicKey)
               == CheckBatch(messages[i..], previousSignature, previousMessageNumber + 1, publicKey)
      {
        var msg := messages[i];
        CheckNext(messages, i, previousSignature, previousMessageNumber + 1, publicKey);
        if !Verify(msg, publicKey) { return Err(BadSignature); }
        if previousSignature != msg.body.previousSignature { return Err(BadPreviousSignature); }
        if previousMessageNumber + 1 != msg.body.messageNumber { return Err(BadMessageNumber); }
        previousSignature := Some(msg.signature);
        previousMessageNumber := msg.body.messageNumber;
        i := i + 1;
      }
      signedMessages := Some(messages);
      r := Ok(());
    }

    /** Everything an append of received messages does before it awaits the database. */
    method AppendSignedMessages(batch: seq<SignedMessage>) returns (outcome: AppendOutcome)
      modifies this`appending
      ensures outcome == StartAppend(signedMessages, old(appending), batch, publicKey)
      ensures appending == (old(appending) || outcome.Submitted?)
    {
      if signedMessages.None? { return Failed(NotInitialized); }
      var memory := signedMessages.value;
      if |batch| == 0 { return Nothing; }
      var messages := batch;
      if batch[0].body.messageNumber < |memory| {
        messages := Drop(batch, |memory| - batch[0].body.messageNumber);
      }
      if |messages| == 0 { return Nothing; }
      assert messages == Trim(batch, |memory|);
      var r := Check(messages, memory);
      match r {
        case Ok(_) => outcome := HandToDatabase(messages);
        case Err(e) => outcome := Failed(Chain(e));
      }
    }

    /** The checking loop, on top of the messages held. */
    method Check(messages: seq<SignedMessage>, memory: seq<SignedMessage>) returns (r: Result<(), ChainError>)
      ensures r == CheckBatch(messages, LastSignature(memory), |memory|, publicKey)
    {
      var previousSignature: Option<Signature> := None;
      if |memory| > 0 { previousSignature := Some(memory[|memory| - 1].signature); }
      var messageNumber := |memory|;
      var i := 0;
      while i < |messages|
        invariant 0 <= i <= |messages|
        invariant CheckBatch(messages, LastSignature(memory), |memory|, publicKey)
               == CheckBatch(messages[i..], previousSignature, messageNumber, publicKey)
      {
        var m := messages[i];
        CheckNext(messages, i, previousSignature, messageNumber, publicKey);
        if !Verify(m, publicKey) { return Err(BadSignature); }
        if m.body.previousSignature != previousSignature { return Err(BadPreviousSignature); }
        if m.body.messageNumber != messageNumber { return Err(BadMessageNumber); }
        previousSignature := Some(m.signature);
        messageNumber := messageNumber + 1;
        i := i + 1;
      }
      r := Ok(());
    }

    /** The message manager's own checks, before it awaits the database. */
    method HandToDatabase(toAppend: seq<SignedMessage>) returns (outcome: AppendOutcome)
      requires signedMessages.Some? && toAppend != []
      modifies this`appending
      ensures outcome == if !FirstNumberFits(signedMessages.value, toAppend) then Failed(UnexpectedFirstNumber)
                         else if old(appending) then Failed(Busy) else Submitted(toAppend)
      ensures appending == (old(appending) || outcome.Submitted?)
    {
      var memory := signedMessages.value;
      var first := toAppend[0].body.messageNumber;
      if |memory| == 0 {
        if first != 0 { return Failed(UnexpectedFirstNumber); }
      } else if first != memory[|memory| - 1].body.messageNumber + 1 {
        return Failed(UnexpectedFirstNumber);
      }
      if appending { return Failed(Busy); }
      appending := true;
      outcome := Submitted(toAppend);
    }

    /** Signs new messages one after the other and appends them. */
    method AppendMessages(drafts: seq<Draft>) returns (outcome: AppendOutcome)
      modifies this`appending
      ensures outcome == StartAppendOwn(signedMessages, old(appending), drafts, secret, publicKey)
      ensures appending == (old(appending) || outcome.Submitted?)
    {
      if signedMessages.None? { return Failed(NotInitialized); }
      if |drafts| == 0 { return Nothing; }
      if secret.None? { return Failed(NoPrivateKey); }
      var signed, verified := Sign(drafts, signedMessages.value, secret.value);
      if !verified { return Failed(Chain(BadSignature)); }
      outcome := AppendSignedMessages(signed);
    }

    /** The signing loop, on top of the messages held; every signature is verified at once. */
    method Sign(drafts: seq<Draft>, memory: seq<SignedMessage>, key: PublicKey) returns (signed: seq<SignedMessage>, verified: bool)
      requires drafts != []
      ensures verified <==> key == publicKey
      ensures verified ==> signed == SignAll(drafts, LastSignature(memory), |memory|, publicKey)
    {
      signed := [];
      var previousSignature: Option<Signature> := None;
      if |memory| > 0 { previousSignature := Some(memory[|memory| - 1].signature); }
      var messageNumber := |memory|;
      var i := 0;
      while i < |drafts|
        invariant 0 <= i <= |drafts|
        invariant i > 0 ==> key == publicKey
        invariant SignAll(drafts, LastSignature(memory), |memory|, publicKey)
               == signed + SignAll(drafts[i..], previousSignature, messageNumber, publicKey)
      {
        var m := SignOne(drafts[i], previousSignature, messageNumber, key);
        if !Verify(m, publicKey) { return [], false; }
        SignNext(signed, drafts, i, previousSignature, messageNumber, publicKey);
        signed := signed + [m];
        previousSignature := Some(m.signature);
        messageNumber := messageNumber + 1;
        i := i + 1;
      }
      verified := true;
    }

    /** Runs once the database has committed the submitted batch. */
    method FinishAppend(batch: seq<SignedMessage>)
      requires signedMessages.Some?
      modifies this`signedMessages, this`appending
      ensures signedMessages == Some(old(signedMessages.value) + batch) && !appending
    {
      var i := 0;
      while i < |batch|
        invariant 0 <= i <= |batch|
        invariant signedMessages.Some? && signedMessages.value == old(signedMessages.value) + batch[..i]
      {
        signedMessages := Some(signedMessages.value + [batch[i]]);
        i := i + 1;
      }
      assert batch[..i] == batch;
      appending := false;
    }

    method GetLocalSignedMessages(position: nat, numMessages: nat) returns (r: Result<seq<SignedMessage>, RangeError>)
      ensures r == LocalMessages(signedMessages, position, numMessages)
    {
      if signedMessages.None? { return Err(NotLoaded); }
      if position + numMessages <= |signedMessages.value| {
        var messages := [];
        var i := position;
        while i < position + numMessages
          invariant position <= i <= position + numMessages
          invariant messages == signedMessages.value[position..i]
        {
          messages := messages + [signedMessages.value[i]];
          i := i + 1;
        }
        return Ok(messages);
      }
      r := Err(OutOfRange);
    }
  }
}
