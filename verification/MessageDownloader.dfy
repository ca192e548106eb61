/** The loop that downloads a subfeed's missing messages after a remote node has reported how many it has. */
module MessageDownloader {
  import opened Wrappers
  import opened SignedChain
  import opened Subfeeds

  /** One pass of the loop: the local count it started from and the number of messages it asked for. */
  datatype Pass = Pass(start: nat, count: nat)

  /** Where the loop is: not running, awaiting a download, awaiting the append of a batch, or abandoned by an exception
      with its active flag still set. */
  datatype Phase = Off | Downloading(pass: Pass) | Appending(batch: seq<SignedMessage>) | Abandoned

  /** `failed` records that a download failed since the last report; `busy` is the subfeed's appending flag. */
  datatype State = State(memory: seq<SignedMessage>, busy: bool, remote: Option<nat>, phase: Phase, failed: bool)

  datatype Event =
    | Report(count: nat)
    | Downloaded(messages: seq<SignedMessage>)
    | DownloadFailed
    | Appended
    | AppendFailed
    | OtherBegins
    | OtherEnds(batch: seq<SignedMessage>)

  /** Where the loop goes from its head, with this many messages held. */
  function NextPhase(remote: Option<nat>, held: nat): Phase {
    if remote.None? || remote.value <= held then Off else Downloading(Pass(held, remote.value - held))
  }

  function LoopHead(s: State): State {
    s.(phase := NextPhase(s.remote, |s.memory|))
  }

  /** The part of a pass after its download: check the count, drop what arrived meanwhile, append. */
  function Received(s: State, messages: seq<SignedMessage>, key: PublicKey): State
    requires s.phase.Downloading?
  {
    var p := s.phase.pass;
    if |messages| != p.count then s.(phase := Off, failed := true)
    else
      Resume(s, StartAppend(Some(s.memory), s.busy, Drop(messages, Late(s)), key))
  }

  /** How much has arrived since the pass was started. */
  function Late(s: State): nat
    requires s.phase.Downloading?
  {
    if |s.memory| >= s.phase.pass.start then |s.memory| - s.phase.pass.start else 0
  }

  function Resume(s: State, outcome: AppendOutcome): State {
    match outcome
    case Nothing => LoopHead(s)
    case Submitted(b) => s.(phase := Appending(b), busy := true)
    case Failed(_) => s.(phase := Abandoned)
  }

  function Step(s: State, e: Event, key: PublicKey): State {
    match e
    case Report(n) =>
      var t := s.(remote := Some(n), failed := false);
      if |s.memory| < n && s.phase.Off? then LoopHead(t) else t
    case Downloaded(messages) => if s.phase.Downloading? then Received(s, messages, key) else s
    case DownloadFailed => if s.phase.Downloading? then s.(phase := Off, failed := true) else s
    case Appended =>
      if s.phase.Appending? then LoopHead(s.(memory := s.memory + s.phase.batch, busy := false)) else s
    case AppendFailed => if s.phase.Appending? then s.(phase := Abandoned) else s
    case OtherBegins => s.(busy := true)
    case OtherEnds(batch) =>
      if s.busy && !s.phase.Appending? then s.(memory := s.memory + batch, busy := false) else s
  }

  function Run(s: State, events: seq<Event>, key: PublicKey): State {
    if events == [] then s else Step(Run(s, events[..|events| - 1], key), events[|events| - 1], key)
  }

  function Start(memory: seq<SignedMessage>): State {
    State(memory, false, None, Off, false)
  }

  // ---- No report is lost

  predicate Inv(s: State) {
    && (s.phase.Off? && !s.failed && s.remote.Some? ==> s.remote.value <= |s.memory|)
    && (s.phase.Downloading? ==> s.phase.pass.start <= |s.memory| && s.phase.pass.count > 0)
    && (s.phase.Appending? ==> s.busy && s.phase.batch != [])
  }

  lemma StepInv(s: State, e: Event, key: PublicKey)
    requires Inv(s)
    ensures Inv(Step(s, e, key)) && s.memory <= Step(s, e, key).memory
  {
    if e.Downloaded? && s.phase.Downloading? { ReceivedInv(s, e.messages, key); }
  }

  lemma ReceivedInv(s: State, messages: seq<SignedMessage>, key: PublicKey)
    requires Inv(s) && s.phase.Downloading?
    ensures Inv(Received(s, messages, key)) && Received(s, messages, key).memory == s.memory
  {
    if |messages| == s.phase.pass.count {
      var outcome := AnswerOutcome(s, messages, key);
      ResumeInv(s, outcome);
    }
  }

  lemma ResumeInv(s: State, outcome: AppendOutcome)
    requires Inv(s) && s.phase.Downloading? && (outcome.Submitted? ==> outcome.batch != [])
    ensures Inv(Resume(s, outcome)) && Resume(s, outcome).memory == s.memory
  {
  }

  /** In every run, whenever no download is active and none failed since the last report, everything last reported is
      held locally. */
  lemma {:induction false} NoReportIsLost(memory: seq<SignedMessage>, events: seq<Event>, key: PublicKey)
    ensures var s := Run(Start(memory), events, key);
            && Inv(s)
            && memory <= s.memory
            && (s.phase.Off? && !s.failed && s.remote.Some? ==> s.remote.value <= |s.memory|)
    decreases |events|
  {
    if events != [] {
      NoReportIsLost(memory, events[..|events| - 1], key);
      StepInv(Run(Start(memory), events[..|events| - 1], key), events[|events| - 1], key);
    }
  }

  // ---- When the loop ends

  /** An answer of the expected length that lies, by its first message number, wholly in what was held when it was asked
      for, while nothing else has arrived. It is trimmed to nothing before any of it is checked. */
  predicate Stale(s: State, messages: seq<SignedMessage>) {
    && s.phase.Downloading? && |messages| == s.phase.pass.count > 0
    && |s.memory| == s.phase.pass.start && messages[0].body.messageNumber + |messages| <= |s.memory|
  }

  /** The steps of the loop itself. */
  predicate Moves(s: State, e: Event) {
    match e
    case Downloaded(_) => s.phase.Downloading?
    case DownloadFailed => s.phase.Downloading?
    case Appended => s.phase.Appending?
    case AppendFailed => s.phase.Appending?
    case _ => false
  }

  predicate StaleMove(s: State, e: Event) {
    e.Downloaded? && Stale(s, e.messages)
  }

  function Lack(s: State, held: nat): nat {
    if s.remote.Some? && s.remote.value > held then s.remote.value - held else 0
  }

  /** An upper bound on the moves the loop still makes, stale ones apart. */
  function Potential(s: State): nat {
    match s.phase
    case Downloading(p) =>
      2 * Lack(s, |s.memory|) + 2 + if |s.memory| > p.start && Lack(s, |s.memory|) > 0 then 1 else 0
    case Appending(b) =>
      var lack := Lack(s, |s.memory| + |b|);
      if lack > 0 then 2 * lack + 3 else 1
    case _ => 0
  }

  /** What a stale answer does: the loop starts over with the same memory. */
  lemma StaleAnswerRestarts(s: State, messages: seq<SignedMessage>, key: PublicKey)
    requires Stale(s, messages)
    ensures Step(s, Downloaded(messages), key) == LoopHead(s)
  {
    assert Drop(messages, 0) == messages && Trim(messages, |s.memory|) == [];
    SubmittedIsTrimmed(s.memory, s.busy, messages, key);
  }

  lemma TrimmedAwayIffStale(s: State, messages: seq<SignedMessage>)
    requires Inv(s) && s.phase.Downloading? && |messages| == s.phase.pass.count
    ensures Trim(Drop(messages, Late(s)), |s.memory|) == [] ==>
              Stale(s, messages) || |s.memory| > s.phase.pass.start
    ensures Stale(s, messages) ==> Trim(Drop(messages, Late(s)), |s.memory|) == []
  {
    assert Drop(messages, 0) == messages;
  }

  lemma ReceivedPotential(s: State, messages: seq<SignedMessage>, key: PublicKey)
    requires Inv(s) && s.phase.Downloading?
    ensures Potential(Received(s, messages, key)) <= Potential(s) - if Stale(s, messages) then 0 else 1
  {
    if |messages| == s.phase.pass.count {
      var outcome := AnswerOutcome(s, messages, key);
      ResumePotential(s, outcome);
    }
  }

  lemma ResumePotential(s: State, outcome: AppendOutcome)
    requires Inv(s) && s.phase.Downloading? && (outcome.Submitted? ==> outcome.batch != [])
    ensures Potential(Resume(s, outcome)) <=
            Potential(s) - if outcome.Nothing? && |s.memory| == s.phase.pass.start then 0 else 1
  {
  }

  /** Every step but a report keeps or lowers the potential, and every move that is not stale lowers it. */
  lemma StepPotential(s: State, e: Event, key: PublicKey)
    requires Inv(s) && !e.Report?
    ensures Potential(Step(s, e, key)) <= Potential(s) - if Moves(s, e) && !StaleMove(s, e) then 1 else 0
  {
    match e
    case Downloaded(messages) => if s.phase.Downloading? { ReceivedPotential(s, messages, key); }
    case _ =>
  }

  function NumMoves(s: State, events: seq<Event>, key: PublicKey): nat {
    if events == [] then 0
    else
      var init := events[..|events| - 1];
      NumMoves(s, init, key) + if Moves(Run(s, init, key), events[|events| - 1]) then 1 else 0
  }

  function NumStale(s: State, events: seq<Event>, key: PublicKey): nat {
    if events == [] then 0
    else
      var init := events[..|events| - 1];
      NumStale(s, init, key) + if StaleMove(Run(s, init, key), events[|events| - 1]) then 1 else 0
  }

  predicate NoReports(events: seq<Event>) {
    forall i :: 0 <= i < |events| ==> !events[i].Report?
  }

  /** For a fixed report the loop makes no more moves than its potential and the stale answers it gets. So it stops unless
      stale answers come again and again for ever. */
  lemma {:induction false} LoopEndsUnlessStale(s: State, events: seq<Event>, key: PublicKey)
    requires Inv(s) && NoReports(events)
    ensures Inv(Run(s, events, key))
    ensures NumMoves(s, events, key) + Potential(Run(s, events, key)) <= Potential(s) + NumStale(s, events, key)
    decreases |events|
  {
    if events != [] {
      var init, e := events[..|events| - 1], events[|events| - 1];
      LoopEndsUnlessStale(s, init, key);
      StepInv(Run(s, init, key), e, key);
      StepPotential(Run(s, init, key), e, key);
    }
  }

  /** From the start: after whatever came before, a last report of n messages allows at most 2n+3 further moves that are
      not stale. */
  lemma {:induction false} MovesAfterReport(memory: seq<SignedMessage>, before: seq<Event>, n: nat, after: seq<Event>, key: PublicKey)
    requires NoReports(after)
    ensures var s := Run(Start(memory), before + [Report(n)], key);
            NumMoves(s, after, key) <= 2 * n + 3 + NumStale(s, after, key)
  {
    var s := Run(Start(memory), before + [Report(n)], key);
    NoReportIsLost(memory, before + [Report(n)], key);
    LoopEndsUnlessStale(s, after, key);
    assert (before + [Report(n)])[..|before|] == before;
    assert s.remote == Some(n);
    assert Lack(s, |s.memory|) <= n;
  }

  /** The other half: in any state whose pass was started for the current report, a stale answer changes nothing, however
      often it comes. */
  lemma {:induction false} StaleAnswersLoopForever(s: State, messages: seq<SignedMessage>, passes: nat, key: PublicKey)
    requires Stale(s, messages) && LoopHead(s) == s
    ensures var events := seq(passes, _ => Downloaded(messages));
            Run(s, events, key) == s && NumMoves(s, events, key) == NumStale(s, events, key) == passes
  {
    var events := seq(passes, _ => Downloaded(messages));
    if passes > 0 {
      StaleAnswersLoopForever(s, messages, passes - 1, key);
      assert events[..passes - 1] == seq(passes - 1, _ => Downloaded(messages)) && events[passes - 1] == Downloaded(messages);
      StaleAnswerRestarts(s, messages, key);
    }
  }

  /** Such a state is reached at once: whatever is held, a report of one message more starts a pass that the first message
      held, sent again, leaves where it is. */
  lemma StaleStateIsReached(memory: seq<SignedMessage>, key: PublicKey)
    requires Chained(memory, key) && memory != []
    ensures var s := Run(Start(memory), [Report(|memory| + 1)], key);
            Stale(s, [memory[0]]) && LoopHead(s) == s
  {
    assert [Report(|memory| + 1)][..0] == [];
    assert Run(Start(memory), [Report(|memory| + 1)], key) == Step(Start(memory), Report(|memory| + 1), key);
    assert Linked(memory, 0, key);
  }

  /** A pass, from its answer to the end of its append, leaves more than it started from exactly if it is not stale, unless
      its append throws. */
  lemma PassRaisesCountIff(s: State, messages: seq<SignedMessage>, key: PublicKey)
    requires Inv(s) && s.phase.Downloading? && |messages| == s.phase.pass.count
    requires !Step(s, Downloaded(messages), key).phase.Abandoned?
    ensures |Run(s, [Downloaded(messages), Appended], key).memory| > s.phase.pass.start <==> !Stale(s, messages)
  {
    RunTwo(s, Downloaded(messages), Appended, key);
    var outcome := AnswerOutcome(s, messages, key);
    PassGrowth(s, outcome, key);
  }

  /** What the append of a full-length answer comes to. */
  lemma AnswerOutcome(s: State, messages: seq<SignedMessage>, key: PublicKey) returns (outcome: AppendOutcome)
    requires Inv(s) && s.phase.Downloading? && |messages| == s.phase.pass.count
    ensures Step(s, Downloaded(messages), key) == Resume(s, outcome)
    ensures outcome.Submitted? ==> outcome.batch != []
    ensures !outcome.Failed? ==> (outcome.Submitted? || |s.memory| > s.phase.pass.start <==> !Stale(s, messages))
    ensures Stale(s, messages) ==> outcome.Nothing?
    ensures outcome.Nothing? ==> Stale(s, messages) || |s.memory| > s.phase.pass.start
  {
    var rest := Drop(messages, Late(s));
    outcome := StartAppend(Some(s.memory), s.busy, rest, key);
    SubmittedIsTrimmed(s.memory, s.busy, rest, key);
    TrimmedAwayIffStale(s, messages);
    ReceivedIsResume(s, messages, key);
  }

  lemma RunTwo(s: State, first: Event, second: Event, key: PublicKey)
    ensures Run(s, [first, second], key) == Step(Step(s, first, key), second, key)
  {
    assert [first, second][..1] == [first] && [first][..0] == [];
    assert Run(s, [first], key) == Step(s, first, key);
  }

  lemma PassGrowth(s: State, outcome: AppendOutcome, key: PublicKey)
    requires Inv(s) && s.phase.Downloading? && !outcome.Failed? && (outcome.Submitted? ==> outcome.batch != [])
    ensures |Step(Resume(s, outcome), Appended, key).memory| > s.phase.pass.start
            <==> outcome.Submitted? || |s.memory| > s.phase.pass.start
  {
  }

  /** A truthful answer, the requested stretch of a chained log that memory is a prefix of, brings memory up to the
      count the pass was started for, so the loop stops unless more was reported meanwhile. */
  lemma TruthfulAnswerCompletes(s: State, log: seq<SignedMessage>, end: nat, t: State, key: PublicKey)
    requires Truthful(s, log, end, key) && t == Received(s, log[s.phase.pass.start..end], key)
    ensures |s.memory| >= end ==> t == LoopHead(s)
    ensures |s.memory| < end ==> t.phase.Appending? && HasCaughtUp(s, Step(t, Appended, key), log[..end])
  {
    if |s.memory| >= end { NothingIsMissing(s, log, end, key); }
    else {
      RestIsAppended(s, log, end, t, key);
      RestCatchesUp(s, t, log, end, key);
    }
  }

  /** Memory holds exactly these messages, and the loop goes on from there with the latest report. */
  predicate HasCaughtUp(s: State, t: State, messages: seq<SignedMessage>) {
    && t.memory == messages && !t.busy && t.remote == s.remote && t.failed == s.failed
    && t.phase == NextPhase(s.remote, |messages|)
  }

  /** A pass for the stretch of the log up to `end`, of which memory is a prefix. */
  predicate Truthful(s: State, log: seq<SignedMessage>, end: nat, key: PublicKey) {
    && Inv(s) && s.phase.Downloading? && !s.busy && Chained(log, key) && s.memory <= log
    && s.phase.pass.start <= |s.memory| && s.phase.pass.start + s.phase.pass.count == end <= |log|
  }

  lemma NothingIsMissing(s: State, log: seq<SignedMessage>, end: nat, key: PublicKey)
    requires Truthful(s, log, end, key) && |s.memory| >= end
    ensures Received(s, log[s.phase.pass.start..end], key) == LoopHead(s)
  {
    TruthfulIsAppended(s, log, end, key);
  }

  lemma RestIsAppended(s: State, log: seq<SignedMessage>, end: nat, t: State, key: PublicKey)
    requires Truthful(s, log, end, key) && |s.memory| < end && t == Received(s, log[s.phase.pass.start..end], key)
    ensures && t.phase.Appending? && t.phase.batch == log[|s.memory|..end]
            && t.memory == s.memory && t.remote == s.remote && t.failed == s.failed
  {
    TruthfulIsAppended(s, log, end, key);
  }

  lemma RestCatchesUp(s: State, t: State, log: seq<SignedMessage>, end: nat, key: PublicKey)
    requires s.memory <= log && |s.memory| < end <= |log|
    requires t.phase.Appending? && t.phase.batch == log[|s.memory|..end]
    requires t.memory == s.memory && t.remote == s.remote && t.failed == s.failed
    ensures HasCaughtUp(s, Step(t, Appended, key), log[..end])
  {
    assert t.memory + t.phase.batch == log[..end];
  }

  lemma ReceivedIsResume(s: State, messages: seq<SignedMessage>, key: PublicKey)
    requires s.phase.Downloading? && |messages| == s.phase.pass.count && s.phase.pass.start <= |s.memory|
    ensures Received(s, messages, key)
         == Resume(s, StartAppend(Some(s.memory), s.busy, Drop(messages, Late(s)), key))
  {
  }

  predicate AppendsRest(outcome: AppendOutcome, memory: seq<SignedMessage>, log: seq<SignedMessage>, end: nat)
    requires end <= |log|
  {
    if |memory| >= end then outcome.Nothing? else outcome.Submitted? && outcome.batch == log[|memory|..end]
  }

  lemma TruthfulIsAppended(s: State, log: seq<SignedMessage>, end: nat, key: PublicKey)
    requires s.phase.Downloading? && !s.busy && Chained(log, key) && s.memory <= log
    requires s.phase.pass.start <= |s.memory| && s.phase.pass.start <= end <= |log|
    ensures AppendsRest(StartAppend(Some(s.memory), s.busy, Drop(log[s.phase.pass.start..end], Late(s)), key), s.memory, log, end)
  {
    var rest := Drop(log[s.phase.pass.start..end], Late(s));
    if |s.memory| >= end {
      assert rest == [] && Trim(rest, |s.memory|) == [];
      SubmittedIsTrimmed(s.memory, s.busy, rest, key);
    } else {
      assert rest == log[|s.memory|..end];
      RestIsSubmitted(s.memory, log, end, key);
    }
  }

  /** What memory lacks of a chained log is appended as it is. */
  lemma RestIsSubmitted(memory: seq<SignedMessage>, log: seq<SignedMessage>, end: nat, key: PublicKey)
    requires Chained(log, key) && memory <= log && |memory| < end <= |log|
    ensures StartAppend(Some(memory), false, log[|memory|..end], key) == Submitted(log[|memory|..end])
  {
    var rest := log[|memory|..end];
    OverlapIsTrimmed(log, |memory|, end, |memory|, key);
    assert memory + rest == log[..end];
    PrefixOfChained(log, end, key);
    PrefixOfChained(log, |memory|, key);
    assert log[..|memory|] == memory;
    StartAppendOverChain(memory, false, rest, key);
  }

  // ---- The downloader object

  class RemoteSubfeedMessageDownloader {
    const subfeed: Subfeed
    var numRemoteMessages: Option<nat>
    var activeDownload: bool
    var phase: Phase
    ghost var failed: bool

    ghost predicate Valid()
      reads this, subfeed
    {
      subfeed.signedMessages.Some? && activeDownload == !phase.Off? && Inv(Model())
    }

    ghost function Model(): State
      reads this, subfeed
      requires subfeed.signedMessages.Some?
    {
      State(subfeed.signedMessages.value, subfeed.appending, numRemoteMessages, phase, failed)
    }

    constructor (subfeed: Subfeed)
      requires subfeed.signedMessages.Some? && !subfeed.appending
      ensures Valid() && this.subfeed == subfeed && Model() == Start(subfeed.signedMessages.value)
    {
      this.subfeed := subfeed;
      numRemoteMessages, activeDownload, phase, failed := None, false, Off, false;
    }

    method ReportNumRemoteMessages(numRemote: nat)
      requires Valid()
      modifies this
      ensures Valid() && Model() == Step(old(Model()), Report(numRemote), subfeed.publicKey)
    {
      failed := false;
      numRemoteMessages := Some(numRemote);
      if |subfeed.signedMessages.value| < numRemote {
        if !activeDownload { NextPass(); }
      }
    }

    /** The loop from its head to the await of the download. */
    method NextPass()
      requires subfeed.signedMessages.Some?
      modifies this`activeDownload, this`phase
      ensures Model() == LoopHead(old(Model())) && activeDownload == !phase.Off?
    {
      var numLocalMessages := |subfeed.signedMessages.value|;
      if numRemoteMessages.None? || numRemoteMessages.value - numLocalMessages <= 0 {
        activeDownload, phase := false, Off;
        return;
      }
      activeDownload, phase := true, Downloading(Pass(numLocalMessages, numRemoteMessages.value - numLocalMessages));
    }

    /** The loop from the arrival of a download to the await of the append, or to the next pass. */
    method OnDownloaded(messages: seq<SignedMessage>)
      requires Valid() && phase.Downloading?
      modifies this, subfeed`appending
      ensures Valid() && Model() == Step(old(Model()), Downloaded(messages), subfeed.publicKey)
    {
      StepInv(Model(), Downloaded(messages), subfeed.publicKey);
      var pass := phase.pass;
      if |messages| != pass.count {
        failed, activeDownload, phase := true, false, Off;
        return;
      }
      var toAppend := Drop(messages, |subfeed.signedMessages.value| - pass.start);
      var outcome := subfeed.AppendSignedMessages(toAppend);
      match outcome
      case Nothing => NextPass();
      case Submitted(b) => phase := Appending(b);
      case Failed(_) => phase := Abandoned;
    }

    method OnDownloadFailed()
      requires Valid() && phase.Downloading?
      modifies this
      ensures Valid() && Model() == Step(old(Model()), DownloadFailed, subfeed.publicKey)
    {
      failed, activeDownload, phase := true, false, Off;
    }

    method OnAppended()
      requires Valid() && phase.Appending?
      modifies this, subfeed`signedMessages, subfeed`appending
      ensures Valid() && Model() == Step(old(Model()), Appended, subfeed.publicKey)
    {
      subfeed.FinishAppend(phase.batch);
      NextPass();
    }
  }
}
