/** What each event does to the follower's download loop, in every run: a report brings what it reports, and a failure ends
    the loop, or leaves it abandoned for good. */
module DownloaderProgress {
  import opened Wrappers
  import opened SignedChain
  import opened MessageDownloader
  import S = Subfeeds

  lemma RunOneMore(s: State, events: seq<Event>, e: Event, key: PublicKey)
    ensures Run(s, events + [e], key) == Step(Run(s, events, key), e, key)
  {
    assert (events + [e])[..|events|] == events;
  }

  /** A report is remembered in every state, and starts a download of exactly what is missing if and only if something is
      and none is going on. */
  lemma ReportStartsIff(memory: seq<SignedMessage>, events: seq<Event>, n: nat, key: PublicKey)
    ensures var s, t := Run(Start(memory), events, key), Run(Start(memory), events + [Report(n)], key);
            && t.remote == Some(n) && !t.failed && t.memory == s.memory && t.busy == s.busy
            && t.phase == if s.phase.Off? && |s.memory| < n then Downloading(Pass(|s.memory|, n - |s.memory|)) else s.phase
  {
    RunOneMore(Start(memory), events, Report(n), key);
  }

  /** A pass is under way for the log up to `end`, of which memory is a prefix with something still missing. */
  predicate AwaitsAnswer(s: State, log: seq<SignedMessage>, end: nat, key: PublicKey) {
    && s.phase.Downloading? && !s.busy && Chained(log, key) && s.memory <= log && |s.memory| < end <= |log|
    && s.phase.pass.start <= |s.memory| && s.phase.pass.start + s.phase.pass.count == end
  }

  /** Memory holds these messages and the loop has gone on for the report it last got. */
  predicate GoesOn(t: State, messages: seq<SignedMessage>, remote: Option<nat>) {
    && t.memory == messages && !t.busy && t.remote == remote
    && (remote.Some? && remote.value > |messages| ==> t.phase == Downloading(Pass(|messages|, remote.value - |messages|)))
    && (remote.None? || remote.value <= |messages| ==> t.phase.Off?)
  }

  /** In every run, a truthful answer and its append bring memory to the end of the pass; the loop goes on for what was
      reported meanwhile, and otherwise stops. */
  lemma AnswerIsAppended(memory: seq<SignedMessage>, events: seq<Event>, log: seq<SignedMessage>, end: nat, s: State, key: PublicKey)
    requires s == Run(Start(memory), events, key) && AwaitsAnswer(s, log, end, key)
    ensures var t := Run(Start(memory), events + [Downloaded(log[s.phase.pass.start..end])] + [Appended], key);
            GoesOn(t, log[..end], s.remote) && t.failed == s.failed
  {
    NoReportIsLost(memory, events, key);
    var answer := log[s.phase.pass.start..end];
    RunOneMore(Start(memory), events, Downloaded(answer), key);
    RunOneMore(Start(memory), events + [Downloaded(answer)], Appended, key);
    TruthfulAnswerCompletes(s, log, end, Received(s, answer, key), key);
  }

  /** From any run at rest: a report of a longer log, a truthful answer and its append leave exactly that log in memory. */
  lemma ReportIsDownloaded(memory: seq<SignedMessage>, events: seq<Event>, log: seq<SignedMessage>, n: nat, s: State, key: PublicKey)
    requires s == Run(Start(memory), events, key) && s.phase.Off? && !s.busy
    requires Chained(log, key) && s.memory <= log && |s.memory| < n <= |log|
    ensures var t := Run(Start(memory), events + [Report(n)] + [Downloaded(log[|s.memory|..n])] + [Appended], key);
            GoesOn(t, log[..n], Some(n)) && !t.failed
  {
    ReportStartsIff(memory, events, n, key);
    AnswerIsAppended(memory, events + [Report(n)], log, n, Run(Start(memory), events + [Report(n)], key), key);
  }

  /** In every run, a download that fails or brings another number of messages than asked for ends the loop and changes
      nothing in memory; the next report of something missing starts over. */
  lemma FailedPassEnds(memory: seq<SignedMessage>, events: seq<Event>, e: Event, n: nat, s: State, key: PublicKey)
    requires s == Run(Start(memory), events, key) && s.phase.Downloading? && |s.memory| < n
    requires e.DownloadFailed? || (e.Downloaded? && |e.messages| != s.phase.pass.count)
    ensures Run(Start(memory), events + [e], key) == State(s.memory, s.busy, s.remote, Off, true)
    ensures Run(Start(memory), events + [e] + [Report(n)], key).phase == Downloading(Pass(|s.memory|, n - |s.memory|))
  {
    RunOneMore(Start(memory), events, e, key);
    ReportStartsIff(memory, events + [e], n, key);
  }

  /** In every run, an append that fails, or that refuses the answer, abandons the loop for good: memory keeps what it has
      and grows by what others append only, and no report ever starts a download again. */
  lemma {:induction false} AbandonedForGood(memory: seq<SignedMessage>, before: seq<Event>, after: seq<Event>, key: PublicKey)
    ensures Run(Start(memory), before, key).phase.Appending? ==>
              var s, t := Run(Start(memory), before, key), Run(Start(memory), before + [AppendFailed], key);
              t == State(s.memory, s.busy, s.remote, Abandoned, s.failed)
    ensures Run(Start(memory), before, key).phase.Abandoned? ==> Run(Start(memory), before + after, key).phase.Abandoned?
    decreases |after|
  {
    RunOneMore(Start(memory), before, AppendFailed, key);
    if after == [] {
      assert before + after == before;
    } else {
      var init, e := after[..|after| - 1], after[|after| - 1];
      AbandonedForGood(memory, before, init, key);
      assert before + after == before + init + [e];
      RunOneMore(Start(memory), before + init, e, key);
    }
  }

  /** A full-length answer that lies beyond memory and does not continue its chain is refused, and the loop abandoned. */
  lemma FalseAnswerAbandons(memory: seq<SignedMessage>, events: seq<Event>, messages: seq<SignedMessage>, s: State, key: PublicKey)
    requires s == Run(Start(memory), events, key) && s.phase.Downloading? && |messages| == s.phase.pass.count
    requires |s.memory| == s.phase.pass.start && Chained(s.memory, key)
    requires Trim(messages, |s.memory|) != [] && !Chained(s.memory + Trim(messages, |s.memory|), key)
    ensures Run(Start(memory), events + [Downloaded(messages)], key) == State(s.memory, s.busy, s.remote, Abandoned, s.failed)
  {
    RunOneMore(Start(memory), events, Downloaded(messages), key);
    ReceivedIsResume(s, messages, key);
    assert Drop(messages, 0) == messages;
    Refused(s.memory, s.busy, messages, key);
  }

  lemma Refused(memory: seq<SignedMessage>, busy: bool, messages: seq<SignedMessage>, key: PublicKey)
    requires Chained(memory, key) && Trim(messages, |memory|) != [] && !Chained(memory + Trim(messages, |memory|), key)
    ensures S.StartAppend(Some(memory), busy, messages, key).Failed?
  {
    S.AppendRefusals(memory, busy, messages, key);
  }

  /** An answer that comes while another append is in progress abandons the loop, however truthful it is. */
  lemma BusyAnswerAbandons(memory: seq<SignedMessage>, events: seq<Event>, log: seq<SignedMessage>, end: nat, s: State, key: PublicKey)
    requires s == Run(Start(memory), events, key) && s.busy && AwaitsAnswer(s.(busy := false), log, end, key)
    ensures Run(Start(memory), events + [Downloaded(log[s.phase.pass.start..end])], key)
         == State(s.memory, true, s.remote, Abandoned, s.failed)
  {
    var answer := log[s.phase.pass.start..end];
    RunOneMore(Start(memory), events, Downloaded(answer), key);
    ReceivedIsResume(s, answer, key);
    assert Drop(answer, Late(s)) == log[|s.memory|..end];
    RestIsRefused(s.memory, log, end, key);
  }

  lemma RestIsRefused(memory: seq<SignedMessage>, log: seq<SignedMessage>, end: nat, key: PublicKey)
    requires Chained(log, key) && memory <= log && |memory| < end <= |log|
    ensures S.StartAppend(Some(memory), true, log[|memory|..end], key).Failed?
  {
    var rest := log[|memory|..end];
    OverlapIsTrimmed(log, |memory|, end, |memory|, key);
    assert memory + rest == log[..end];
    PrefixOfChained(log, end, key);
    PrefixOfChained(log, |memory|, key);
    assert log[..|memory|] == memory;
    S.AppendRefusals(memory, true, rest, key);
  }

  /** Another append marks the subfeed busy, and adds its batch when it ends. */
  lemma OthersAppend(memory: seq<SignedMessage>, events: seq<Event>, batch: seq<SignedMessage>, key: PublicKey)
    ensures var s, t := Run(Start(memory), events, key), Run(Start(memory), events + [OtherBegins], key);
            t == State(s.memory, true, s.remote, s.phase, s.failed)
    ensures var s, t := Run(Start(memory), events, key), Run(Start(memory), events + [OtherEnds(batch)], key);
            t == if s.busy && !s.phase.Appending? then State(s.memory + batch, false, s.remote, s.phase, s.failed) else s
  {
    RunOneMore(Start(memory), events, OtherBegins, key);
    RunOneMore(Start(memory), events, OtherEnds(batch), key);
  }
}
