/** One download: rounds of searching for providers and trying them one after the other, the fastest first, until one
    download ends well or the retries are used up. */
module DownloadJobs {
  import opened Wrappers

  const FirstWaitMsec := 500

  // ---- Choosing a provider

  /** The first of the greatest. */
  function ArgMax(rates: seq<real>): (best: nat)
    requires rates != []
    ensures best < |rates|
    ensures forall i :: 0 <= i < |rates| ==> rates[i] <= rates[best]
    ensures forall i :: 0 <= i < best ==> rates[i] < rates[best]
  {
    if |rates| == 1 then 0
    else
      var best := ArgMax(rates[..|rates| - 1]);
      if rates[|rates| - 1] > rates[best] then |rates| - 1 else best
  }

  function RatesOf(providers: seq<string>, rate: string -> real): (r: seq<real>)
    ensures |r| == |providers| && forall i :: 0 <= i < |r| ==> r[i] == rate(providers[i])
  {
    seq(|providers|, i requires 0 <= i < |providers| => rate(providers[i]))
  }

  function Fastest(providers: seq<string>, rate: string -> real): (best: string)
    requires providers != []
    ensures best in providers && forall p :: p in providers ==> rate(p) <= rate(best)
  {
    var rates := RatesOf(providers, rate);
    assert forall i :: 0 <= i < |providers| ==> rates[i] <= rates[ArgMax(rates)];
    providers[ArgMax(rates)]
  }

  function NonBusy(candidates: seq<string>, busy: set<string>): (r: seq<string>)
    ensures forall p :: p in r <==> p in candidates && p !in busy
  {
    if candidates == [] then []
    else
      var last := candidates[|candidates| - 1];
      assert candidates == candidates[..|candidates| - 1] + [last];
      NonBusy(candidates[..|candidates| - 1], busy) + if last in busy then [] else [last]
  }

  function Drop(candidates: seq<string>, p: string): seq<string> {
    if candidates == [] then []
    else if candidates[0] == p then candidates[1..]
    else [candidates[0]] + Drop(candidates[1..], p)
  }

  lemma {:induction false} DropTakesOne(candidates: seq<string>, p: string)
    requires p in candidates
    ensures |Drop(candidates, p)| == |candidates| - 1
    ensures multiset(Drop(candidates, p)) == multiset(candidates) - multiset{p}
  {
    assert candidates == [candidates[0]] + candidates[1..];
    if candidates[0] != p { DropTakesOne(candidates[1..], p); }
  }

  lemma {:induction false} DropAddsNothing(candidates: seq<string>, p: string)
    ensures forall q :: q in Drop(candidates, p) ==> q in candidates
  {
    if candidates != [] && candidates[0] != p { DropAddsNothing(candidates[1..], p); }
  }

  // ---- The state machine

  /** What the program looks up when it decides: the time since the job started, the providers busy with other
      downloads, and the estimated rates. */
  datatype Env = Env(elapsed: nat, busy: set<string>, rate: string -> real)

  /** The variables of one round. Candidates are in the order they were found. The reported and the tried providers
      are kept for the record; timers counts the pending calls of update. */
  datatype Round = Round(
    findFinished: bool,
    somethingFound: bool,
    candidates: seq<string>,
    current: Option<string>,
    lastError: Option<string>,
    complete: bool,
    timers: nat,
    reported: seq<string>,
    tried: seq<string>
  )

  const NewRound := Round(false, false, [], None, None, false, 0, [], [])

  datatype Outcome = Finished | Failed(message: string)

  datatype Job = Job(retriesLeft: int, number: nat, round: Round, retryPending: bool, outcome: Option<Outcome>)

  datatype Event =
    | Found(number: nat, provider: string, env: Env)
    | FindFinished(number: nat, env: Env)
    | UpdateTimer(number: nat, env: Env)
    | DownloadFails(message: string, env: Env)
    | DownloadEnds
    | RetryTimer

  function AddCandidate(candidates: seq<string>, p: string): seq<string> {
    if p in candidates then candidates else candidates + [p]
  }

  function WhyFailed(r: Round): string {
    match r.lastError
    case Some(message) => message
    case None => if !r.somethingFound then "File not found" else "Problem in download"
  }

  function GiveUp(j: Job): Job {
    var r := j.round.(complete := true);
    if j.retriesLeft <= 0 || !r.somethingFound then j.(round := r, outcome := Some(Failed(WhyFailed(r))))
    else j.(round := r, retriesLeft := j.retriesLeft - 1, retryPending := true)
  }

  function Update(j: Job, env: Env): Job {
    var r := j.round;
    if r.complete || r.current.Some? then j
    else if r.candidates == [] then
      if r.findFinished then GiveUp(j) else j
    else j.(round := TryCandidate(r, env))
  }

  /** Waits half a second for more providers, and for busy ones as long as it takes. */
  function TryCandidate(r: Round, env: Env): Round {
    if (!r.findFinished && env.elapsed < FirstWaitMsec) || NonBusy(r.candidates, env.busy) == [] then r.(timers := r.timers + 1)
    else
      var p := Fastest(NonBusy(r.candidates, env.busy), env.rate);
      r.(candidates := Drop(r.candidates, p), current := Some(p), tried := r.tried + [p])
  }

  /** A report as recorded before the update. */
  function Record(r: Round, p: string): Round {
    r.(somethingFound := true, reported := r.reported + [p], candidates := AddCandidate(r.candidates, p))
  }

  /** Whether a round's callbacks still have an effect. */
  predicate Open(j: Job, number: nat) {
    number == j.number && !j.round.complete
  }

  function Step(j: Job, e: Event): Job {
    var r := j.round;
    match e
    case Found(n, p, env) =>
      if !Open(j, n) then j
      else Update(j.(round := Record(r, p)), env)
    case FindFinished(n, env) => if !Open(j, n) then j else Update(j.(round := r.(findFinished := true)), env)
    case UpdateTimer(n, env) =>
      if n != j.number || r.timers == 0 then j else Update(j.(round := r.(timers := r.timers - 1)), env)
    case DownloadFails(message, env) =>
      if r.complete || r.current.None? then j
      else Update(j.(round := r.(current := None, lastError := Some(message))), env)
    case DownloadEnds =>
      if r.complete || r.current.None? then j else j.(round := r.(complete := true), outcome := Some(Finished))
    case RetryTimer =>
      if j.retryPending then j.(number := j.number + 1, round := NewRound, retryPending := false) else j
  }

  function Start(numRetries: int): Job { Job(numRetries, 0, NewRound, false, None) }

  function RunOf(numRetries: int, events: seq<Event>): Job {
    if events == [] then Start(numRetries) else Step(RunOf(numRetries, events[..|events| - 1]), events[|events| - 1])
  }

  // ---- The invariant

  /** Every report is a try, a candidate, or a repetition of a candidate. */
  ghost predicate Accounted(r: Round) {
    && multiset(r.tried) + multiset(r.candidates) <= multiset(r.reported)
    && (forall p :: p in r.reported ==> p in r.tried || p in r.candidates)
    && (r.somethingFound <==> r.reported != [])
  }

  /** An open round waits for something: the search, a timer or a download. */
  predicate Waits(r: Round) {
    !r.complete && r.current.None? ==> if r.candidates == [] then !r.findFinished else r.timers > 0
  }

  /** Every try but the current one has failed. */
  predicate Blamed(r: Round) {
    && (r.current.Some? ==> r.tried != [] && r.tried[|r.tried| - 1] == r.current.value)
    && (r.current.None? && r.tried != [] ==> r.lastError.Some?)
    && (r.lastError.Some? ==> r.tried != [])
  }

  /** A round gives up when the search has finished and nothing is left to try. */
  predicate GivenUp(r: Round) {
    r.complete && r.findFinished && r.candidates == [] && r.current.None?
  }

  predicate Closed(j: Job) {
    && (j.round.complete <==> j.retryPending || j.outcome.Some?)
    && (j.retryPending ==> GivenUp(j.round) && j.round.somethingFound && j.outcome.None?)
    && match j.outcome
       case Some(Failed(m)) => GivenUp(j.round) && (j.retriesLeft <= 0 || !j.round.somethingFound) && m == WhyFailed(j.round)
       case Some(Finished) => j.round.current.Some?
       case None => true
  }

  predicate RetriesCounted(j: Job, numRetries: int) {
    && j.number + j.retriesLeft + (if j.retryPending then 1 else 0) == numRetries
    && (j.number > 0 || j.retryPending ==> j.retriesLeft >= 0)
  }

  ghost predicate Inv(j: Job, numRetries: int) {
    Accounted(j.round) && Waits(j.round) && Blamed(j.round) && Closed(j) && RetriesCounted(j, numRetries)
  }

  /** Everything but the wait, which an update restores. */
  ghost predicate AlmostInv(j: Job, numRetries: int) {
    Accounted(j.round) && Blamed(j.round) && Closed(j) && RetriesCounted(j, numRetries)
  }

  lemma UpdateInv(j: Job, env: Env, numRetries: int)
    requires AlmostInv(j, numRetries) && (j.round.complete ==> Waits(j.round))
    ensures Inv(Update(j, env), numRetries)
  {
    var r := j.round;
    if r.complete || r.current.Some? {
    } else if r.candidates == [] {
      GiveUpInv(j, numRetries);
    } else if Update(j, env).round.current.Some? {
      TryInv(j, Update(j, env).round.current.value, numRetries);
    }
  }

  lemma GiveUpInv(j: Job, numRetries: int)
    requires AlmostInv(j, numRetries) && !j.round.complete && j.round.current.None? && j.round.candidates == []
    ensures j.round.findFinished ==> Inv(GiveUp(j), numRetries)
  {}

  lemma TryInv(j: Job, p: string, numRetries: int)
    requires AlmostInv(j, numRetries) && !j.round.complete && p in j.round.candidates
    ensures Inv(j.(round := j.round.(candidates := Drop(j.round.candidates, p), current := Some(p), tried := j.round.tried + [p])), numRetries)
  {
    TriedAccounted(j.round, p);
  }

  lemma TriedAccounted(r: Round, p: string)
    requires Accounted(r) && p in r.candidates
    ensures Accounted(r.(candidates := Drop(r.candidates, p), current := Some(p), tried := r.tried + [p]))
  {
    var candidates, tried := Drop(r.candidates, p), r.tried + [p];
    DropTakesOne(r.candidates, p);
    assert multiset(tried) == multiset(r.tried) + multiset{p};
    assert multiset(tried) + multiset(candidates) == multiset(r.tried) + multiset(r.candidates);
    forall q | q in r.candidates ensures q in tried || q in candidates {
      assert q in multiset(r.candidates);
      if q != p { assert q in multiset(candidates); }
    }
  }

  lemma FoundAccounted(r: Round, p: string)
    requires Accounted(r)
    ensures Accounted(Record(r, p))
  {
    assert multiset(r.reported + [p]) == multiset(r.reported) + multiset{p};
    assert multiset(r.candidates + [p]) == multiset(r.candidates) + multiset{p};
  }

  lemma FoundInv(j: Job, n: nat, p: string, env: Env, numRetries: int)
    requires Inv(j, numRetries)
    ensures Inv(Step(j, Found(n, p, env)), numRetries)
  {
    if Open(j, n) {
      FoundAccounted(j.round, p);
      UpdateInv(j.(round := Record(j.round, p)), env, numRetries);
    }
  }

  lemma FindFinishedInv(j: Job, n: nat, env: Env, numRetries: int)
    requires Inv(j, numRetries)
    ensures Inv(Step(j, FindFinished(n, env)), numRetries)
  {
    if Open(j, n) { UpdateInv(j.(round := j.round.(findFinished := true)), env, numRetries); }
  }

  lemma UpdateTimerInv(j: Job, n: nat, env: Env, numRetries: int)
    requires Inv(j, numRetries)
    ensures Inv(Step(j, UpdateTimer(n, env)), numRetries)
  {
    if n == j.number && j.round.timers > 0 { UpdateInv(j.(round := j.round.(timers := j.round.timers - 1)), env, numRetries); }
  }

  lemma DownloadFailsInv(j: Job, message: string, env: Env, numRetries: int)
    requires Inv(j, numRetries)
    ensures Inv(Step(j, DownloadFails(message, env)), numRetries)
  {
    if !j.round.complete && j.round.current.Some? {
      UpdateInv(j.(round := j.round.(current := None, lastError := Some(message))), env, numRetries);
    }
  }

  lemma SettleInv(j: Job, e: Event, numRetries: int)
    requires Inv(j, numRetries) && (e.DownloadEnds? || e.RetryTimer?)
    ensures Inv(Step(j, e), numRetries)
  {
  }

  lemma StepInv(j: Job, e: Event, numRetries: int)
    requires Inv(j, numRetries)
    ensures Inv(Step(j, e), numRetries)
  {
    match e
    case Found(n, p, env) => FoundInv(j, n, p, env, numRetries);
    case FindFinished(n, env) => FindFinishedInv(j, n, env, numRetries);
    case UpdateTimer(n, env) => UpdateTimerInv(j, n, env, numRetries);
    case DownloadFails(message, env) => DownloadFailsInv(j, message, env, numRetries);
    case _ => SettleInv(j, e, numRetries);
  }

  lemma {:induction false} RunInv(numRetries: int, events: seq<Event>)
    ensures Inv(RunOf(numRetries, events), numRetries)
    decreases |events|
  {
    if events != [] {
      RunInv(numRetries, events[..|events| - 1]);
      StepInv(RunOf(numRetries, events[..|events| - 1]), events[|events| - 1], numRetries);
    }
  }

  // ---- What holds in every run

  /** There are at most as many further rounds as retries, and a provider is tried in a round at most as often as it was
      reported in it; so at most once if it was reported once. */
  lemma {:induction false} RoundsAndTriesAreBounded(numRetries: int, events: seq<Event>, p: string)
    ensures var j := RunOf(numRetries, events);
            && (j.number == 0 || j.number <= numRetries)
            && multiset(j.round.tried)[p] <= multiset(j.round.reported)[p]
  {
    RunInv(numRetries, events);
  }

  /** A round gives up only after every provider reported in it has been tried. The job then fails exactly if no retry is
      left or nothing was found; it says that the file was not found exactly if nothing was reported, and otherwise
      repeats an error of a downloader. */
  lemma {:induction false} FailsOnlyAfterTryingAll(numRetries: int, events: seq<Event>)
    ensures var j := RunOf(numRetries, events);
            j.retryPending || (j.outcome.Some? && j.outcome.value.Failed?) ==>
              && j.round.findFinished
              && (forall p :: p in j.round.reported <==> p in j.round.tried)
              && (j.outcome.Some? <==> j.number >= numRetries || j.round.reported == [])
              && (j.outcome.Some? ==> if j.round.reported == [] then j.outcome.value == Failed("File not found")
                                      else j.round.lastError.Some? && j.outcome.value == Failed(j.round.lastError.value))
  {
    RunInv(numRetries, events);
    var j := RunOf(numRetries, events);
    forall p | p in j.round.tried ensures p in j.round.reported {
      assert p in multiset(j.round.tried) && p in multiset(j.round.reported);
    }
    assert j.round.candidates == [] && j.round.reported != [] ==> j.round.reported[0] in j.round.tried;
    assert j.round.reported == [] ==> multiset(j.round.tried) <= multiset{} && |multiset(j.round.tried)| == 0;
  }

  /** The terminal signal is given at most once and nothing comes after it: no step changes anything but the number of
      idle timers. */
  lemma {:induction false} OutcomeIsFinal(numRetries: int, events: seq<Event>, e: Event)
    requires RunOf(numRetries, events).outcome.Some?
    ensures var j, t := RunOf(numRetries, events), RunOf(numRetries, events + [e]);
            t == j.(round := j.round.(timers := t.round.timers))
  {
    RunInv(numRetries, events);
    assert (events + [e])[..|events + [e]| - 1] == events;
  }

  predicate EndsDownload(j: Job, e: Event) {
    e.DownloadEnds? && !j.round.complete && j.round.current.Some?
  }

  predicate SomeDownloadEnded(numRetries: int, events: seq<Event>) {
    exists k :: 0 <= k < |events| && EndsDownload(RunOf(numRetries, events[..k]), events[k])
  }

  lemma SomeDownloadEndedInit(numRetries: int, events: seq<Event>)
    requires events != []
    ensures var init := events[..|events| - 1];
            SomeDownloadEnded(numRetries, events) <==>
            SomeDownloadEnded(numRetries, init) || EndsDownload(RunOf(numRetries, init), events[|events| - 1])
  {
    var init := events[..|events| - 1];
    forall k | 0 <= k < |init| ensures init[..k] == events[..k] && init[k] == events[k] {}
    if SomeDownloadEnded(numRetries, init) {
      var k :| 0 <= k < |init| && EndsDownload(RunOf(numRetries, init[..k]), init[k]);
      assert EndsDownload(RunOf(numRetries, events[..k]), events[k]);
    }
    if SomeDownloadEnded(numRetries, events) {
      var k :| 0 <= k < |events| && EndsDownload(RunOf(numRetries, events[..k]), events[k]);
      assert k < |init| ==> EndsDownload(RunOf(numRetries, init[..k]), init[k]);
    }
  }

  /** The job succeeds exactly if one of its downloads ended well. */
  lemma {:induction false} SucceedsIffADownloadEnds(numRetries: int, events: seq<Event>)
    ensures RunOf(numRetries, events).outcome == Some(Finished) <==> SomeDownloadEnded(numRetries, events)
    decreases |events|
  {
    if events != [] {
      var init := events[..|events| - 1];
      SucceedsIffADownloadEnds(numRetries, init);
      RunInv(numRetries, init);
      OnlyEndsSucceed(RunOf(numRetries, init), events[|events| - 1], numRetries);
      SomeDownloadEndedInit(numRetries, events);
    }
  }

  lemma OnlyEndsSucceed(j: Job, e: Event, numRetries: int)
    requires Inv(j, numRetries)
    ensures Step(j, e).outcome == Some(Finished) <==> j.outcome == Some(Finished) || EndsDownload(j, e)
  {}

  /** A download starts only when none is going on, from a provider that is free and at least as fast as every free
      candidate. */
  lemma FastestFreeProviderStarts(j: Job, e: Event)
    requires !e.DownloadEnds? && !e.RetryTimer? && Step(j, e).round.tried != j.round.tried
    ensures var t := Step(j, e).round;
            && (j.round.current.None? || e.DownloadFails?)
            && t.current.Some? && t.tried == j.round.tried + [t.current.value]
            && t.current.value !in e.env.busy
            && forall p :: p in t.candidates && p !in e.env.busy ==> e.env.rate(p) <= e.env.rate(t.current.value)
  {
    var r := j.round;
    match e
    case Found(n, p, env) =>
      FastestIsTried(j.(round := Record(r, p)), env);
    case FindFinished(n, env) => FastestIsTried(j.(round := r.(findFinished := true)), env);
    case UpdateTimer(n, env) => if r.timers > 0 { FastestIsTried(j.(round := r.(timers := r.timers - 1)), env); }
    case DownloadFails(message, env) => FastestIsTried(j.(round := r.(current := None, lastError := Some(message))), env);
  }

  lemma FastestIsTried(j: Job, env: Env)
    ensures var t := Update(j, env).round;
            t.tried != j.round.tried ==>
              && j.round.current.None? && t.current.Some? && t.tried == j.round.tried + [t.current.value]
              && t.current.value !in env.busy
              && forall p :: p in t.candidates && p !in env.busy ==> env.rate(p) <= env.rate(t.current.value)
  {
    var r := j.round;
    if !r.complete && r.current.None? && r.candidates != [] {
      var free := NonBusy(r.candidates, env.busy);
      var t := TryCandidate(r, env);
      if free != [] && t.tried != r.tried {
        DropAddsNothing(r.candidates, t.current.value);
        forall p | p in t.candidates && p !in env.busy ensures env.rate(p) <= env.rate(t.current.value) {
          assert p in r.candidates && p in free;
        }
      }
    }
  }

  /** Until the outcome is known something is always pending that can move the job on. */
  lemma NeverStuck(numRetries: int, events: seq<Event>)
    ensures var j := RunOf(numRetries, events);
            j.outcome.None? ==>
              j.retryPending || j.round.current.Some? || !j.round.findFinished || (j.round.candidates != [] && j.round.timers > 0)
  {
    RunInv(numRetries, events);
  }

  // ---- When a download starts

  /** The event is decided on: its round is open and, once the event has happened, nothing is being downloaded. */
  predicate Decides(j: Job, e: Event) {
    !j.round.complete
    && match e
       case Found(n, _, _) => n == j.number && j.round.current.None?
       case FindFinished(n, _) => n == j.number && j.round.current.None?
       case UpdateTimer(n, _) => n == j.number && j.round.current.None? && j.round.timers > 0
       case DownloadFails(_, _) => j.round.current.Some?
       case DownloadEnds => false
       case RetryTimer => false
  }

  /** The providers known once the event has happened, and whether the search is over then. */
  function Choice(j: Job, e: Event): seq<string> {
    if e.Found? && e.provider !in j.round.candidates then j.round.candidates + [e.provider] else j.round.candidates
  }

  predicate SearchOver(j: Job, e: Event) {
    j.round.findFinished || e.FindFinished?
  }

  predicate SomeFree(providers: seq<string>, busy: set<string>) {
    exists p :: p in providers && p !in busy
  }

  /** In every state: an event that is decided on starts a download if and only if a provider is free and the search is
      over or half a second has passed. With providers but no start a timer is set; without any, the round is given up if
      and only if the search is over. */
  lemma StartsIff(j: Job, e: Event)
    requires Decides(j, e)
    ensures var t := Step(j, e);
            && (t.round.tried != j.round.tried <==>
                  (SearchOver(j, e) || e.env.elapsed >= 500) && SomeFree(Choice(j, e), e.env.busy))
            && (Choice(j, e) != [] && t.round.tried == j.round.tried ==>
                  t.round.timers == j.round.timers + if e.UpdateTimer? then 0 else 1)
            && (t.round.complete <==> Choice(j, e) == [] && SearchOver(j, e))
  {
    var r := j.round;
    match e
    case Found(n, p, env) => UpdateStartsIff(j.(round := Record(r, p)), env);
    case FindFinished(n, env) => UpdateStartsIff(j.(round := r.(findFinished := true)), env);
    case UpdateTimer(n, env) => UpdateStartsIff(j.(round := r.(timers := r.timers - 1)), env);
    case DownloadFails(message, env) => UpdateStartsIff(j.(round := r.(current := None, lastError := Some(message))), env);
  }

  lemma UpdateStartsIff(j: Job, env: Env)
    requires !j.round.complete && j.round.current.None?
    ensures var t := Update(j, env);
            && (t.round.tried != j.round.tried <==>
                  (j.round.findFinished || env.elapsed >= 500) && SomeFree(j.round.candidates, env.busy))
            && (j.round.candidates != [] && t.round.tried == j.round.tried ==> t.round.timers == j.round.timers + 1)
            && (t.round.complete <==> j.round.candidates == [] && j.round.findFinished)
  {
    SomeFreeIff(j.round.candidates, env.busy);
  }

  lemma SomeFreeIff(candidates: seq<string>, busy: set<string>)
    ensures SomeFree(candidates, busy) <==> NonBusy(candidates, busy) != []
  {
    var free := NonBusy(candidates, busy);
    if free != [] {
      assert free[0] in free;
      assert SomeFree(candidates, busy);
    }
  }

  /** Once the search has finished or half a second has passed, the pending timer starts a download if a candidate is free. */
  lemma {:induction false} TimerStartsFreeCandidate(numRetries: int, events: seq<Event>, env: Env)
    requires var j := RunOf(numRetries, events);
             && j.outcome.None? && !j.retryPending && j.round.current.None?
             && (j.round.findFinished || env.elapsed >= 500) && SomeFree(j.round.candidates, env.busy)
    ensures var j := RunOf(numRetries, events);
            var t := RunOf(numRetries, events + [UpdateTimer(j.number, env)]);
            j.round.timers > 0 && t.round.current.Some? && t.round.current.value in j.round.candidates
  {
    RunInv(numRetries, events);
    var j := RunOf(numRetries, events);
    var e := UpdateTimer(j.number, env);
    assert (events + [e])[..|events + [e]| - 1] == events;
    StartsIff(j, e);
    StartedIsCandidate(j, e, Step(j, e));
  }

  lemma StartedIsCandidate(j: Job, e: Event, t: Job)
    requires e.UpdateTimer? && t == Step(j, e) && t.round.tried != j.round.tried
    ensures t.round.current.Some? && t.round.current.value in j.round.candidates
  {
  }

  // ---- Termination

  /** Steps that get somewhere, as opposed to timers that find nothing to do and repetitions that come too late. */
  predicate Productive(j: Job, e: Event) {
    match e
    case Found(n, _, _) => Open(j, n)
    case FindFinished(n, _) => Open(j, n) && !j.round.findFinished
    case UpdateTimer(_, _) => Step(j, e).round.tried != j.round.tried
    case DownloadFails(_, _) => !j.round.complete && j.round.current.Some?
    case DownloadEnds => !j.round.complete && j.round.current.Some?
    case RetryTimer => j.retryPending
  }

  /** With at most this many reports in a round. */
  function RoundPotential(j: Job, reports: nat): int {
    if j.outcome.Some? then 0
    else if j.retryPending then 3 * reports + 2
    else 3 * (reports - |j.round.reported|) + 2 * |j.round.candidates|
         + (if j.round.current.Some? then 1 else 0) + if j.round.findFinished then 0 else 1
  }

  function Potential(j: Job, reports: nat): int {
    Reserve(j.retriesLeft, reports) + RoundPotential(j, reports)
  }

  function Reserve(retries: int, reports: nat): nat {
    if retries <= 0 then 0 else Reserve(retries - 1, reports) + 3 * reports + 2
  }

  lemma {:induction false} ReserveIsProduct(retries: nat, reports: nat)
    ensures Reserve(retries, reports) == retries * (3 * reports + 2)
  {
    if retries > 0 { ReserveIsProduct(retries - 1, reports); }
  }

  lemma UpdatePotential(j: Job, env: Env, reports: nat)
    requires Closed(j) && |j.round.reported| <= reports
    ensures Potential(Update(j, env), reports) <=
            Potential(j, reports) - if Update(j, env).round.tried != j.round.tried then 1 else 0
  {
    var r := j.round;
    if r.complete || r.current.Some? {
    } else if r.candidates == [] {
      if r.findFinished { GiveUpPotential(j, reports); }
    } else if Update(j, env).round.current.Some? {
      TryPotential(j, Update(j, env).round.current.value, reports);
    }
  }

  lemma TryPotential(j: Job, p: string, reports: nat)
    requires !j.round.complete && j.outcome.None? && !j.retryPending && p in j.round.candidates && j.round.current.None?
    ensures Potential(j.(round := j.round.(candidates := Drop(j.round.candidates, p), current := Some(p), tried := j.round.tried + [p])), reports)
            == Potential(j, reports) - 1
  {
    DropTakesOne(j.round.candidates, p);
  }

  lemma GiveUpPotential(j: Job, reports: nat)
    requires !j.round.complete && j.outcome.None? && !j.retryPending && j.round.candidates == [] && |j.round.reported| <= reports
    ensures Potential(GiveUp(j), reports) <= Potential(j, reports)
  {}

  lemma FoundPotential(j: Job, n: nat, p: string, env: Env, numRetries: int, reports: nat)
    requires Inv(j, numRetries) && Open(j, n) && |j.round.reported| < reports
    ensures Potential(Step(j, Found(n, p, env)), reports) < Potential(j, reports)
  {
    var r := j.round;
    FoundAccounted(r, p);
    var found := j.(round := Record(r, p));
    UpdatePotential(found, env, reports);
  }

  lemma FailsPotential(j: Job, message: string, env: Env, numRetries: int, reports: nat)
    requires Inv(j, numRetries) && !j.round.complete && j.round.current.Some? && |j.round.reported| <= reports
    ensures Potential(Step(j, DownloadFails(message, env)), reports) < Potential(j, reports)
  {
    UpdatePotential(j.(round := j.round.(current := None, lastError := Some(message))), env, reports);
  }

  lemma FindFinishedPotential(j: Job, n: nat, env: Env, reports: nat)
    requires Closed(j) && Open(j, n) && |j.round.reported| <= reports
    ensures Potential(Step(j, FindFinished(n, env)), reports) <= Potential(j, reports) - if j.round.findFinished then 0 else 1
  {
    UpdatePotential(j.(round := j.round.(findFinished := true)), env, reports);
  }

  lemma TimerPotential(j: Job, env: Env, reports: nat)
    requires Closed(j) && j.round.timers > 0 && |j.round.reported| <= reports
    ensures var t := Step(j, UpdateTimer(j.number, env));
            Potential(t, reports) <= Potential(j, reports) - if t.round.tried != j.round.tried then 1 else 0
  {
    UpdatePotential(j.(round := j.round.(timers := j.round.timers - 1)), env, reports);
  }

  lemma UpdateKeepsReports(j: Job, env: Env)
    ensures Update(j, env).round.reported == j.round.reported
  {}

  /** Every productive step lowers the potential and no step raises it. */
  lemma StepPotential(j: Job, e: Event, numRetries: int, reports: nat)
    requires Inv(j, numRetries) && |Step(j, e).round.reported| <= reports && |j.round.reported| <= reports
    ensures Potential(Step(j, e), reports) <= Potential(j, reports) - if Productive(j, e) then 1 else 0
  {
    var r := j.round;
    match e
    case Found(n, p, env) =>
      if Open(j, n) {
        UpdateKeepsReports(j.(round := Record(r, p)), env);
        FoundPotential(j, n, p, env, numRetries, reports);
      }
    case FindFinished(n, env) => if Open(j, n) { FindFinishedPotential(j, n, env, reports); }
    case UpdateTimer(n, env) => if n == j.number && r.timers > 0 { TimerPotential(j, env, reports); }
    case DownloadFails(message, env) =>
      if !r.complete && r.current.Some? { FailsPotential(j, message, env, numRetries, reports); }
    case DownloadEnds =>
    case RetryTimer =>
  }

  function NumProductive(numRetries: int, events: seq<Event>): nat {
    if events == [] then 0
    else
      NumProductive(numRetries, events[..|events| - 1])
      + if Productive(RunOf(numRetries, events[..|events| - 1]), events[|events| - 1]) then 1 else 0
  }

  /** No round of the run hears of more than this many providers. */
  predicate ReportsWithin(numRetries: int, events: seq<Event>, reports: nat) {
    forall k :: 0 <= k <= |events| ==> |RunOf(numRetries, events[..k]).round.reported| <= reports
  }

  /** A job comes to its end: a run has only so many productive steps, and by NeverStuck it is never without a pending
      one before the outcome is known. */
  lemma {:induction false} JobTerminates(numRetries: nat, events: seq<Event>, reports: nat)
    requires ReportsWithin(numRetries, events, reports)
    ensures NumProductive(numRetries, events) + Potential(RunOf(numRetries, events), reports) <= (numRetries + 1) * (3 * reports + 2) - 1
    ensures NumProductive(numRetries, events) < (numRetries + 1) * (3 * reports + 2)
    decreases |events|
  {
    if events == [] {
      ReserveIsProduct(numRetries, reports);
    } else {
      var init, e := events[..|events| - 1], events[|events| - 1];
      assert ReportsWithin(numRetries, init, reports) by {
        forall k | 0 <= k <= |init| ensures |RunOf(numRetries, init[..k]).round.reported| <= reports {
          assert init[..k] == events[..k];
        }
      }
      JobTerminates(numRetries, init, reports);
      RunInv(numRetries, init);
      assert events[..|events|] == events;
      StepPotential(RunOf(numRetries, init), e, numRetries, reports);
    }
  }

  // ---- The objects

  /** The variables one round's callbacks share. */
  class Attempt {
    ghost const number: nat
    var findFinished: bool
    var somethingFound: bool
    var providerCandidates: seq<string>
    var currentDownloader: Option<string>
    var lastDownloaderError: Option<string>
    var complete: bool
    ghost var timers: nat
    ghost var reported: seq<string>
    ghost var tried: seq<string>

    ghost function Model(): Round
      reads this
    {
      Round(findFinished, somethingFound, providerCandidates, currentDownloader, lastDownloaderError, complete, timers, reported, tried)
    }

    constructor (ghost number: nat)
      ensures this.number == number && Model() == NewRound
    {
      this.number := number;
      findFinished, somethingFound, complete := false, false, false;
      providerCandidates, currentDownloader, lastDownloaderError := [], None, None;
      timers, reported, tried := 0, [], [];
    }
  }

  /** A started job. Callbacks of earlier rounds find their round complete. */
  class DownloadOptimizerJob {
    var isRunning: bool
    var isComplete: bool
    var numRemainingRetries: int
    var signal: Option<Outcome>
    var retryTimerSet: bool
    ghost var attempts: seq<Attempt>

    ghost predicate Valid()
      reads this, attempts
    {
      && attempts != []
      && (forall i :: 0 <= i < |attempts| ==> attempts[i].number == i)
      && (forall i :: 0 <= i < |attempts| - 1 ==> attempts[i].complete)
      && isComplete == signal.Some? && isRunning == !isComplete
    }

    ghost function Latest(): Attempt
      requires attempts != []
      reads this
    {
      attempts[|attempts| - 1]
    }

    ghost function Model(): Job
      requires attempts != []
      reads this, attempts
    {
      Job(numRemainingRetries, |attempts| - 1, Latest().Model(), retryTimerSet, signal)
    }

    constructor (numRetries: int)
      ensures Valid() && Model() == Start(numRetries) && fresh(attempts)
    {
      var first := new Attempt(0);
      attempts := [first];
      isRunning, isComplete, signal := true, false, None;
      numRemainingRetries, retryTimerSet := numRetries, false;
    }

    method OnFound(t: Attempt, provider: string, env: Env)
      requires Valid() && t in attempts
      modifies this, t
      ensures Valid() && attempts == old(attempts) && Model() == Step(old(Model()), Found(t.number, provider, env))
    {
      if t.complete {
        return;
      }
      t.somethingFound := true;
      t.providerCandidates := AddCandidate(t.providerCandidates, provider);
      t.reported := t.reported + [provider];
      CallUpdate(t, env);
    }

    method OnFindFinished(t: Attempt, env: Env)
      requires Valid() && t in attempts
      modifies this, t
      ensures Valid() && attempts == old(attempts) && Model() == Step(old(Model()), Event.FindFinished(t.number, env))
    {
      if t.complete {
        return;
      }
      t.findFinished := true;
      CallUpdate(t, env);
    }

    method OnUpdateTimer(t: Attempt, env: Env)
      requires Valid() && t in attempts && t.timers > 0
      modifies this, t
      ensures Valid() && attempts == old(attempts) && Model() == Step(old(Model()), Event.UpdateTimer(t.number, env))
    {
      LatestIsByNumber(t);
      Tick(t);
      CallUpdate(t, env);
    }

    ghost method Tick(t: Attempt)
      requires Valid() && t in attempts && t.timers > 0
      modifies t`timers
      ensures Model() == if t != Latest() then old(Model())
                         else old(Model()).(round := old(Model()).round.(timers := old(Model()).round.timers - 1))
    {
      t.timers := t.timers - 1;
    }

    lemma LatestIsByNumber(t: Attempt)
      requires Valid() && t in attempts
      ensures t == Latest() <==> t.number == |attempts| - 1
    {
    }

    /** A downloader reports at most one error, and none after its end. */
    method HandleErrorInCurrentDownloader(t: Attempt, message: string, env: Env)
      requires Valid() && t == Latest() && !t.complete
      modifies this, t
      ensures Valid() && attempts == old(attempts) && Model() == Step(old(Model()), DownloadFails(message, env))
    {
      if t.currentDownloader.None? {
        return;
      }
      t.currentDownloader, t.lastDownloaderError := None, Some(message);
      CallUpdate(t, env);
    }

    method ReturnFinished(t: Attempt)
      requires Valid() && t == Latest() && t.currentDownloader.Some?
      modifies this, t
      ensures Valid() && attempts == old(attempts) && Model() == Step(old(Model()), DownloadEnds)
    {
      if t.complete {
        return;
      }
      t.complete := true;
      isComplete, isRunning := true, false;
      signal := Some(Finished);
    }

    method NextTry() returns (t: Attempt)
      requires Valid() && retryTimerSet && Latest().complete
      modifies this
      ensures Valid() && attempts == old(attempts) + [t] && Model() == Step(old(Model()), RetryTimer)
    {
      retryTimerSet := false;
      t := new Attempt(|attempts|);
      attempts := attempts + [t];
    }

    method ReturnError(t: Attempt, message: string)
      requires Valid() && t == Latest() && !t.complete && message == WhyFailed(t.Model())
      modifies this, t
      ensures Valid() && attempts == old(attempts) && Model() == GiveUp(old(Model()))
    {
      t.complete := true;
      if numRemainingRetries <= 0 || !t.somethingFound {
        isComplete, isRunning := true, false;
        signal := Some(Failed(message));
      } else {
        numRemainingRetries := numRemainingRetries - 1;
        retryTimerSet := true;
      }
    }

    /** Called from every callback. */
    method CallUpdate(t: Attempt, env: Env)
      requires Valid() && t in attempts && (t.complete || t == Latest())
      modifies this, t
      ensures Valid() && attempts == old(attempts)
      ensures Model() == if t == Latest() then Update(old(Model()), env) else old(Model())
    {
      if t.complete {
        return;
      }
      if t.currentDownloader.Some? {
        return;
      }
      if |t.providerCandidates| > 0 {
        TryOrWait(t, env);
      } else if t.findFinished {
        var message := match t.lastDownloaderError
          case Some(m) => m
          case None => if !t.somethingFound then "File not found" else "Problem in download";
        ReturnError(t, message);
      }
    }

    /** Sets a timer or starts a download. */
    method TryOrWait(t: Attempt, env: Env)
      requires t.providerCandidates != []
      modifies t`timers, t`providerCandidates, t`currentDownloader, t`tried
      ensures t.Model() == TryCandidate(old(t.Model()), env)
    {
      if !t.findFinished && env.elapsed < FirstWaitMsec {
        t.timers := t.timers + 1;
        return;
      }
      var nonBusyCandidates := NonBusy(t.providerCandidates, env.busy);
      if |nonBusyCandidates| == 0 {
        t.timers := t.timers + 1;
        return;
      }
      var pn := Fastest(nonBusyCandidates, env.rate);
      t.providerCandidates := Drop(t.providerCandidates, pn);
      t.currentDownloader := Some(pn);
      t.tried := t.tried + [pn];
    }
  }
}
