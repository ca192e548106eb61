/** Which downloads run: tasks for the same file share a job, and an update that is scheduled, never called directly,
    starts waiting jobs while fewer than five of the table's jobs run. */
module DownloadScheduler {
  import opened Wrappers

  const MaxRunning := 5

  datatype JobState = Waiting | Running | Complete

  /** The listeners are the tasks that joined the job, whether or not they still exist. */
  datatype Job = Job(key: string, state: JobState, listeners: seq<nat>)

  /** Every job ever created, by number; the table holds the numbers of those the scheduler still knows, oldest first.
      A job that lost its last task is no longer in the table, but nothing stops it. */
  datatype Scheduler = Scheduler(
    all: seq<Job>,
    table: seq<nat>,
    tasks: map<string, set<nat>>,
    nextTask: nat,
    updateScheduled: bool
  )

  datatype Event =
    | CreateTask(key: string)
    | CancelTask(key: string, task: nat)
    | UpdateTimer
    | Finish(job: nat)

  // ---- The steps

  predicate Known(all: seq<Job>, table: seq<nat>) {
    forall i :: 0 <= i < |table| ==> table[i] < |all|
  }

  predicate WellFormed(s: Scheduler) {
    Known(s.all, s.table)
  }

  const Initial := Scheduler([], [], map[], 0, false)

  function Live(tasks: map<string, set<nat>>, key: string): set<nat> {
    if key in tasks then tasks[key] else {}
  }

  /** The numbers of a list that lie in a set, in order. */
  function Only(table: seq<nat>, keep: set<nat>): (r: seq<nat>)
    ensures forall id :: id in r <==> id in table && id in keep
    ensures forall i :: 0 <= i < |r| ==> r[i] in table
  {
    if table == [] then []
    else
      var last := table[|table| - 1];
      assert table == table[..|table| - 1] + [last];
      Only(table[..|table| - 1], keep) + if last in keep then [last] else []
  }

  function OtherJobs(all: seq<Job>, table: seq<nat>, key: string): set<nat>
    requires Known(all, table)
  {
    set id | id in table && all[id].key != key
  }

  function JobOf(all: seq<Job>, table: seq<nat>, key: string): (id: Option<nat>)
    requires Known(all, table)
    ensures id.Some? ==> id.value in table && all[id.value].key == key
    ensures id.None? ==> forall i :: i in table ==> all[i].key != key
  {
    if table == [] then None
    else if all[table[0]].key == key then Some(table[0])
    else JobOf(all, table[1..], key)
  }

  /** A task joins the job of its file, or a new one at the end of the table. */
  function Created(s: Scheduler, key: string): Scheduler
    requires WellFormed(s)
  {
    var tasks := s.tasks[key := Live(s.tasks, key) + {s.nextTask}];
    match JobOf(s.all, s.table, key)
    case Some(id) =>
      var joined := s.all[id].(listeners := s.all[id].listeners + [s.nextTask]);
      Scheduler(s.all[id := joined], s.table, tasks, s.nextTask + 1, true)
    case None => Scheduler(s.all + [Job(key, Waiting, [s.nextTask])], s.table + [|s.all|], tasks, s.nextTask + 1, true)
  }

  /** The last task to go takes the job out of the table. */
  function Deleted(s: Scheduler, key: string, task: nat): Scheduler
    requires WellFormed(s)
  {
    if task !in Live(s.tasks, key) then s
    else
      var rest := s.tasks[key] - {task};
      s.(tasks := s.tasks[key := rest],
         table := if rest == {} then Only(s.table, OtherJobs(s.all, s.table, key)) else s.table,
         updateScheduled := true)
  }

  /** The listeners are told one after the other. */
  function DeletedAll(s: Scheduler, key: string, tasks: seq<nat>): (t: Scheduler)
    requires WellFormed(s)
    ensures WellFormed(t) && t.all == s.all
  {
    if tasks == [] then s else Deleted(DeletedAll(s, key, tasks[..|tasks| - 1]), key, tasks[|tasks| - 1])
  }

  function Finished(s: Scheduler, id: nat): Scheduler
    requires WellFormed(s) && id < |s.all|
  {
    DeletedAll(s.(all := s.all[id := s.all[id].(state := Complete)]), s.all[id].key, s.all[id].listeners)
  }

  function NumRunning(all: seq<Job>, table: seq<nat>): nat
    requires Known(all, table)
  {
    if table == [] then 0
    else NumRunning(all, table[..|table| - 1]) + if all[table[|table| - 1]].state.Running? then 1 else 0
  }

  /** Starts waiting jobs in the order of the table; also gives the number then running. */
  function Started(all: seq<Job>, table: seq<nat>, active: nat): (r: (seq<Job>, nat))
    requires Known(all, table)
    ensures |r.0| == |all|
  {
    if table == [] then (all, active)
    else
      var (jobs, n) := Started(all, table[..|table| - 1], active);
      StartOne(jobs, n, table[|table| - 1])
  }

  function StartOne(all: seq<Job>, active: nat, id: nat): (r: (seq<Job>, nat))
    requires id < |all|
    ensures |r.0| == |all|
  {
    if active < MaxRunning && all[id].state.Waiting? then (all[id := all[id].(state := Running)], active + 1) else (all, active)
  }

  function Incomplete(all: seq<Job>, table: seq<nat>): set<nat>
    requires Known(all, table)
  {
    set id | id in table && !all[id].state.Complete?
  }

  function Updated(s: Scheduler): Scheduler
    requires WellFormed(s)
  {
    var table := Only(s.table, Incomplete(s.all, s.table));
    s.(updateScheduled := false, table := table, all := Started(s.all, table, NumRunning(s.all, table)).0)
  }

  /** Steps that cannot happen change nothing: an update timer needs an update scheduled, and only a running job ends. */
  function Step(s: Scheduler, e: Event): (t: Scheduler)
    requires WellFormed(s)
    ensures WellFormed(t)
  {
    match e
    case CreateTask(key) => Created(s, key)
    case CancelTask(key, task) => Deleted(s, key, task)
    case UpdateTimer => if s.updateScheduled then Updated(s) else s
    case Finish(id) => if id < |s.all| && s.all[id].state.Running? then Finished(s, id) else s
  }

  function RunOf(events: seq<Event>): (s: Scheduler)
    ensures WellFormed(s)
  {
    if events == [] then Initial else Step(RunOf(events[..|events| - 1]), events[|events| - 1])
  }

  // ---- The invariant

  predicate Tabled(all: seq<Job>, table: seq<nat>) {
    && Known(all, table)
    && (forall id :: id in table ==> !all[id].state.Complete?)
    && DistinctKeys(all, table)
  }

  predicate DistinctKeys(all: seq<Job>, table: seq<nat>)
    requires Known(all, table)
  {
    forall i, j :: 0 <= i < j < |table| ==> all[table[i]].key != all[table[j]].key
  }

  /** No job overtakes an older one. */
  predicate RunningFirst(all: seq<Job>, table: seq<nat>)
    requires Known(all, table)
  {
    forall i, j :: 0 <= i < j < |table| && all[table[j]].state.Running? ==> all[table[i]].state.Running?
  }

  /** Every job in the table has a task, all tasks of its file are listening to it, and every task's file has a job. */
  ghost predicate Attended(all: seq<Job>, table: seq<nat>, tasks: map<string, set<nat>>)
    requires Known(all, table)
  {
    && (forall id :: id in table ==> Live(tasks, all[id].key) != {})
    && (forall id, t :: id in table && t in Live(tasks, all[id].key) ==> t in all[id].listeners)
    && (forall key :: Live(tasks, key) != {} ==> exists id :: id in table && all[id].key == key)
  }

  /** A listener that is still alive listens to a job in the table. */
  predicate NothingStale(all: seq<Job>, table: seq<nat>, tasks: map<string, set<nat>>, nextTask: nat) {
    && (forall j :: 0 <= j < |all| ==> forall t :: t in all[j].listeners ==>
          t < nextTask && (t in Live(tasks, all[j].key) ==> j in table))
    && (forall key :: key in tasks ==> forall t :: t in tasks[key] ==> t < nextTask)
  }

  predicate NoneWaits(all: seq<Job>, table: seq<nat>)
    requires Known(all, table)
  {
    forall i :: 0 <= i < |table| ==> !all[table[i]].state.Waiting?
  }

  /** No wakeup is lost. */
  predicate Awake(s: Scheduler)
    requires WellFormed(s)
  {
    NumRunning(s.all, s.table) < MaxRunning && !NoneWaits(s.all, s.table) ==> s.updateScheduled
  }

  predicate Queued(all: seq<Job>, table: seq<nat>) {
    Tabled(all, table) && RunningFirst(all, table)
  }

  ghost predicate Inv(s: Scheduler) {
    && WellFormed(s)
    && Queued(s.all, s.table) && NumRunning(s.all, s.table) <= MaxRunning
    && Attended(s.all, s.table, s.tasks) && NothingStale(s.all, s.table, s.tasks, s.nextTask) && Awake(s)
  }

  // ---- Lists of jobs

  lemma {:induction false} OnlyKeepsOrder(all: seq<Job>, table: seq<nat>, keep: set<nat>)
    requires Known(all, table) && RunningFirst(all, table)
    ensures RunningFirst(all, Only(table, keep))
    decreases |table|
  {
    if table != [] {
      var init, last := table[..|table| - 1], table[|table| - 1];
      OnlyKeepsOrder(all, init, keep);
      var r := Only(init, keep);
      forall i | 0 <= i < |r| && all[last].state.Running? ensures all[r[i]].state.Running? {
        var k :| 0 <= k < |init| && init[k] == r[i];
        assert table[k] == init[k];
      }
    }
  }

  lemma {:induction false} OnlyKeepsKeys(all: seq<Job>, table: seq<nat>, keep: set<nat>)
    requires Known(all, table) && DistinctKeys(all, table)
    ensures DistinctKeys(all, Only(table, keep))
    decreases |table|
  {
    if table != [] {
      var init, last := table[..|table| - 1], table[|table| - 1];
      OnlyKeepsKeys(all, init, keep);
      var r := Only(init, keep);
      forall i | 0 <= i < |r| ensures all[r[i]].key != all[last].key {
        var k :| 0 <= k < |init| && init[k] == r[i];
        assert table[k] == init[k];
      }
    }
  }

  lemma {:induction false} OnlyRunsFewer(all: seq<Job>, table: seq<nat>, keep: set<nat>)
    requires Known(all, table)
    ensures NumRunning(all, Only(table, keep)) <= NumRunning(all, table)
    decreases |table|
  {
    if table != [] {
      var init, last := table[..|table| - 1], table[|table| - 1];
      OnlyRunsFewer(all, init, keep);
      var r := Only(init, keep);
      if last in keep {
        assert (r + [last])[..|r|] == r;
      } else {
        assert Only(table, keep) == r;
      }
    }
  }

  predicate SameRunning(all: seq<Job>, other: seq<Job>, table: seq<nat>)
    requires Known(all, table) && Known(other, table)
  {
    forall i :: 0 <= i < |table| ==> (all[table[i]].state.Running? <==> other[table[i]].state.Running?)
  }

  lemma {:induction false} NumRunningFrame(all: seq<Job>, other: seq<Job>, table: seq<nat>)
    requires Known(all, table) && Known(other, table) && SameRunning(all, other, table)
    ensures NumRunning(all, table) == NumRunning(other, table)
    decreases |table|
  {
    if table != [] {
      NumRunningFrame(all, other, table[..|table| - 1]);
    }
  }

  predicate Within(table: seq<nat>, keep: set<nat>) {
    forall i :: 0 <= i < |table| ==> table[i] in keep
  }

  lemma {:induction false} OnlyEverything(table: seq<nat>, keep: set<nat>)
    requires Within(table, keep)
    ensures Only(table, keep) == table
    decreases |table|
  {
    if table != [] {
      var init, last := table[..|table| - 1], table[|table| - 1];
      assert Within(init, keep) && last in keep;
      OnlyEverything(init, keep);
      assert Only(table, keep) == Only(init, keep) + [last];
      assert table == init + [last];
    }
  }

  /** Only waiting jobs of the table start, and they become running. */
  predicate StartedFrom(all: seq<Job>, jobs: seq<Job>, table: seq<nat>) {
    |jobs| == |all|
    && forall id :: 0 <= id < |all| ==>
         jobs[id] == all[id] || (id in table && all[id].state.Waiting? && jobs[id] == all[id].(state := Running))
  }

  lemma {:induction false} StartedChanges(all: seq<Job>, table: seq<nat>, active: nat)
    requires Known(all, table)
    ensures StartedFrom(all, Started(all, table, active).0, table)
    decreases |table|
  {
    if table != [] {
      var init := table[..|table| - 1];
      StartedChanges(all, init, active);
      assert table == init + [table[|table| - 1]];
    }
  }

  /** The count is right and the limit is kept. */
  lemma {:induction false} StartedCounts(all: seq<Job>, table: seq<nat>, active: nat)
    requires Known(all, table) && DistinctKeys(all, table) && active <= MaxRunning
    ensures var (jobs, n) := Started(all, table, active);
            NumRunning(jobs, table) + active == NumRunning(all, table) + n && active <= n <= MaxRunning
    decreases |table|
  {
    if table != [] {
      var init, last := table[..|table| - 1], table[|table| - 1];
      StartedCounts(all, init, active);
      StartedChanges(all, init, active);
      var before, jobs := Started(all, init, active).0, Started(all, table, active).0;
      assert before[last] == all[last] by { LastIsNew(all, table); }
      assert SameRunning(before, jobs, init) by { LastIsNew(all, table); }
      NumRunningFrame(before, jobs, init);
    }
  }

  lemma LastIsNew(all: seq<Job>, table: seq<nat>)
    requires Known(all, table) && DistinctKeys(all, table) && table != []
    ensures forall i :: 0 <= i < |table| - 1 ==> table[i] != table[|table| - 1]
    ensures table[|table| - 1] !in table[..|table| - 1]
  {}

  /** None is left waiting without need, and the oldest are started first. */
  lemma {:induction false} StartedFills(all: seq<Job>, table: seq<nat>, active: nat)
    requires Tabled(all, table) && RunningFirst(all, table)
    ensures var (jobs, n) := Started(all, table, active);
            && (n < MaxRunning ==> NoneWaits(jobs, table))
            && RunningFirst(jobs, table)
    decreases |table|
  {
    if table != [] {
      var init, last := table[..|table| - 1], table[|table| - 1];
      assert Tabled(all, init) by { assert forall id :: id in init ==> id in table; }
      StartedFills(all, init, active);
      StartedChanges(all, init, active);
      LastIsNew(all, table);
      var (before, n) := Started(all, init, active);
      StartOneMore(all, before, Started(all, table, active).0, table, n);
    }
  }

  lemma StartOneMore(all: seq<Job>, before: seq<Job>, jobs: seq<Job>, table: seq<nat>, n: nat)
    requires Tabled(all, table) && RunningFirst(all, table) && table != []
    requires |before| == |jobs| == |all|
    requires var init, last := table[..|table| - 1], table[|table| - 1];
             && last !in init && StartedFrom(all, before, init)
             && (n < MaxRunning ==> NoneWaits(before, init)) && RunningFirst(before, init)
             && jobs == if n < MaxRunning && before[last].state.Waiting? then before[last := before[last].(state := Running)] else before
    ensures n < MaxRunning ==> NoneWaits(jobs, table)
    ensures RunningFirst(jobs, table)
  {
    var init, last := table[..|table| - 1], table[|table| - 1];
    forall i | 0 <= i < |init|
      ensures table[i] != last && jobs[table[i]] == before[table[i]] && !before[table[i]].state.Complete?
      ensures jobs[last].state.Running? ==> jobs[table[i]].state.Running?
    {
      assert init[i] == table[i] && table[i] in init && table[i] in table;
      assert before[last] == all[last];
    }
    forall i, j | 0 <= i < j < |table| && jobs[table[j]].state.Running? ensures jobs[table[i]].state.Running? {
      assert init[i] == table[i];
      if j < |init| { assert init[j] == table[j]; }
    }
    if n < MaxRunning {
      forall i | 0 <= i < |table| ensures !jobs[table[i]].state.Waiting? {
        if i < |init| { assert init[i] == table[i]; }
      }
    }
  }

  /** What deleting several tasks at once amounts to. */
  function Without(s: Scheduler, key: string, gone: set<nat>): Scheduler
    requires WellFormed(s)
  {
    if key !in s.tasks then s
    else
      var rest := s.tasks[key] - gone;
      s.(tasks := s.tasks[key := rest],
         table := if rest == {} && s.tasks[key] != {} then Only(s.table, OtherJobs(s.all, s.table, key)) else s.table,
         updateScheduled := s.updateScheduled || rest != s.tasks[key])
  }

  lemma DeletedOneMore(s: Scheduler, key: string, gone: set<nat>, task: nat)
    requires WellFormed(s) && WellFormed(Without(s, key, gone))
    ensures Deleted(Without(s, key, gone), key, task) == Without(s, key, gone + {task})
  {
    if key in s.tasks {
      var rest := s.tasks[key] - gone;
      assert s.tasks[key] - (gone + {task}) == rest - {task};
      if task !in rest {
        assert rest - {task} == rest;
      }
    }
  }

  function Elements(tasks: seq<nat>): set<nat> { set i | 0 <= i < |tasks| :: tasks[i] }

  lemma {:induction false} DeletedAllIs(s: Scheduler, key: string, tasks: seq<nat>)
    requires WellFormed(s)
    ensures DeletedAll(s, key, tasks) == Without(s, key, Elements(tasks))
    decreases |tasks|
  {
    if tasks == [] {
      assert Elements(tasks) == {};
      if key in s.tasks {
        assert s.tasks[key] - {} == s.tasks[key];
        assert s.tasks[key := s.tasks[key]] == s.tasks;
      }
    } else {
      var init, last := tasks[..|tasks| - 1], tasks[|tasks| - 1];
      DeletedAllIs(s, key, init);
      assert Elements(tasks) == Elements(init) + {last};
      DeletedOneMore(s, key, Elements(init), last);
    }
  }

  // ---- Every step keeps the invariant

  lemma NumRunningAppend(all: seq<Job>, table: seq<nat>, id: nat)
    requires Known(all, table) && id < |all|
    ensures NumRunning(all, table + [id]) == NumRunning(all, table) + if all[id].state.Running? then 1 else 0
  {
    assert (table + [id])[..|table|] == table;
  }

  /** Only the keys and states of the table's jobs matter to the queue. */
  lemma QueueFrame(all: seq<Job>, other: seq<Job>, table: seq<nat>)
    requires Queued(all, table) && Known(other, table)
    requires forall i :: 0 <= i < |table| ==> other[table[i]].key == all[table[i]].key && other[table[i]].state == all[table[i]].state
    ensures Queued(other, table) && NumRunning(other, table) == NumRunning(all, table)
    ensures NoneWaits(other, table) <==> NoneWaits(all, table)
  {
    NumRunningFrame(all, other, table);
  }

  predicate SameTasks(all: seq<Job>, other: seq<Job>) {
    |other| == |all|
    && forall j :: 0 <= j < |all| ==> other[j].key == all[j].key && other[j].listeners == all[j].listeners
  }

  /** Only the keys and listeners of jobs matter to the tasks. */
  lemma AttendedFrame(all: seq<Job>, other: seq<Job>, table: seq<nat>, tasks: map<string, set<nat>>)
    requires Known(all, table) && SameTasks(all, other) && Attended(all, table, tasks)
    ensures Attended(other, table, tasks)
  {}

  lemma NothingStaleFrame(all: seq<Job>, other: seq<Job>, table: seq<nat>, tasks: map<string, set<nat>>, nextTask: nat)
    requires SameTasks(all, other) && NothingStale(all, table, tasks, nextTask)
    ensures NothingStale(other, table, tasks, nextTask)
  {}

  lemma JoinedInv(s: Scheduler, t: Scheduler, key: string, id: nat)
    requires Inv(s) && JobOf(s.all, s.table, key) == Some(id) && t == Created(s, key)
    ensures Inv(t)
  {
    JoinedQueued(s, t.all, id);
    JoinedAttended(s, t.all, t.tasks, id);
    JoinedNothingStale(s, t.all, t.tasks, id);
  }

  lemma JoinedQueued(s: Scheduler, all: seq<Job>, id: nat)
    requires WellFormed(s) && Queued(s.all, s.table) && id < |s.all|
    requires all == s.all[id := s.all[id].(listeners := s.all[id].listeners + [s.nextTask])]
    ensures Queued(all, s.table) && NumRunning(all, s.table) == NumRunning(s.all, s.table)
  {
    QueueFrame(s.all, all, s.table);
  }

  lemma JoinedAttended(s: Scheduler, all: seq<Job>, tasks: map<string, set<nat>>, id: nat)
    requires WellFormed(s) && Tabled(s.all, s.table) && Attended(s.all, s.table, s.tasks) && id in s.table
    requires all == s.all[id := s.all[id].(listeners := s.all[id].listeners + [s.nextTask])]
    requires tasks == s.tasks[s.all[id].key := Live(s.tasks, s.all[id].key) + {s.nextTask}]
    ensures Attended(all, s.table, tasks)
  {
    forall k | Live(tasks, k) != {} ensures exists i :: i in s.table && all[i].key == k {
      if k != s.all[id].key { assert Live(s.tasks, k) != {}; }
    }
    forall i, t | i in s.table && t in Live(tasks, all[i].key) ensures t in all[i].listeners {
      if i != id { assert s.all[i].key != s.all[id].key; }
    }
  }

  lemma JoinedNothingStale(s: Scheduler, all: seq<Job>, tasks: map<string, set<nat>>, id: nat)
    requires WellFormed(s) && NothingStale(s.all, s.table, s.tasks, s.nextTask) && id in s.table
    requires all == s.all[id := s.all[id].(listeners := s.all[id].listeners + [s.nextTask])]
    requires tasks == s.tasks[s.all[id].key := Live(s.tasks, s.all[id].key) + {s.nextTask}]
    ensures NothingStale(all, s.table, tasks, s.nextTask + 1)
  {
    forall j, t | 0 <= j < |all| && t in all[j].listeners
      ensures t < s.nextTask + 1 && (t in Live(tasks, all[j].key) ==> j in s.table)
    {
      if t in s.all[j].listeners {
        assert t in Live(tasks, all[j].key) ==> t in Live(s.tasks, s.all[j].key);
      }
    }
  }

  lemma NoJobNoTasks(s: Scheduler, key: string)
    requires WellFormed(s) && Attended(s.all, s.table, s.tasks) && JobOf(s.all, s.table, key).None?
    ensures Live(s.tasks, key) == {} && forall id :: id in s.table ==> s.all[id].key != key
  {}

  lemma AddedInv(s: Scheduler, t: Scheduler, key: string)
    requires Inv(s) && JobOf(s.all, s.table, key).None? && t == Created(s, key)
    ensures Inv(t)
  {
    NoJobNoTasks(s, key);
    AddedQueued(s, t.all, t.table, key);
    AddedAttended(s, t.all, t.table, t.tasks, key);
    AddedNothingStale(s, t.all, t.table, t.tasks, key);
  }

  lemma AddedQueued(s: Scheduler, all: seq<Job>, table: seq<nat>, key: string)
    requires WellFormed(s) && Queued(s.all, s.table) && forall id :: id in s.table ==> s.all[id].key != key
    requires all == s.all + [Job(key, Waiting, [s.nextTask])] && table == s.table + [|s.all|]
    ensures Queued(all, table) && NumRunning(all, table) == NumRunning(s.all, s.table)
  {
    forall i | 0 <= i < |s.table| ensures table[i] < |s.all| && all[table[i]] == s.all[table[i]] && all[table[i]].key != key {
      assert table[i] == s.table[i] && s.table[i] in s.table;
    }
    QueueFrame(s.all, all, s.table);
    QueuedAppend(all, s.table, |s.all|);
  }

  lemma QueuedAppend(all: seq<Job>, table: seq<nat>, id: nat)
    requires Queued(all, table) && id < |all| && all[id].state.Waiting?
    requires forall i :: 0 <= i < |table| ==> all[table[i]].key != all[id].key
    ensures Queued(all, table + [id]) && NumRunning(all, table + [id]) == NumRunning(all, table)
  {
    NumRunningAppend(all, table, id);
  }

  lemma AddedNothingStale(s: Scheduler, all: seq<Job>, table: seq<nat>, tasks: map<string, set<nat>>, key: string)
    requires WellFormed(s) && NothingStale(s.all, s.table, s.tasks, s.nextTask) && Live(s.tasks, key) == {}
    requires all == s.all + [Job(key, Waiting, [s.nextTask])] && table == s.table + [|s.all|]
    requires tasks == s.tasks[key := Live(s.tasks, key) + {s.nextTask}]
    ensures NothingStale(all, table, tasks, s.nextTask + 1)
  {
    forall j, t | 0 <= j < |all| && t in all[j].listeners
      ensures t < s.nextTask + 1 && (t in Live(tasks, all[j].key) ==> j in table)
    {
      if j < |s.all| {
        assert all[j] == s.all[j];
        assert t in Live(tasks, all[j].key) ==> t in Live(s.tasks, s.all[j].key);
      }
    }
  }

  lemma AddedAttended(s: Scheduler, all: seq<Job>, table: seq<nat>, tasks: map<string, set<nat>>, key: string)
    requires WellFormed(s) && Attended(s.all, s.table, s.tasks) && Live(s.tasks, key) == {}
    requires forall id :: id in s.table ==> s.all[id].key != key
    requires all == s.all + [Job(key, Waiting, [s.nextTask])] && table == s.table + [|s.all|]
    requires tasks == s.tasks[key := Live(s.tasks, key) + {s.nextTask}]
    ensures Attended(all, table, tasks)
  {
    forall k | Live(tasks, k) != {} ensures exists id :: id in table && all[id].key == k {
      if k == key {
        assert |s.all| in table;
      } else {
        assert Live(s.tasks, k) != {};
        var id :| id in s.table && s.all[id].key == k;
        assert id in table && all[id].key == k;
      }
    }
    forall id | id in table ensures Live(tasks, all[id].key) != {} && forall t :: t in Live(tasks, all[id].key) ==> t in all[id].listeners {
      if id in s.table {
        assert all[id] == s.all[id] && all[id].key != key;
        assert Live(tasks, all[id].key) == Live(s.tasks, s.all[id].key);
      }
    }
  }

  lemma CreatedInv(s: Scheduler, key: string)
    requires Inv(s)
    ensures Inv(Created(s, key))
  {
    match JobOf(s.all, s.table, key)
    case Some(id) => JoinedInv(s, Created(s, key), key, id);
    case None => AddedInv(s, Created(s, key), key);
  }

  lemma WithoutLive(s: Scheduler, key: string, gone: set<nat>)
    requires WellFormed(s) && key in s.tasks
    ensures var t := Without(s, key, gone);
            && t.tasks.Keys == s.tasks.Keys
            && (forall k :: Live(t.tasks, k) <= Live(s.tasks, k))
            && (forall k :: k != key ==> Live(t.tasks, k) == Live(s.tasks, k))
            && (forall id :: id in t.table ==> id in s.table)
            && (forall id :: id in s.table && Live(t.tasks, s.all[id].key) != {} ==> id in t.table)
            && (Live(t.tasks, key) == {} && Live(s.tasks, key) != {} ==> forall id :: id in t.table ==> s.all[id].key != key)
  {}

  lemma WithoutInv(s: Scheduler, key: string, gone: set<nat>)
    requires Inv(s)
    ensures Inv(Without(s, key, gone))
  {
    if key in s.tasks {
      var t := Without(s, key, gone);
      WithoutQueued(s, OtherJobs(s.all, s.table, key));
      WithoutLive(s, key, gone);
      WithoutAttended(s, t, key);
      WithoutNothingStale(s, t);
    }
  }

  lemma WithoutQueued(s: Scheduler, keep: set<nat>)
    requires WellFormed(s) && Queued(s.all, s.table)
    ensures var r := Only(s.table, keep);
            Known(s.all, r) && Queued(s.all, r) && NumRunning(s.all, r) <= NumRunning(s.all, s.table)
  {
    OnlyKeepsOrder(s.all, s.table, keep);
    OnlyKeepsKeys(s.all, s.table, keep);
    OnlyRunsFewer(s.all, s.table, keep);
  }

  lemma WithoutNothingStale(s: Scheduler, t: Scheduler)
    requires WellFormed(s) && WellFormed(t) && t.all == s.all && t.tasks.Keys == s.tasks.Keys
    requires NothingStale(s.all, s.table, s.tasks, s.nextTask)
    requires forall k :: Live(t.tasks, k) <= Live(s.tasks, k)
    requires forall id :: id in s.table && Live(t.tasks, s.all[id].key) != {} ==> id in t.table
    ensures NothingStale(t.all, t.table, t.tasks, s.nextTask)
  {
    forall j, i | 0 <= j < |s.all| && i in s.all[j].listeners && i in Live(t.tasks, s.all[j].key) ensures j in t.table {
      assert i in Live(s.tasks, s.all[j].key);
    }
    forall k, i | k in t.tasks && i in t.tasks[k] ensures i < s.nextTask {
      assert i in Live(t.tasks, k) && i in Live(s.tasks, k);
    }
  }

  lemma WithoutAttended(s: Scheduler, t: Scheduler, key: string)
    requires WellFormed(s) && Attended(s.all, s.table, s.tasks) && WellFormed(t) && t.all == s.all
    requires forall k :: Live(t.tasks, k) <= Live(s.tasks, k)
    requires forall k :: k != key ==> Live(t.tasks, k) == Live(s.tasks, k)
    requires forall id :: id in t.table ==> id in s.table
    requires forall id :: id in s.table && Live(t.tasks, s.all[id].key) != {} ==> id in t.table
    requires Live(t.tasks, key) == {} && Live(s.tasks, key) != {} ==> forall id :: id in t.table ==> s.all[id].key != key
    ensures Attended(t.all, t.table, t.tasks)
  {
    forall k | Live(t.tasks, k) != {} ensures exists id :: id in t.table && t.all[id].key == k {
      assert Live(s.tasks, k) != {};
      var id :| id in s.table && s.all[id].key == k;
      assert id in t.table;
    }
  }

  lemma ListenersOfJob(s: Scheduler, id: nat)
    requires Inv(s) && id < |s.all|
    ensures var live, gone := Live(s.tasks, s.all[id].key), Elements(s.all[id].listeners);
            if id in s.table then live <= gone else live !! gone
  {
    var live, gone := Live(s.tasks, s.all[id].key), Elements(s.all[id].listeners);
    forall t ensures t in gone <==> t in s.all[id].listeners {}
    if id in s.table {
      forall t | t in live ensures t in gone { assert t in s.all[id].listeners; }
    }
  }

  /** A job of the table ends together with all tasks of its file; any other job ends alone, and the listeners it still
      tells are long gone. */
  lemma FinishedIs(s: Scheduler, id: nat)
    requires Inv(s) && id < |s.all|
    ensures var rest := if id in s.table then Without(s, s.all[id].key, Live(s.tasks, s.all[id].key)) else s;
            Finished(s, id) == rest.(all := s.all[id := s.all[id].(state := Complete)])
  {
    var key, gone := s.all[id].key, Elements(s.all[id].listeners);
    var ended := s.(all := s.all[id := s.all[id].(state := Complete)]);
    DeletedAllIs(ended, key, s.all[id].listeners);
    assert OtherJobs(ended.all, s.table, key) == OtherJobs(s.all, s.table, key);
    ListenersOfJob(s, id);
    if key in s.tasks {
      if id in s.table {
        assert s.tasks[key] - gone == {} == s.tasks[key] - Live(s.tasks, key);
      } else {
        assert s.tasks[key] - gone == s.tasks[key];
        assert s.tasks[key := s.tasks[key]] == s.tasks;
      }
    }
  }

  lemma EndedOutsideInv(s: Scheduler, id: nat)
    requires Inv(s) && id < |s.all| && id !in s.table
    ensures Inv(s.(all := s.all[id := s.all[id].(state := Complete)]))
  {
    var all := s.all[id := s.all[id].(state := Complete)];
    assert forall i :: 0 <= i < |s.table| ==> s.table[i] in s.table && all[s.table[i]] == s.all[s.table[i]];
    QueueFrame(s.all, all, s.table);
    AttendedFrame(s.all, all, s.table, s.tasks);
    NothingStaleFrame(s.all, all, s.table, s.tasks, s.nextTask);
  }

  lemma FinishedInv(s: Scheduler, id: nat)
    requires Inv(s) && id < |s.all|
    ensures Inv(Finished(s, id))
    ensures id !in Finished(s, id).table
  {
    var key := s.all[id].key;
    FinishedIs(s, id);
    if id in s.table {
      var rest := Without(s, key, Live(s.tasks, key));
      WithoutInv(s, key, Live(s.tasks, key));
      assert s.tasks[key] - Live(s.tasks, key) == {};
      EndedOutsideInv(rest, id);
    } else {
      EndedOutsideInv(s, id);
    }
  }

  /** No job of the table has ended, so an update drops none. */
  lemma NoneComplete(s: Scheduler)
    requires WellFormed(s) && Tabled(s.all, s.table)
    ensures Only(s.table, Incomplete(s.all, s.table)) == s.table
  {
    assert forall i :: 0 <= i < |s.table| ==> s.table[i] in s.table;
    OnlyEverything(s.table, Incomplete(s.all, s.table));
  }

  lemma StartedTabled(all: seq<Job>, jobs: seq<Job>, table: seq<nat>)
    requires Tabled(all, table) && StartedFrom(all, jobs, table)
    ensures Tabled(jobs, table) && SameTasks(all, jobs)
  {}

  lemma UpdatedInv(s: Scheduler)
    requires Inv(s)
    ensures Inv(Updated(s)) && Updated(s).table == s.table
    ensures NumRunning(Updated(s).all, s.table) == MaxRunning || NoneWaits(Updated(s).all, s.table)
  {
    NoneComplete(s);
    var active := NumRunning(s.all, s.table);
    StartedCounts(s.all, s.table, active);
    StartedFills(s.all, s.table, active);
    StartedChanges(s.all, s.table, active);
    var all := Started(s.all, s.table, active).0;
    StartedTabled(s.all, all, s.table);
    AttendedFrame(s.all, all, s.table, s.tasks);
    NothingStaleFrame(s.all, all, s.table, s.tasks, s.nextTask);
  }

  lemma DeletedIsWithout(s: Scheduler, key: string, task: nat)
    requires WellFormed(s)
    ensures Deleted(s, key, task) == Without(s, key, {task})
  {
    if key in s.tasks && task !in s.tasks[key] {
      assert s.tasks[key] - {task} == s.tasks[key] && s.tasks[key := s.tasks[key]] == s.tasks;
    }
  }

  lemma DeletedInv(s: Scheduler, key: string, task: nat)
    requires Inv(s)
    ensures Inv(Deleted(s, key, task))
  {
    DeletedIsWithout(s, key, task);
    WithoutInv(s, key, {task});
  }

  lemma StepInv(s: Scheduler, e: Event)
    requires Inv(s)
    ensures Inv(Step(s, e))
  {
    match e
    case CreateTask(key) => CreatedInv(s, key);
    case CancelTask(key, task) => DeletedInv(s, key, task);
    case UpdateTimer => UpdatedInv(s);
    case Finish(id) => if id < |s.all| { FinishedInv(s, id); }
  }

  lemma {:induction false} RunInv(events: seq<Event>)
    ensures Inv(RunOf(events))
    decreases |events|
  {
    if events != [] {
      RunInv(events[..|events| - 1]);
      StepInv(RunOf(events[..|events| - 1]), events[|events| - 1]);
    }
  }

  // ---- What holds in every run

  predicate WithinLimit(s: Scheduler)
    requires WellFormed(s)
  {
    NumRunning(s.all, s.table) <= MaxRunning && RunningFirst(s.all, s.table)
  }

  predicate SlotsFilled(s: Scheduler)
    requires WellFormed(s)
  {
    NumRunning(s.all, s.table) == MaxRunning || NoneWaits(s.all, s.table)
  }

  /** Never more than five of the table's jobs run, and no job runs before an older one. */
  lemma {:induction false} AtMostFiveRun(events: seq<Event>)
    ensures WithinLimit(RunOf(events))
  {
    RunInv(events);
  }

  /** A file has a job in the table exactly if it has a task, and then only one, which has not ended. */
  lemma {:induction false} JobIffTask(events: seq<Event>, key: string)
    ensures var s := RunOf(events);
            && (Live(s.tasks, key) != {} <==> exists id :: id in s.table && s.all[id].key == key)
            && forall a, b :: a in s.table && b in s.table && s.all[a].key == key && s.all[b].key == key ==>
                 a == b && !s.all[a].state.Complete?
  {
    RunInv(events);
    var s := RunOf(events);
    forall a, b | a in s.table && b in s.table && s.all[a].key == s.all[b].key ensures a == b {
      var i :| 0 <= i < |s.table| && s.table[i] == a;
      var j :| 0 <= j < |s.table| && s.table[j] == b;
      assert i == j;
    }
  }

  /** A job waits only while an update is on its way or five others run. */
  lemma NoLostWakeup(events: seq<Event>, id: nat)
    requires id in RunOf(events).table && RunOf(events).all[id].state.Waiting?
    ensures var s := RunOf(events); s.updateScheduled || NumRunning(s.all, s.table) == MaxRunning
  {
    RunInv(events);
  }

  /** The scheduled update starts everything it may: afterwards five jobs run or none waits. */
  lemma {:induction false} UpdateFillsSlots(events: seq<Event>)
    requires RunOf(events).updateScheduled
    ensures SlotsFilled(RunOf(events + [UpdateTimer])) && RunOf(events + [UpdateTimer]).table == RunOf(events).table
  {
    RunInv(events);
    UpdatedInv(RunOf(events));
    assert (events + [UpdateTimer])[..|events + [UpdateTimer]| - 1] == events;
  }

  /** The end of a job in the table releases every task of its file and frees its place; the end of any other job, and
      its stale listeners, change nothing else. */
  lemma {:induction false} EndReleasesExactlyItsTasks(events: seq<Event>, id: nat)
    requires id < |RunOf(events).all| && RunOf(events).all[id].state.Running?
    ensures var s, t := RunOf(events), RunOf(events + [Finish(id)]);
            var key := s.all[id].key;
            && t.all == s.all[id := s.all[id].(state := Complete)]
            && (id in s.table ==> Live(t.tasks, key) == {} && id !in t.table && t.updateScheduled)
            && (id !in s.table ==> t == s.(all := t.all))
            && (forall other :: other in s.table && other != id ==> other in t.table)
            && (forall k :: k != key ==> Live(t.tasks, k) == Live(s.tasks, k))
  {
    RunInv(events);
    var s := RunOf(events);
    FinishedIs(s, id);
    if id in s.table { OnlyTheKeyGoes(s, id); }
    assert (events + [Finish(id)])[..|events + [Finish(id)]| - 1] == events;
  }

  lemma OnlyTheKeyGoes(s: Scheduler, id: nat)
    requires Inv(s) && id in s.table
    ensures var key := s.all[id].key;
            var t := Without(s, key, Live(s.tasks, key));
            && Live(t.tasks, key) == {} && id !in t.table && t.updateScheduled
            && (forall other :: other in s.table && other != id ==> other in t.table)
            && (forall k :: k != key ==> Live(t.tasks, k) == Live(s.tasks, k))
  {
    var key := s.all[id].key;
    assert s.tasks[key] - Live(s.tasks, key) == {} != s.tasks[key];
    forall other | other in s.table && other != id ensures s.all[other].key != key {
      KeysDiffer(s, id, other);
    }
  }

  lemma KeysDiffer(s: Scheduler, id: nat, other: nat)
    requires WellFormed(s) && DistinctKeys(s.all, s.table) && id in s.table && other in s.table && other != id
    ensures s.all[other].key != s.all[id].key
  {
    var i :| 0 <= i < |s.table| && s.table[i] == id;
    var j :| 0 <= j < |s.table| && s.table[j] == other;
    assert i < j || j < i;
  }

  /** Nothing but its own end stops a running job. A job whose tasks were all cancelled leaves the table and runs on, so
      the limit holds for the table only. */
  lemma RunsUntilItEnds(s: Scheduler, e: Event, id: nat)
    requires WellFormed(s) && id < |s.all| && s.all[id].state.Running?
    ensures id < |Step(s, e).all|
    ensures Step(s, e).all[id].state.Running? <==> e != Finish(id)
  {
    var t := Step(s, e);
    match e
    case UpdateTimer =>
      var table := Only(s.table, Incomplete(s.all, s.table));
      StartedChanges(s.all, table, NumRunning(s.all, table));
      assert s.updateScheduled ==> t.all == Started(s.all, table, NumRunning(s.all, table)).0;
      assert t.all[id] == s.all[id];
    case CreateTask(key) =>
      assert t.all[id].state == s.all[id].state;
    case Finish(other) =>
      if other < |s.all| && other != id { assert t.all[id] == s.all[id]; }
    case CancelTask(_, _) =>
  }

  /** Cancelling the last task of a running job takes it out of the table exactly as its end would, but leaves it running. */
  lemma {:induction false} CancelledJobRunsOn(events: seq<Event>, id: nat, task: nat)
    requires id in RunOf(events).table && RunOf(events).all[id].state.Running?
    requires Live(RunOf(events).tasks, RunOf(events).all[id].key) == {task}
    ensures var t := RunOf(events + [CancelTask(RunOf(events).all[id].key, task)]);
            && id !in t.table && t.all == RunOf(events).all && t.all[id].state.Running?
            && NumRunning(t.all, t.table) <= NumRunning(RunOf(events).all, RunOf(events).table)
  {
    var s := RunOf(events);
    var e := CancelTask(s.all[id].key, task);
    assert (events + [e])[..|events + [e]| - 1] == events;
    assert s.tasks[s.all[id].key] - {task} == {};
    RunInv(events);
    OnlyRunsFewer(s.all, s.table, OtherJobs(s.all, s.table, s.all[id].key));
  }

  // ---- All running jobs, in the table or not

  /** The step that takes a running job out of the table: the cancelling of its last task. */
  predicate Abandons(s: Scheduler, e: Event, id: nat)
    requires WellFormed(s)
  {
    e.CancelTask? && id in s.table && s.all[id].state.Running? && e.key == s.all[id].key && Live(s.tasks, e.key) == {e.task}
  }

  predicate AbandonedAt(events: seq<Event>, id: nat, k: nat)
    requires k < |events|
  {
    Abandons(RunOf(events[..k]), events[k], id)
  }

  predicate EverAbandoned(events: seq<Event>, id: nat) {
    exists k :: 0 <= k < |events| && AbandonedAt(events, id, k)
  }

  lemma EverAbandonedOneMore(init: seq<Event>, e: Event, id: nat)
    ensures EverAbandoned(init + [e], id) <==> EverAbandoned(init, id) || Abandons(RunOf(init), e, id)
  {
    var events := init + [e];
    assert events[..|init|] == init && events[|init|] == e;
    assert forall k :: 0 <= k < |init| ==> events[..k] == init[..k] && events[k] == init[k];
    assert forall k :: 0 <= k < |init| ==> (AbandonedAt(init, id, k) <==> AbandonedAt(events, id, k));
    assert AbandonedAt(events, id, |init|) <==> Abandons(RunOf(init), e, id);
    if EverAbandoned(init, id) {
      var k :| 0 <= k < |init| && AbandonedAt(init, id, k);
      assert AbandonedAt(events, id, k);
    }
  }

  /** What one step does to a running job's place, and which jobs it starts. */
  predicate PlaceAfter(s: Scheduler, e: Event, t: Scheduler, id: nat)
    requires WellFormed(s) && WellFormed(t)
  {
    id < |t.all| && t.all[id].state.Running? ==>
      id < |s.all| && !s.all[id].state.Complete?
      && (s.all[id].state.Running? ==> (id in t.table <==> id in s.table && !Abandons(s, e, id)))
      && (s.all[id].state.Waiting? ==> id in t.table)
  }

  lemma CancelPlace(s: Scheduler, key: string, task: nat, id: nat)
    requires Inv(s)
    ensures PlaceAfter(s, CancelTask(key, task), Deleted(s, key, task), id)
  {
    if id in s.table && task in Live(s.tasks, key) {
      var rest := s.tasks[key] - {task};
      assert rest == {} <==> Live(s.tasks, key) == {task};
    }
    if id < |s.all| && s.all[id].state.Waiting? { assert Deleted(s, key, task).all == s.all; }
  }

  lemma FinishPlace(s: Scheduler, other: nat, id: nat)
    requires Inv(s) && other < |s.all| && s.all[other].state.Running?
    ensures PlaceAfter(s, Finish(other), Finished(s, other), id)
  {
    FinishedIs(s, other);
    if other in s.table { OnlyTheKeyGoes(s, other); }
  }

  lemma UpdatePlace(s: Scheduler, id: nat)
    requires Inv(s)
    ensures PlaceAfter(s, UpdateTimer, Updated(s), id)
  {
    UpdatedInv(s);
    StartedChanges(s.all, s.table, NumRunning(s.all, s.table));
    NoneComplete(s);
  }

  lemma StepPlace(s: Scheduler, e: Event, id: nat)
    requires Inv(s)
    ensures PlaceAfter(s, e, Step(s, e), id)
  {
    match e
    case CreateTask(key) =>
    case CancelTask(key, task) => CancelPlace(s, key, task, id);
    case UpdateTimer => if s.updateScheduled { UpdatePlace(s, id); }
    case Finish(other) => if other < |s.all| && s.all[other].state.Running? { FinishPlace(s, other, id); }
  }

  /** Jobs stay, and none goes back to waiting. */
  lemma NoneGoesBack(s: Scheduler, e: Event, id: nat)
    requires Inv(s) && id < |s.all| && !s.all[id].state.Waiting?
    ensures id < |Step(s, e).all| && !Step(s, e).all[id].state.Waiting?
  {
    match e
    case UpdateTimer =>
      var table := Only(s.table, Incomplete(s.all, s.table));
      StartedChanges(s.all, table, NumRunning(s.all, table));
      assert s.updateScheduled ==> Step(s, e).all == Started(s.all, table, NumRunning(s.all, table)).0;
    case CreateTask(key) => assert Step(s, e).all[id].state == s.all[id].state;
    case _ =>
  }

  lemma {:induction false} AbandonedWasRunning(events: seq<Event>, id: nat)
    requires EverAbandoned(events, id)
    ensures id < |RunOf(events).all| && !RunOf(events).all[id].state.Waiting?
    decreases |events|
  {
    var init, e := events[..|events| - 1], events[|events| - 1];
    assert events == init + [e];
    EverAbandonedOneMore(init, e, id);
    RunInv(init);
    if EverAbandoned(init, id) { AbandonedWasRunning(init, id); }
    NoneGoesBack(RunOf(init), e, id);
  }

  /** In every run a running job is outside the table if and only if its last task was cancelled while it ran. */
  lemma {:induction false} OutsideIffAbandoned(events: seq<Event>, id: nat)
    requires id < |RunOf(events).all| && RunOf(events).all[id].state.Running?
    ensures id !in RunOf(events).table <==> EverAbandoned(events, id)
    decreases |events|
  {
    var init, e := events[..|events| - 1], events[|events| - 1];
    var s := RunOf(init);
    assert events == init + [e];
    EverAbandonedOneMore(init, e, id);
    RunInv(init);
    StepPlace(s, e, id);
    if s.all[id].state.Running? {
      OutsideIffAbandoned(init, id);
      StaysOutside(s, e, id);
    } else if EverAbandoned(init, id) {
      AbandonedWasRunning(init, id);
    }
  }

  lemma StaysOutside(s: Scheduler, e: Event, id: nat)
    requires Inv(s) && id < |s.all|
    ensures Abandons(s, e, id) ==> id in s.table
  {
  }

  function RunningIds(all: seq<Job>): set<nat> {
    set id | 0 <= id < |all| && all[id].state.Running?
  }

  function RunningIn(all: seq<Job>, table: seq<nat>): set<nat>
    requires Known(all, table)
  {
    set id | id in table && all[id].state.Running?
  }

  lemma {:induction false} RunningInCounts(all: seq<Job>, table: seq<nat>)
    requires Known(all, table) && DistinctKeys(all, table)
    ensures |RunningIn(all, table)| == NumRunning(all, table)
    decreases |table|
  {
    if table != [] {
      RunningInCounts(all, table[..|table| - 1]);
      RunningInLast(all, table);
    }
  }

  lemma RunningInLast(all: seq<Job>, table: seq<nat>)
    requires Known(all, table) && DistinctKeys(all, table) && table != []
    ensures var init, last := table[..|table| - 1], table[|table| - 1];
            && last !in RunningIn(all, init)
            && RunningIn(all, table) == RunningIn(all, init) + if all[last].state.Running? then {last} else {}
  {
    var init, last := table[..|table| - 1], table[|table| - 1];
    LastIsNew(all, table);
    assert table == init + [last];
    assert forall id :: id in table <==> id in init || id == last;
  }

  function Abandoned(events: seq<Event>): set<nat> {
    set id | id in RunningIds(RunOf(events).all) && EverAbandoned(events, id)
  }

  /** In every run the jobs running in all are those of the table, at most five, and those abandoned and not yet ended. */
  lemma {:induction false} RunningInAll(events: seq<Event>)
    ensures var s := RunOf(events);
            && |RunningIds(s.all)| == NumRunning(s.all, s.table) + |Abandoned(events)|
            && NumRunning(s.all, s.table) <= MaxRunning
  {
    RunInv(events);
    var s := RunOf(events);
    RunningInCounts(s.all, s.table);
    var inside := RunningIn(s.all, s.table);
    forall id | id in RunningIds(s.all) ensures id in inside <==> id !in Abandoned(events) {
      OutsideIffAbandoned(events, id);
    }
    assert RunningIds(s.all) == inside + Abandoned(events) && inside !! Abandoned(events);
  }

  predicate NothingAbandoned(events: seq<Event>) {
    forall k :: 0 <= k < |events| && events[k].CancelTask? ==>
      var s := RunOf(events[..k]);
      forall id :: id in s.table ==> !Abandons(s, events[k], id)
  }

  /** If no cancelled task was the last of a running job, at most five jobs run in all. */
  lemma {:induction false} AtMostFiveInAll(events: seq<Event>)
    requires NothingAbandoned(events)
    ensures |RunningIds(RunOf(events).all)| <= MaxRunning
  {
    RunningInAll(events);
    forall id ensures id !in Abandoned(events) {
      assert forall k :: 0 <= k < |events| ==> !AbandonedAt(events, id, k);
    }
    assert Abandoned(events) == {};
  }

  /** Asks for the same file n times, starts its download and cancels the task. */
  function AskAndCancel(key: string, n: nat): seq<Event> {
    if n == 0 then []
    else AskAndCancel(key, n - 1) + [Event.CreateTask(key)] + [UpdateTimer] + [CancelTask(key, n - 1)]
  }

  predicate AllRunningOutside(s: Scheduler, key: string, n: nat) {
    && |s.all| == n && s.table == [] && s.nextTask == n && Live(s.tasks, key) == {}
    && forall i :: 0 <= i < n ==> s.all[i].state.Running?
  }

  lemma RunStep(events: seq<Event>, e: Event)
    ensures RunOf(events + [e]) == Step(RunOf(events), e)
  {
    assert (events + [e])[..|events + [e]| - 1] == events;
  }

  lemma AskStep(s: Scheduler, key: string, n: nat)
    requires AllRunningOutside(s, key, n)
    ensures var t := Step(s, Event.CreateTask(key));
            && WellFormed(s) && t.all == s.all + [Job(key, Waiting, [n])] && t.table == [n] && t.updateScheduled
            && t.nextTask == n + 1 && key in t.tasks && t.tasks[key] == {n}
  {
    assert JobOf(s.all, s.table, key) == None;
    assert {} + {n} == {n};
  }

  lemma StartStep(s: Scheduler, key: string, n: nat)
    requires |s.all| == n + 1 && s.table == [n] && s.all[n].state.Waiting? && s.updateScheduled
    ensures WellFormed(s)
    ensures Step(s, UpdateTimer) == s.(updateScheduled := false, all := s.all[n := s.all[n].(state := Running)])
  {
    assert [n][..0] == [];
    assert Only([n], Incomplete(s.all, [n])) == [n];
    assert NumRunning(s.all, [n]) == 0;
    assert Started(s.all, [n], 0) == StartOne(s.all, 0, n);
  }

  lemma CancelStep(s: Scheduler, key: string, n: nat)
    requires |s.all| == n + 1 && s.table == [n] && s.all[n].key == key && key in s.tasks && s.tasks[key] == {n}
    ensures WellFormed(s)
    ensures var t := Step(s, CancelTask(key, n)); t.all == s.all && t.table == [] && t.nextTask == s.nextTask && Live(t.tasks, key) == {}
  {
    assert {n} - {n} == {};
    assert [n][..0] == [];
    assert n !in OtherJobs(s.all, s.table, key);
    assert Only([n], OtherJobs(s.all, s.table, key)) == [];
    assert Live(s.tasks, key) == {n};
  }

  /** So there is no bound on the jobs running in all: for every n there is a run after which n of them, all for the same
      file, run outside the table. */
  lemma {:induction false} AnyNumberMayRun(key: string, n: nat)
    ensures AllRunningOutside(RunOf(AskAndCancel(key, n)), key, n)
    ensures |RunningIds(RunOf(AskAndCancel(key, n)).all)| == n
  {
    if n > 0 {
      AnyNumberMayRun(key, n - 1);
      var before := AskAndCancel(key, n - 1);
      RunStep(before, Event.CreateTask(key));
      RunStep(before + [Event.CreateTask(key)], UpdateTimer);
      RunStep(before + [Event.CreateTask(key)] + [UpdateTimer], CancelTask(key, n - 1));
      AskStep(RunOf(before), key, n - 1);
      var s1 := RunOf(before + [Event.CreateTask(key)]);
      StartStep(s1, key, n - 1);
      CancelStep(Step(s1, UpdateTimer), key, n - 1);
    }
    AllIdsRun(RunOf(AskAndCancel(key, n)).all, n);
  }

  lemma {:induction false} AllIdsRun(all: seq<Job>, n: nat)
    requires n <= |all| && (forall i :: 0 <= i < n ==> all[i].state.Running?)
    ensures |RunningIds(all[..n])| == n
    ensures n == |all| ==> |RunningIds(all)| == n
  {
    if n > 0 {
      AllIdsRun(all, n - 1);
      assert RunningIds(all[..n]) == RunningIds(all[..n - 1]) + {n - 1};
    } else {
      assert RunningIds(all[..0]) == {};
    }
    assert n == |all| ==> all[..n] == all;
  }

  // ---- The objects

  /** What the scheduler sees of a job. */
  class TableJob {
    ghost const id: nat
    const key: string
    var isRunning: bool
    var isComplete: bool
    var listeners: seq<nat>

    ghost function Model(): Job
      reads this
    {
      Job(key, if isComplete then Complete else if isRunning then Running else Waiting, listeners)
    }

    constructor (ghost id: nat, key: string)
      ensures this.id == id && Model() == Job(key, Waiting, [])
      ensures !isRunning && !isComplete
    {
      this.id, this.key := id, key;
      isRunning, isComplete, listeners := false, false, [];
    }
  }

  lemma {:induction false} FirstIsJobOf(all: seq<Job>, table: seq<nat>, key: string, index: nat)
    requires Known(all, table) && index <= |table|
    requires forall i :: 0 <= i < index ==> all[table[i]].key != key
    requires index < |table| ==> all[table[index]].key == key
    ensures JobOf(all, table, key) == if index < |table| then Some(table[index]) else None
    decreases index
  {
    if index > 0 { FirstIsJobOf(all, table[1..], key, index - 1); }
  }

  lemma OnlyExtends(table: seq<nat>, i: nat, keep: set<nat>)
    requires i < |table|
    ensures Only(table[..i + 1], keep) == Only(table[..i], keep) + if table[i] in keep then [table[i]] else []
  {
    assert table[..i + 1][..i] == table[..i];
  }

  ghost function Models(jobs: seq<TableJob>): (r: seq<Job>)
    reads jobs
    ensures |r| == |jobs| && forall i :: 0 <= i < |jobs| ==> r[i] == jobs[i].Model()
  {
    seq(|jobs|, i requires 0 <= i < |jobs| reads jobs => jobs[i].Model())
  }

  ghost function Ids(jobs: seq<TableJob>): (r: seq<nat>)
    ensures |r| == |jobs| && forall i :: 0 <= i < |jobs| ==> r[i] == jobs[i].id
  {
    seq(|jobs|, i requires 0 <= i < |jobs| => jobs[i].id)
  }

  class DownloadOptimizer {
    ghost var all: seq<TableJob>
    /** Ordered by insertion, with at most one job per key. */
    var jobs: seq<TableJob>
    var tasks: map<string, set<nat>>
    var nextTask: nat
    var updateScheduled: bool

    ghost predicate Valid()
      reads this, all
    {
      && (forall i :: 0 <= i < |all| ==> all[i].id == i && !(all[i].isRunning && all[i].isComplete))
      && (forall i :: 0 <= i < |jobs| ==> jobs[i].id < |all| && all[jobs[i].id] == jobs[i])
    }

    ghost function Model(): (s: Scheduler)
      requires Valid()
      reads this, all
      ensures WellFormed(s)
    {
      Scheduler(Models(all), Ids(jobs), tasks, nextTask, updateScheduled)
    }

    constructor ()
      ensures Valid() && Model() == Initial
    {
      all, jobs, tasks, nextTask, updateScheduled := [], [], map[], 0, false;
    }

    method FindJob(key: string) returns (index: nat)
      requires Valid()
      ensures index <= |jobs| && (forall i :: 0 <= i < index ==> jobs[i].key != key)
      ensures index < |jobs| ==> jobs[index].key == key
    {
      index := 0;
      while index < |jobs| && jobs[index].key != key
        invariant index <= |jobs| && forall i :: 0 <= i < index ==> jobs[i].key != key
      {
        index := index + 1;
      }
    }

    method CreateTask(key: string) returns (task: nat)
      requires Valid()
      modifies this, all
      ensures Valid() && Model() == Step(old(Model()), Event.CreateTask(key)) && task == old(nextTask)
    {
      task := nextTask;
      JoinJob(key, task);
      RegisterTask(key, task);
    }

    method RegisterTask(key: string, task: nat)
      modifies this`tasks, this`nextTask, this`updateScheduled
      ensures tasks == old(tasks)[key := Live(old(tasks), key) + {task}]
      ensures nextTask == old(nextTask) + 1 && updateScheduled
    {
      tasks := tasks[key := (if key in tasks then tasks[key] else {}) + {task}];
      nextTask, updateScheduled := nextTask + 1, true;
    }

    method JoinJob(key: string, task: nat)
      requires Valid() && task == nextTask
      modifies this`jobs, this`all, all
      ensures Valid()
      ensures Models(all) == Created(old(Model()), key).all && Ids(jobs) == Created(old(Model()), key).table
    {
      var index := FindJob(key);
      FirstIsJobOf(Models(all), Ids(jobs), key, index);
      if index < |jobs| {
        Join(jobs[index], task);
      } else {
        AddJob(key, task);
      }
    }

    method AddJob(key: string, task: nat)
      requires Valid()
      modifies this`jobs, this`all
      ensures Valid()
      ensures Models(all) == old(Models(all)) + [Job(key, Waiting, [task])] && Ids(jobs) == old(Ids(jobs)) + [|old(all)|]
    {
      var job := new TableJob(|all|, key);
      job.listeners := [task];
      jobs, all := jobs + [job], all + [job];
    }

    method Join(job: TableJob, task: nat)
      requires Valid() && job in jobs
      modifies job`listeners
      ensures Valid()
      ensures Models(all) == old(Models(all))[job.id := job.Model()]
      ensures job.Model() == old(job.Model()).(listeners := old(job.listeners) + [task])
    {
      job.listeners := job.listeners + [task];
    }

    method DeleteTask(key: string, task: nat)
      requires Valid()
      modifies this
      ensures Valid() && Model() == Deleted(old(Model()), key, task)
      ensures all == old(all)
    {
      if key !in tasks || task !in tasks[key] {
        return;
      }
      var rest := tasks[key] - {task};
      SetTasks(key, rest);
      if rest == {} {
        RemoveJob(key);
      }
      ScheduleUpdate();
    }

    method SetTasks(key: string, rest: set<nat>)
      requires Valid()
      modifies this`tasks
      ensures Valid() && Model() == old(Model()).(tasks := old(tasks)[key := rest])
    {
      tasks := tasks[key := rest];
    }

    method ScheduleUpdate()
      requires Valid()
      modifies this`updateScheduled
      ensures Valid() && Model() == old(Model()).(updateScheduled := true)
    {
      if updateScheduled {
        return;
      }
      updateScheduled := true;
    }

    /** The job is not told. */
    method RemoveJob(key: string)
      requires Valid()
      modifies this`jobs
      ensures Valid() && Model() == old(Model()).(table := Only(old(Model()).table, OtherJobs(old(Model()).all, old(Model()).table, key)))
    {
      TableJobs(key);
      jobs := JobsExcept(key, OtherJobs(Models(all), Ids(jobs), key));
    }

    lemma TableJobs(key: string)
      requires Valid()
      ensures forall i :: 0 <= i < |jobs| ==> (jobs[i].id in OtherJobs(Models(all), Ids(jobs), key) <==> jobs[i].key != key)
      ensures forall i :: 0 <= i < |jobs| ==> (jobs[i].id in Incomplete(Models(all), Ids(jobs)) <==> !jobs[i].isComplete)
    {
      assert forall i :: 0 <= i < |jobs| ==> Ids(jobs)[i] in Ids(jobs) && Models(all)[jobs[i].id] == jobs[i].Model();
    }

    method JobsExcept(key: string, ghost keep: set<nat>) returns (kept: seq<TableJob>)
      requires forall i :: 0 <= i < |jobs| ==> (jobs[i].id in keep <==> jobs[i].key != key)
      ensures forall k :: 0 <= k < |kept| ==> kept[k] in jobs
      ensures Ids(kept) == Only(Ids(jobs), keep)
    {
      kept := [];
      for i := 0 to |jobs|
        invariant forall k :: 0 <= k < |kept| ==> kept[k] in jobs
        invariant Ids(kept) == Only(Ids(jobs)[..i], keep)
      {
        OnlyExtends(Ids(jobs), i, keep);
        if jobs[i].key != key {
          kept := kept + [jobs[i]];
        }
      }
      assert Ids(jobs)[..|jobs|] == Ids(jobs);
    }

    method OnUpdateTimer()
      requires Valid() && updateScheduled
      modifies this, all
      ensures Valid() && Model() == Step(old(Model()), UpdateTimer)
    {
      ghost var was := Model();
      updateScheduled := false;
      assert Model() == was.(updateScheduled := false);
      Update();
      assert Models(all) == Updated(was).all && Ids(jobs) == Updated(was).table;
    }

    method Update()
      requires Valid()
      modifies this`jobs, all
      ensures Valid() && Models(all) == Updated(old(Model())).all && Ids(jobs) == Updated(old(Model())).table
    {
      RemoveCompleteJobs();
      var active := CountRunning();
      StartJobs(active);
    }

    method RemoveCompleteJobs()
      requires Valid()
      modifies this`jobs
      ensures Valid() && Model() == old(Model()).(table := Only(old(Model()).table, Incomplete(old(Model()).all, old(Model()).table)))
    {
      TableJobs("");
      jobs := IncompleteJobs(Incomplete(Models(all), Ids(jobs)));
    }

    method IncompleteJobs(ghost keep: set<nat>) returns (kept: seq<TableJob>)
      requires forall i :: 0 <= i < |jobs| ==> (jobs[i].id in keep <==> !jobs[i].isComplete)
      ensures forall k :: 0 <= k < |kept| ==> kept[k] in jobs
      ensures Ids(kept) == Only(Ids(jobs), keep)
    {
      kept := [];
      for i := 0 to |jobs|
        invariant forall k :: 0 <= k < |kept| ==> kept[k] in jobs
        invariant Ids(kept) == Only(Ids(jobs)[..i], keep)
      {
        OnlyExtends(Ids(jobs), i, keep);
        if !jobs[i].isComplete {
          kept := kept + [jobs[i]];
        }
      }
      assert Ids(jobs)[..|jobs|] == Ids(jobs);
    }

    method CountRunning() returns (active: nat)
      requires Valid()
      ensures active == NumRunning(Model().all, Model().table)
    {
      active := 0;
      ghost var table := Ids(jobs);
      for i := 0 to |jobs|
        invariant active == NumRunning(Models(all), table[..i])
      {
        assert table[..i + 1][..i] == table[..i];
        assert Models(all)[table[i]] == jobs[i].Model();
        if jobs[i].isRunning {
          active := active + 1;
        }
      }
      assert table[..|jobs|] == table;
    }

    method StartJobs(active: nat)
      requires Valid()
      modifies all
      ensures Valid() && Model() == old(Model()).(all := Started(old(Model()).all, old(Model()).table, active).0)
    {
      var numActive := active;
      ghost var table, was := Ids(jobs), Models(all);
      for i := 0 to |jobs|
        invariant Valid() && (Models(all), numActive) == Started(was, table[..i], active)
      {
        assert table[..i + 1][..i] == table[..i];
        numActive := StartIfAllowed(jobs[i], numActive);
      }
      assert table[..|jobs|] == table;
    }

    method StartIfAllowed(job: TableJob, active: nat) returns (nowActive: nat)
      requires Valid() && job in jobs
      modifies job`isRunning
      ensures Valid() && (Models(all), nowActive) == StartOne(old(Models(all)), active, job.id)
    {
      nowActive := active;
      assert Models(all)[job.id] == job.Model();
      if active < MaxRunning {
        if !job.isRunning && !job.isComplete {
          Start(job);
          nowActive := active + 1;
        }
      }
    }

    method Start(job: TableJob)
      requires Valid() && job in jobs && job.Model().state.Waiting?
      modifies job`isRunning
      ensures Valid() && Models(all) == old(Models(all))[job.id := old(job.Model()).(state := Running)]
    {
      job.isRunning := true;
    }

    /** A running job ends, well or badly, and tells its listeners. */
    method JobEnds(job: TableJob)
      requires Valid() && job.id < |all| && all[job.id] == job && job.isRunning
      modifies this, job
      ensures Valid() && Model() == Step(old(Model()), Finish(job.id))
    {
      ghost var was := Model();
      job.isComplete, job.isRunning := true, false;
      assert Models(all) == was.all[job.id := was.all[job.id].(state := Complete)];
      TellListeners(job.key, job.listeners);
    }

    method TellListeners(key: string, listeners: seq<nat>)
      requires Valid()
      modifies this
      ensures Valid() && Model() == DeletedAll(old(Model()), key, listeners)
    {
      for i := 0 to |listeners|
        invariant Valid() && all == old(all) && Model() == DeletedAll(old(Model()), key, listeners[..i])
      {
        assert listeners[..i + 1][..i] == listeners[..i];
        DeleteTask(key, listeners[i]);
      }
      assert listeners[..|listeners|] == listeners;
    }
  }
}
