/** What creating and cancelling one task does to the scheduler, in every run: to this task and its file, and to no other. */
module TaskLifecycle {
  import opened Wrappers
  import opened DownloadScheduler

  lemma StepOf(events: seq<Event>, e: Event)
    ensures RunOf(events + [e]) == Step(RunOf(events), e)
  {
    assert (events + [e])[..|events + [e]| - 1] == events;
  }

  lemma JobsAreApart(s: Scheduler, a: nat, b: nat)
    requires Inv(s) && a in s.table && b in s.table && a != b
    ensures s.all[a].key != s.all[b].key
  {
    KeysDiffer(s, a, b);
  }

  lemma CreatedAddsOne(s: Scheduler, key: string, other: string)
    requires WellFormed(s)
    ensures var t := Created(s, key);
            && t.nextTask == s.nextTask + 1 && t.updateScheduled
            && Live(t.tasks, other) == if other == key then Live(s.tasks, other) + {s.nextTask} else Live(s.tasks, other)
  {
  }

  /** In every run the next task is one that no file has. */
  lemma {:induction false} NewTaskIsNew(events: seq<Event>, key: string)
    ensures RunOf(events).nextTask !in Live(RunOf(events).tasks, key)
  {
    RunInv(events);
  }

  /** A created task is one more of its file's, no other file's change, and an update is scheduled. */
  lemma {:induction false} CreatingAddsOneTask(events: seq<Event>, key: string, other: string)
    ensures var s, t := RunOf(events), RunOf(events + [CreateTask(key)]);
            && t.nextTask == s.nextTask + 1 && t.updateScheduled
            && Live(t.tasks, other) == if other == key then Live(s.tasks, other) + {s.nextTask} else Live(s.tasks, other)
  {
    StepOf(events, CreateTask(key));
    CreatedAddsOne(RunOf(events), key, other);
  }

  /** A file without tasks gets a new job, waiting at the end of the table with this task as its only listener. */
  lemma {:induction false} FirstTaskBringsJob(events: seq<Event>, key: string)
    requires Live(RunOf(events).tasks, key) == {}
    ensures var s, t := RunOf(events), RunOf(events + [CreateTask(key)]);
            t.table == s.table + [|s.all|] && t.all == s.all + [Job(key, Waiting, [s.nextTask])]
  {
    RunInv(events);
    StepOf(events, CreateTask(key));
    assert JobOf(RunOf(events).all, RunOf(events).table, key).None?;
  }

  /** Any further task of a file joins the job it has. */
  lemma {:induction false} FurtherTaskJoins(events: seq<Event>, key: string, id: nat)
    requires id in RunOf(events).table && RunOf(events).all[id].key == key
    ensures var s, t := RunOf(events), RunOf(events + [CreateTask(key)]);
            && t.table == s.table
            && t.all == s.all[id := Job(key, s.all[id].state, s.all[id].listeners + [s.nextTask])]
  {
    RunInv(events);
    StepOf(events, CreateTask(key));
    var found := JobOf(RunOf(events).all, RunOf(events).table, key);
    if found.value != id { JobsAreApart(RunOf(events), found.value, id); }
  }

  /** Cancelling takes away this one task and no other; a task that is not there changes nothing. */
  lemma {:induction false} CancellingRemovesOneTask(events: seq<Event>, key: string, task: nat, other: string)
    ensures var s, t := RunOf(events), RunOf(events + [CancelTask(key, task)]);
            && t.all == s.all && t.nextTask == s.nextTask
            && Live(t.tasks, other) == Live(s.tasks, other) - (if other == key then {task} else {})
            && (task in Live(s.tasks, key) ==> t.updateScheduled)
            && (task !in Live(s.tasks, key) ==> t == s)
  {
    StepOf(events, CancelTask(key, task));
  }

  lemma OnlyOneMore(table: seq<nat>, last: nat, keep: set<nat>)
    ensures Only(table + [last], keep) == Only(table, keep) + if last in keep then [last] else []
  {
    assert (table + [last])[..|table|] == table;
  }

  lemma {:induction false} OnlyAllBut(before: seq<nat>, out: nat, after: seq<nat>, keep: set<nat>)
    requires Within(before, keep) && out !in keep && Within(after, keep)
    ensures Only(before + [out] + after, keep) == before + after
    decreases |after|
  {
    if after == [] {
      OnlyOneMore(before, out, keep);
      OnlyEverything(before, keep);
      assert before + [out] + after == before + [out];
    } else {
      var init, last := after[..|after| - 1], after[|after| - 1];
      OnlyAllBut(before, out, init, keep);
      OnlyOneMore(before + [out] + init, last, keep);
      Regroup(before + [out], after);
      Regroup(before, after);
    }
  }

  lemma Regroup(a: seq<nat>, b: seq<nat>)
    requires b != []
    ensures a + b == a + b[..|b| - 1] + [b[|b| - 1]]
  {
  }

  lemma OnlyDropsOne(table: seq<nat>, i: nat, keep: set<nat>)
    requires i < |table| && table[i] !in keep && forall j :: 0 <= j < |table| && j != i ==> table[j] in keep
    ensures Only(table, keep) == table[..i] + table[i + 1..]
  {
    assert table[..i] + [table[i]] + table[i + 1..] == table;
    OnlyAllBut(table[..i], table[i], table[i + 1..], keep);
  }

  lemma OnlyItsJob(s: Scheduler, i: nat)
    requires Inv(s) && i < |s.table|
    ensures var keep := OtherJobs(s.all, s.table, s.all[s.table[i]].key);
            s.table[i] !in keep && forall j :: 0 <= j < |s.table| && j != i ==> s.table[j] in keep
  {
    assert forall j :: 0 <= j < |s.table| ==> s.table[j] in s.table;
  }

  /** As long as the file has another task the table stays; with the last one exactly the file's job leaves it, and the
      others keep their order. */
  lemma {:induction false} LastTaskTakesJob(events: seq<Event>, key: string, task: nat, i: nat)
    requires i < |RunOf(events).table| && RunOf(events).all[RunOf(events).table[i]].key == key
    requires task in Live(RunOf(events).tasks, key)
    ensures var s, t := RunOf(events), RunOf(events + [CancelTask(key, task)]);
            t.table == if Live(s.tasks, key) == {task} then s.table[..i] + s.table[i + 1..] else s.table
  {
    RunInv(events);
    StepOf(events, CancelTask(key, task));
    var s := RunOf(events);
    assert s.tasks[key] - {task} == {} <==> s.tasks[key] == {task};
    OnlyItsJob(s, i);
    OnlyDropsOne(s.table, i, OtherJobs(s.all, s.table, key));
  }

  lemma JobOfTask(t: Scheduler, key: string, task: nat) returns (id: nat)
    requires Inv(t) && task in Live(t.tasks, key)
    ensures id in t.table && t.all[id].key == key
  {
    assert Live(t.tasks, key) != {};
    id :| id in t.table && t.all[id].key == key;
  }

  lemma FilledRuns(t: Scheduler, id: nat)
    requires Inv(t) && SlotsFilled(t) && id in t.table
    ensures t.all[id].state.Running? || NumRunning(t.all, t.table) == 5
  {
  }

  lemma {:induction false} TasksStay(created: seq<Event>)
    ensures RunOf(created + [UpdateTimer]).tasks == RunOf(created).tasks
  {
    StepOf(created, UpdateTimer);
  }

  /** From any run, a task and one update later its file's job runs, unless five others do. */
  lemma {:induction false} CreatedTaskRuns(events: seq<Event>, key: string) returns (id: nat)
    ensures var t := RunOf(events + [CreateTask(key)] + [UpdateTimer]);
            && id in t.table && t.all[id].key == key
            && (t.all[id].state.Running? || NumRunning(t.all, t.table) == 5)
  {
    var created := events + [CreateTask(key)];
    CreatingAddsOneTask(events, key, key);
    TasksStay(created);
    RunInv(created + [UpdateTimer]);
    id := JobOfTask(RunOf(created + [UpdateTimer]), key, RunOf(events).nextTask);
    UpdateFillsSlots(created);
    FilledRuns(RunOf(created + [UpdateTimer]), id);
  }
}
