/** The invariant of the output files over whole runs. */
module ReduceRuns {
  import opened Rpc
  import opened Bags
  import opened Wire
  import opened Names
  import opened Files
  import opened Coordination
  import opened Work
  import opened Sequential
  import E = ExactlyOnce
  import opened Cluster
  import opened MapSide
  import opened ReduceSide
  import opened ReduceSteps

  // ---- How the entries change ----

  /** New entries are those of reduce tasks only when the last map task is reported. */
  lemma GrowsStep(job: Job, s: Sys, l: Label, s': Sys)
    requires Step(job, s, l, s')
    ensures Grows(s.m.c.tasks, s'.m.c.tasks)
  {
    match l
    case TaskDone(id, created, outs, order) => ReportTasks(s, id, created, outs, order, s', job);
    case Done(clock) => ExpiredAt(s.m.c, clock);
    case _ =>
  }

  lemma NoneTimedOutBefore(job: Job, s: Sys, l: Label, s': Sys)
    requires Step(job, s, l, s') && NoReduceTimeout(s')
    ensures NoReduceTimeout(s)
  {
    GrowsStep(job, s, l, s');
    E.FirstIdleIs(s.m.c.tasks, 0);
    forall t | 0 <= t < |s.m.c.tasks| && s.m.c.tasks[t].kind == Reduce ensures s.m.c.tasks[t].status != TimedOut {
      assert s'.m.c.tasks[t].status != TimedOut;
      match l
      case TaskDone(id, created, outs, order) => ReportTasks(s, id, created, outs, order, s', job);
      case Done(clock) => ExpiredAt(s.m.c, clock);
      case _ =>
    }
  }

  /** Without reduce timeouts, Done touches no reduce entry and adds none. */
  lemma DoneReduces(job: Job, s: Sys, clock: nat -> int, s': Sys)
    requires Step(job, s, Done(clock), s') && NoReduceTimeout(s')
    ensures Grows(s.m.c.tasks, s'.m.c.tasks)
    ensures forall t :: 0 <= t < |s.m.c.tasks| && s.m.c.tasks[t].kind == Reduce ==> s'.m.c.tasks[t] == s.m.c.tasks[t]
    ensures forall t :: |s.m.c.tasks| <= t < |s'.m.c.tasks| ==> s'.m.c.tasks[t].kind == Map && s'.m.c.tasks[t].status == Idle
  {
    ExpiredAt(s.m.c, clock);
    var tasks, tasks' := s.m.c.tasks, s'.m.c.tasks;
    forall t | |tasks| <= t < |tasks'| ensures tasks'[t].kind == Map && tasks'[t].status == Idle {
      var from := FreshFrom(tasks, clock, t - |tasks|);
      assert tasks'[from].status == TimedOut;
    }
  }

  // ---- The list of finished files ----

  lemma OutsKept(job: Job, fs0: Fs, s: Sys, s': Sys)
    requires OutsOk(job, fs0, s) && s'.outs == s.outs && Grows(s.m.c.tasks, s'.m.c.tasks)
    requires s'.m.c.phase == MapPhase <==> s.m.c.phase == MapPhase
    requires forall t :: 0 <= t < |s.m.c.tasks| && s.m.c.tasks[t].kind == Map && s.m.c.phase != MapPhase ==>
               (s'.m.c.tasks[t].status == Completed <==> s.m.c.tasks[t].status == Completed)
    requires forall t :: |s.m.c.tasks| <= t < |s'.m.c.tasks| ==> s'.m.c.tasks[t].kind == Map && s'.m.c.tasks[t].status == Idle
    ensures OutsOk(job, fs0, s')
  {
    if s.m.c.phase != MapPhase {
      forall n ensures IsOut(job, fs0, s'.m.c.tasks, n) <==> IsOut(job, fs0, s.m.c.tasks, n) { }
    }
  }

  /** The finished files of a state are those that its map tasks account for. */
  lemma OutsExact(job: Job, fs0: Fs, s: Sys, inputs: seq<string>, n: Name)
    requires MapInv(job, fs0, s, inputs)
    ensures n.MapOut? && n in s.fs <==> IsOut(job, fs0, s.m.c.tasks, n)
  {
    if n.MapOut? {
      var tasks, t := s.m.c.tasks, n.task;
      assert TaskOk(job, fs0, tasks, s.work, s.fs, t);
      var done := if t < |tasks| && tasks[t].kind == Map && tasks[t].status == Completed then PairsOf(job, fs0, tasks[t]) else [];
      assert FileIs(s.fs, MapOut(t, n.bucket), Selected(job, done, n.bucket));
    }
  }

  // ---- Strays ----

  lemma NoNewReduces(tasks: seq<Task>, tasks': seq<Task>)
    requires Grows(tasks, tasks') && forall t :: |tasks| <= t < |tasks'| ==> tasks'[t].kind == Map
    ensures forall t, b :: Reduces(tasks', t, b) <==> Reduces(tasks, t, b)
  {
  }

  lemma StraysKept(tasks: seq<Task>, tasks': seq<Task>, fs: Fs, fs': Fs, b0: nat)
    requires NoStrays(tasks, fs) && forall t, b :: Reduces(tasks', t, b) <==> Reduces(tasks, t, b)
    requires exists t :: Reduces(tasks, t, b0)
    requires forall b: nat :: b != b0 ==> Agree(fs, fs', TempReduce(b)) && Agree(fs, fs', ReduceOut(b))
    ensures NoStrays(tasks', fs')
  {
    forall b: nat | TempReduce(b) in fs' || ReduceOut(b) in fs' ensures exists t :: Reduces(tasks', t, b) {
      if b == b0 {
        var t :| Reduces(tasks, t, b0);
        assert Reduces(tasks', t, b0);
      } else {
        assert Agree(fs, fs', TempReduce(b)) && Agree(fs, fs', ReduceOut(b));
        var t :| Reduces(tasks, t, b);
        assert Reduces(tasks', t, b);
      }
    }
  }

  lemma StraysSame(tasks: seq<Task>, tasks': seq<Task>, fs: Fs, fs': Fs)
    requires NoStrays(tasks, fs) && forall t, b :: Reduces(tasks', t, b) <==> Reduces(tasks, t, b)
    requires forall b: nat :: Agree(fs, fs', TempReduce(b)) && Agree(fs, fs', ReduceOut(b))
    ensures NoStrays(tasks', fs')
  {
    forall b: nat | TempReduce(b) in fs' || ReduceOut(b) in fs' ensures exists t :: Reduces(tasks', t, b) {
      assert Agree(fs, fs', TempReduce(b)) && Agree(fs, fs', ReduceOut(b));
      var t :| Reduces(tasks, t, b);
      assert Reduces(tasks', t, b);
    }
  }

  // ---- Steps that touch no output file ----

  /** Steps after which every entry is as it was, but for one idle entry that may have been taken. */
  lemma QuietStep(job: Job, fs0: Fs, s: Sys, s': Sys, taken: Option<nat>)
    requires ReduceInv(job, fs0, s) && OutsOk(job, fs0, s') && s'.outs == s.outs && Grows(s.m.c.tasks, s'.m.c.tasks)
    requires forall t :: |s.m.c.tasks| <= t < |s'.m.c.tasks| ==> s'.m.c.tasks[t].kind == Map
    requires forall b: nat :: Agree(s.fs, s'.fs, TempReduce(b)) && Agree(s.fs, s'.fs, ReduceOut(b))
    requires forall t: nat :: t < |s.m.c.tasks| && s.m.c.tasks[t].kind == Reduce && taken != Some(t) ==>
               s'.m.c.tasks[t].status == s.m.c.tasks[t].status && (t in s.work ==> t in s'.work && s'.work[t] == s.work[t])
    requires taken.Some? ==>
               var t := taken.value;
               && t < |s.m.c.tasks| && s.m.c.tasks[t].status == Idle && s'.m.c.tasks[t].status == InProgress
               && (s.m.c.tasks[t].kind == Reduce ==> t in s'.work && s'.work[t] == Reading(s.m.c.tasks[t].files, 0, map[]))
    ensures ReduceInv(job, fs0, s')
  {
    NoNewReduces(s.m.c.tasks, s'.m.c.tasks);
    StraysSame(s.m.c.tasks, s'.m.c.tasks, s.fs, s'.fs);
    forall t: nat | t < |s'.m.c.tasks| ensures EntryOk(job, fs0, s'.m.c.tasks, s'.work, s'.fs, s'.outs, t) {
      if t < |s.m.c.tasks| {
        assert EntryOk(job, fs0, s.m.c.tasks, s.work, s.fs, s.outs, t);
        if taken == Some(t) { TakenOk(job, fs0, s, s', t); }
        else if s.m.c.tasks[t].kind == Reduce { EntryKept(job, fs0, s, s', t); }
      }
    }
  }

  lemma TakenOk(job: Job, fs0: Fs, s: Sys, s': Sys, t: nat)
    requires t < |s.m.c.tasks| && EntryOk(job, fs0, s.m.c.tasks, s.work, s.fs, s.outs, t) && s'.outs == s.outs
    requires Grows(s.m.c.tasks, s'.m.c.tasks) && s.m.c.tasks[t].status == Idle && s'.m.c.tasks[t].status == InProgress
    requires s.m.c.tasks[t].kind == Reduce ==> t in s'.work && s'.work[t] == Reading(s.m.c.tasks[t].files, 0, map[])
    requires forall b: nat :: Agree(s.fs, s'.fs, TempReduce(b)) && Agree(s.fs, s'.fs, ReduceOut(b))
    ensures EntryOk(job, fs0, s'.m.c.tasks, s'.work, s'.fs, s'.outs, t)
  {
    if s.m.c.tasks[t].kind == Reduce {
      var files := s.m.c.tasks[t].files;
      assert Agree(s.fs, s'.fs, TempReduce(BucketOf(files[0]))) && Agree(s.fs, s'.fs, ReduceOut(BucketOf(files[0])));
      assert files[..0] == [];
    }
  }

  lemma TakeStep(job: Job, fs0: Fs, s: Sys, w: nat, now: int, s': Sys)
    requires Step(job, s, GetTask(w, now), s') && ReduceInv(job, fs0, s)
    ensures ReduceInv(job, fs0, s')
  {
    E.FirstIdleIs(s.m.c.tasks, 0);
    OutsKept(job, fs0, s, s');
    QuietStep(job, fs0, s, s', FirstIdle(s.m.c.tasks, 0));
  }

  lemma PlainStep(job: Job, fs0: Fs, s: Sys, l: Label, s': Sys, inputs: seq<string>)
    requires Step(job, s, l, s') && MapInv(job, fs0, s, inputs) && ReduceInv(job, fs0, s)
    requires l.Register? || l.WritePair? || l.Heartbeat?
    ensures ReduceInv(job, fs0, s')
  {
    if l.WritePair? { assert TaskOk(job, fs0, s.m.c.tasks, s.work, s.fs, l.id); }
    OutsKept(job, fs0, s, s');
    QuietStep(job, fs0, s, s', None);
  }

  lemma DoneStep(job: Job, fs0: Fs, s: Sys, clock: nat -> int, s': Sys)
    requires Step(job, s, Done(clock), s') && ReduceInv(job, fs0, s) && NoReduceTimeout(s') && !s'.done
    ensures ReduceInv(job, fs0, s')
  {
    DoneReduces(job, s, clock, s');
    ExpiredAt(s.m.c, clock);
    OutsKept(job, fs0, s, s');
    QuietStep(job, fs0, s, s', None);
  }

  // ---- Steps of a reduce worker ----

  /** One entry changes, and with it at most the files of its bucket. */
  lemma OneEntryStep(job: Job, fs0: Fs, s: Sys, s': Sys, id: nat, b0: nat)
    requires ReduceInv(job, fs0, s) && OutsOk(job, fs0, s') && s'.outs == s.outs && Reduces(s.m.c.tasks, id, b0)
    requires Grows(s.m.c.tasks, s'.m.c.tasks) && |s'.m.c.tasks| == |s.m.c.tasks|
    requires forall b: nat :: b != b0 ==> Agree(s.fs, s'.fs, TempReduce(b)) && Agree(s.fs, s'.fs, ReduceOut(b))
    requires forall t: nat :: t < |s.m.c.tasks| && t != id ==>
               s'.m.c.tasks[t].status == s.m.c.tasks[t].status && (t in s.work ==> t in s'.work && s'.work[t] == s.work[t])
    requires EntryOk(job, fs0, s'.m.c.tasks, s'.work, s'.fs, s'.outs, id)
    ensures ReduceInv(job, fs0, s')
  {
    NoNewReduces(s.m.c.tasks, s'.m.c.tasks);
    StraysKept(s.m.c.tasks, s'.m.c.tasks, s.fs, s'.fs, b0);
    forall t: nat | t < |s'.m.c.tasks| ensures EntryOk(job, fs0, s'.m.c.tasks, s'.work, s'.fs, s'.outs, t) {
      if t != id {
        assert EntryOk(job, fs0, s.m.c.tasks, s.work, s.fs, s.outs, t);
        if s.m.c.tasks[t].kind == Reduce {
          var b := BucketOf(s.m.c.tasks[t].files[0]);
          assert Reduces(s.m.c.tasks, t, b);
          EntryKept(job, fs0, s, s', t);
        }
      }
    }
  }

  /** What a step of a reduce worker leaves alone. */
  ghost predicate OnlyWorker(s: Sys, s': Sys, id: nat, b0: nat)
  {
    && s'.m == s.m && s'.outs == s.outs
    && (forall t: nat :: t in s.work && t != id ==> t in s'.work && s'.work[t] == s.work[t])
    && forall b: nat :: Agree(s.fs, s'.fs, ReduceOut(b)) && (b != b0 ==> Agree(s.fs, s'.fs, TempReduce(b)))
  }

  lemma WorkerInv(job: Job, fs0: Fs, s: Sys, s': Sys, id: nat, b0: nat)
    requires ReduceInv(job, fs0, s) && OnlyWorker(s, s', id, b0) && Reduces(s.m.c.tasks, id, b0)
    requires EntryOk(job, fs0, s'.m.c.tasks, s'.work, s'.fs, s'.outs, id)
    ensures ReduceInv(job, fs0, s')
  {
    OutsKept(job, fs0, s, s');
    OneEntryStep(job, fs0, s, s', id, b0);
  }

  lemma WorkerChanges(job: Job, s: Sys, l: Label, s': Sys, b0: nat)
    requires Step(job, s, l, s') && (l.ReadFile? || l.StartWriting? || (l.WriteLine? && b0 == s.work[l.id].b))
    ensures l.id in s.work && !s.work[l.id].Mapping? && OnlyWorker(s, s', l.id, b0)
  {
  }

  lemma ReadStep(job: Job, fs0: Fs, s: Sys, l: Label, s': Sys, inputs: seq<string>)
    requires Step(job, s, l, s') && MapInv(job, fs0, s, inputs) && ReduceInv(job, fs0, s) && CleanJob(job, fs0, inputs)
    requires l.ReadFile? || l.StartWriting?
    ensures ReduceInv(job, fs0, s')
  {
    UnderWay(job, fs0, s, inputs, l.id);
    if l.ReadFile? { ReaderOk(job, fs0, s, inputs, l.id, s'); } else { StarterOk(job, fs0, s, inputs, l.id, l.keys, s'); }
    var b := BucketOf(s.m.c.tasks[l.id].files[0]);
    WorkerChanges(job, s, l, s', b);
    WorkerInv(job, fs0, s, s', l.id, b);
  }

  lemma WriteStep(job: Job, fs0: Fs, s: Sys, id: nat, s': Sys, inputs: seq<string>)
    requires Step(job, s, WriteLine(id), s') && MapInv(job, fs0, s, inputs) && ReduceInv(job, fs0, s)
    ensures ReduceInv(job, fs0, s')
  {
    LinerOk(job, fs0, s, inputs, id, s');
    WorkerChanges(job, s, WriteLine(id), s', s.work[id].b);
    WorkerInv(job, fs0, s, s', id, s.work[id].b);
  }

  /** Reports never take the phase back to mapping, and leave it only with the last map task. */
  lemma ReportPhase(job: Job, s: Sys, l: Label, s': Sys, inputs: seq<string>)
    requires Step(job, s, l, s') && l.TaskDone? && Books(s, inputs)
    ensures l.id < |s.m.c.tasks|
    ensures var ok := Filed(s.fs, IsLate(s, l.id), l.created).1;
            if LastMap(s, l.id, ok) then s.m.c.phase == MapPhase && s'.m.c.phase == ReducePhase
            else s'.m.c.phase == MapPhase <==> s.m.c.phase == MapPhase
    ensures !IsLate(s, l.id) ==> s.m.c.phase == if s.m.c.tasks[l.id].kind == Map then MapPhase else ReducePhase
  {
    if !IsLate(s, l.id) { E.ReportInPhase(s.m, l.id, inputs); }
  }

  /** What a reduce report leaves alone. */
  lemma ReduceReportKeeps(job: Job, fs0: Fs, s: Sys, s': Sys, id: nat, b0: nat)
    requires ReduceInv(job, fs0, s) && s'.outs == s.outs && Reduces(s.m.c.tasks, id, b0)
    requires s'.work == s.work - {id} && s'.m.c.tasks == s.m.c.tasks[id := s.m.c.tasks[id].(status := Completed)]
    requires s'.m.c.phase == MapPhase <==> s.m.c.phase == MapPhase
    requires forall n: Name :: n != TempReduce(b0) && n != ReduceOut(b0) ==> Agree(s.fs, s'.fs, n)
    requires EntryOk(job, fs0, s'.m.c.tasks, s'.work, s'.fs, s'.outs, id)
    ensures ReduceInv(job, fs0, s')
  {
    OutsKept(job, fs0, s, s');
    OneEntryStep(job, fs0, s, s', id, b0);
  }

  lemma ReduceReportStep(job: Job, fs0: Fs, s: Sys, l: Label, s': Sys, inputs: seq<string>)
    requires Step(job, s, l, s') && l.TaskDone? && MapInv(job, fs0, s, inputs) && ReduceInv(job, fs0, s) && !s.work[l.id].Mapping?
    ensures ReduceInv(job, fs0, s')
  {
    ReducerOk(job, fs0, s, inputs, l.id, l.created, l.outs, l.order, s');
    ReportPhase(job, s, l, s', inputs);
    ReduceReportKeeps(job, fs0, s, s', l.id, s.work[l.id].b);
  }

  // ---- Reports of map workers ----

  /** A map report that creates no reduce tasks. */
  lemma PlainReport(job: Job, s: Sys, l: Label, s': Sys)
    requires Step(job, s, l, s') && l.TaskDone? && l.id < |s.m.c.tasks| && s.m.c.tasks[l.id].kind == Map
    requires !LastMap(s, l.id, Filed(s.fs, IsLate(s, l.id), l.created).1)
    ensures s'.outs == s.outs && Grows(s.m.c.tasks, s'.m.c.tasks) && |s'.m.c.tasks| == |s.m.c.tasks|
    ensures forall t :: 0 <= t < |s.m.c.tasks| && t != l.id ==> s'.m.c.tasks[t] == s.m.c.tasks[t]
    ensures IsLate(s, l.id) ==> s'.m.c.tasks == s.m.c.tasks
  {
  }

  /** What such a report leaves alone is enough. */
  lemma MapReportKeeps(job: Job, fs0: Fs, s: Sys, s': Sys, id: nat)
    requires ReduceInv(job, fs0, s) && s'.outs == s.outs && s'.work == s.work - {id}
    requires Grows(s.m.c.tasks, s'.m.c.tasks) && |s'.m.c.tasks| == |s.m.c.tasks| && id < |s.m.c.tasks| && s.m.c.tasks[id].kind == Map
    requires forall t :: 0 <= t < |s.m.c.tasks| && t != id ==> s'.m.c.tasks[t] == s.m.c.tasks[t]
    requires s'.m.c.phase == MapPhase <==> s.m.c.phase == MapPhase
    requires s.m.c.phase != MapPhase ==> s'.m.c.tasks == s.m.c.tasks
    requires forall b: nat :: Agree(s.fs, s'.fs, TempReduce(b)) && Agree(s.fs, s'.fs, ReduceOut(b))
    ensures ReduceInv(job, fs0, s')
  {
    OutsKept(job, fs0, s, s');
    QuietStep(job, fs0, s, s', None);
  }

  lemma MapReportStep(job: Job, fs0: Fs, s: Sys, l: Label, s': Sys, inputs: seq<string>)
    requires Step(job, s, l, s') && l.TaskDone? && MapInv(job, fs0, s, inputs) && ReduceInv(job, fs0, s) && s.work[l.id].Mapping?
    requires !LastMap(s, l.id, Filed(s.fs, IsLate(s, l.id), l.created).1)
    ensures ReduceInv(job, fs0, s')
  {
    assert TaskOk(job, fs0, s.m.c.tasks, s.work, s.fs, l.id);
    ReportPhase(job, s, l, s', inputs);
    PlainReport(job, s, l, s');
    MapFiled(job, fs0, s, l.id, l.created);
    MapReportKeeps(job, fs0, s, s', l.id);
  }

  lemma LastReport(job: Job, s: Sys, l: Label, s': Sys)
    requires Step(job, s, l, s') && l.TaskDone? && l.id < |s.m.c.tasks|
    requires LastMap(s, l.id, Filed(s.fs, IsLate(s, l.id), l.created).1)
    ensures s'.outs == l.outs && Lists(s'.fs, l.outs) && IsOrder(l.outs, l.order)
    ensures s'.m.c.tasks == s.m.c.tasks[l.id := s.m.c.tasks[l.id].(status := Completed)] + ReduceTasks(l.outs, l.order)
  {
  }

  /** The entry that is made for one bucket. */
  lemma NewEntry(outs: seq<Name>, order: seq<nat>, i: nat)
    requires IsOrder(outs, order) && i < |order|
    ensures var files := InBucket(outs, order[i]); files != [] && BucketOf(files[0]) == order[i]
  {
    assert order[i] in order;
    E.InBucketIs(outs, order[i], InBucket(outs, order[i])[0]);
  }

  /** Each new entry reduces its own bucket. */
  lemma NewReduces(tasks: seq<Task>, outs: seq<Name>, order: seq<nat>, t: nat, b: nat)
    requires IsOrder(outs, order) && forall u :: 0 <= u < |tasks| ==> tasks[u].kind == Map
    ensures Reduces(tasks + ReduceTasks(outs, order), t, b) <==> |tasks| <= t < |tasks| + |order| && order[t - |tasks|] == b
  {
    if |tasks| <= t < |tasks| + |order| { NewEntry(outs, order, t - |tasks|); }
  }

  /** Before there are reduce tasks there are no reduce files. */
  lemma NoneYet(job: Job, fs0: Fs, s: Sys, b: nat)
    requires ReduceInv(job, fs0, s) && s.m.c.phase == MapPhase
    ensures TempReduce(b) !in s.fs && ReduceOut(b) !in s.fs
  {
    assert forall t :: !Reduces(s.m.c.tasks, t, b);
  }

  lemma LastMapStep(job: Job, fs0: Fs, s: Sys, l: Label, s': Sys, inputs: seq<string>)
    requires Step(job, s, l, s') && l.TaskDone? && MapInv(job, fs0, s, inputs) && ReduceInv(job, fs0, s) && s.work[l.id].Mapping?
    requires LastMap(s, l.id, Filed(s.fs, IsLate(s, l.id), l.created).1) && MapInv(job, fs0, s', inputs)
    ensures ReduceInv(job, fs0, s')
  {
    assert TaskOk(job, fs0, s.m.c.tasks, s.work, s.fs, l.id);
    ReportPhase(job, s, l, s', inputs);
    LastReport(job, s, l, s');
    MapFiled(job, fs0, s, l.id, l.created);
    forall b: nat ensures TempReduce(b) !in s'.fs && ReduceOut(b) !in s'.fs {
      NoneYet(job, fs0, s, b);
      assert Agree(s.fs, s'.fs, TempReduce(b)) && Agree(s.fs, s'.fs, ReduceOut(b));
    }
    LastOuts(job, fs0, s', inputs);
    LastEntries(job, fs0, s, l, s');
  }

  lemma LastOuts(job: Job, fs0: Fs, s: Sys, inputs: seq<string>)
    requires MapInv(job, fs0, s, inputs) && Lists(s.fs, s.outs) && s.m.c.phase == ReducePhase
    ensures OutsOk(job, fs0, s)
  {
    forall n ensures n in s.outs <==> IsOut(job, fs0, s.m.c.tasks, n) { OutsExact(job, fs0, s, inputs, n); }
  }

  lemma LastEntries(job: Job, fs0: Fs, s: Sys, l: Label, s': Sys)
    requires l.TaskDone? && l.id < |s.m.c.tasks| && IsOrder(l.outs, l.order) && s'.outs == l.outs
    requires forall t :: 0 <= t < |s.m.c.tasks| ==> s.m.c.tasks[t].kind == Map
    requires s'.m.c.tasks == s.m.c.tasks[l.id := s.m.c.tasks[l.id].(status := Completed)] + ReduceTasks(l.outs, l.order)
    requires forall b: nat :: TempReduce(b) !in s'.fs && ReduceOut(b) !in s'.fs
    ensures EntriesOk(job, fs0, s') && OneEach(s'.m.c.tasks) && NoStrays(s'.m.c.tasks, s'.fs)
  {
    var tasks := s.m.c.tasks[l.id := s.m.c.tasks[l.id].(status := Completed)];
    forall t: nat | t < |s'.m.c.tasks| ensures EntryOk(job, fs0, s'.m.c.tasks, s'.work, s'.fs, s'.outs, t) {
      if t >= |tasks| { NewEntry(l.outs, l.order, t - |tasks|); }
    }
    forall t: nat, t': nat, b: nat | Reduces(s'.m.c.tasks, t, b) && Reduces(s'.m.c.tasks, t', b) ensures t == t' {
      NewReduces(tasks, l.outs, l.order, t, b);
      NewReduces(tasks, l.outs, l.order, t', b);
    }
  }

  // ---- Runs ----

  lemma ReduceInvStep(job: Job, fs0: Fs, s: Sys, l: Label, s': Sys, inputs: seq<string>)
    requires Step(job, s, l, s') && MapInv(job, fs0, s, inputs) && ReduceInv(job, fs0, s) && CleanJob(job, fs0, inputs)
    requires NoReduceTimeout(s') && !s'.done
    ensures ReduceInv(job, fs0, s')
  {
    match l
    case GetTask(w, now) => TakeStep(job, fs0, s, w, now, s');
    case ReadFile(_) => ReadStep(job, fs0, s, l, s', inputs);
    case StartWriting(_, _) => ReadStep(job, fs0, s, l, s', inputs);
    case WriteLine(id) => WriteStep(job, fs0, s, id, s', inputs);
    case TaskDone(id, created, _, _) =>
      if !s.work[id].Mapping? { ReduceReportStep(job, fs0, s, l, s', inputs); }
      else if LastMap(s, id, Filed(s.fs, IsLate(s, id), created).1) {
        MapInvStep(job, fs0, s, l, s', inputs);
        LastMapStep(job, fs0, s, l, s', inputs);
      } else { MapReportStep(job, fs0, s, l, s', inputs); }
    case Done(clock) => DoneStep(job, fs0, s, clock, s');
    case _ => PlainStep(job, fs0, s, l, s', inputs);
  }

  lemma ReduceInvInit(job: Job, s: Sys, inputs: seq<string>)
    requires Init(job, s, inputs)
    ensures ReduceInv(job, s.fs, s)
  {
  }

  lemma {:induction false} ReduceInvHolds(job: Job, ss: seq<Sys>, ls: seq<Label>, inputs: seq<string>, t: nat)
    requires Run(job, ss, ls, inputs) && t <= |ls| && !ss[t].done
    requires CleanJob(job, ss[0].fs, inputs) && NoReduceTimeout(ss[t])
    ensures ReduceInv(job, ss[0].fs, ss[t])
  {
    if t == 0 {
      ReduceInvInit(job, ss[0], inputs);
    } else {
      assert StepAt(job, ss, ls, t - 1);
      NoneTimedOutBefore(job, ss[t - 1], ls[t - 1], ss[t]);
      MapInvHolds(job, ss, ls, inputs, t - 1);
      ReduceInvHolds(job, ss, ls, inputs, t - 1);
      ReduceInvStep(job, ss[0].fs, ss[t - 1], ls[t - 1], ss[t], inputs);
    }
  }
}
