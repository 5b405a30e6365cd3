/** The intermediate files in every reachable state: a task's temporary files hold exactly what its worker has
    written so far, and finished files exist for completed map tasks alone, whole. */
module MapSide {
  import opened Rpc
  import opened Bags
  import opened Wire
  import opened Names
  import opened Files
  import opened Coordination
  import opened Work
  import E = ExactlyOnce
  import opened Cluster

  /** A file that holds these pairs and does not exist if there are none. */
  ghost predicate FileIs(fs: Fs, n: Name, ps: seq<KeyValue>)
  {
    if ps == [] then n !in fs else n in fs && fs[n] == EncAll(ps)
  }

  ghost predicate TempIs(job: Job, fs: Fs, t: nat, ps: seq<KeyValue>)
  {
    forall b: nat {:trigger FileIs(fs, TempMap(t, b), Selected(job, ps, b))} :: FileIs(fs, TempMap(t, b), Selected(job, ps, b))
  }

  ghost predicate OutIs(job: Job, fs: Fs, t: nat, ps: seq<KeyValue>)
  {
    forall b: nat {:trigger FileIs(fs, MapOut(t, b), Selected(job, ps, b))} :: FileIs(fs, MapOut(t, b), Selected(job, ps, b))
  }

  /** The pairs of a map task: what the application makes of the inputs. */
  ghost function PairsOf(job: Job, fs0: Fs, t: Task): seq<KeyValue> { Mapped(job, fs0, t.files) }

  /** What the worker on task `t` has written. */
  ghost function Written(work: map<nat, Attempt>, t: nat): seq<KeyValue>
  {
    if t in work && work[t].Mapping? && work[t].k <= |work[t].ps| then work[t].ps[..work[t].k] else []
  }

  ghost predicate AttemptOk(job: Job, fs0: Fs, t: Task, a: Attempt)
  {
    if t.kind == Map then a.Mapping? && a.ps == PairsOf(job, fs0, t) && a.k <= |a.ps| else !a.Mapping?
  }

  ghost predicate TaskOk(job: Job, fs0: Fs, tasks: seq<Task>, work: map<nat, Attempt>, fs: Fs, t: nat)
  {
    && (t in work ==> t < |tasks| && AttemptOk(job, fs0, tasks[t], work[t]))
    && TempIs(job, fs, t, Written(work, t))
    && OutIs(job, fs, t, if t < |tasks| && tasks[t].kind == Map && tasks[t].status == Completed then PairsOf(job, fs0, tasks[t]) else [])
  }

  ghost predicate TasksOk(job: Job, fs0: Fs, s: Sys)
  {
    forall t: nat :: TaskOk(job, fs0, s.m.c.tasks, s.work, s.fs, t)
  }

  ghost predicate InputsSame(fs0: Fs, fs: Fs)
  {
    forall n: Name :: n.Input? ==> (n in fs <==> n in fs0) && Content(fs, n) == Content(fs0, n)
  }

  /** Map tasks have one input each. */
  ghost predicate OneInput(tasks: seq<Task>)
  {
    forall t :: 0 <= t < |tasks| && tasks[t].kind == Map ==> |tasks[t].files| == 1 && tasks[t].files[0].Input?
  }

  ghost predicate MapInv(job: Job, fs0: Fs, s: Sys, inputs: seq<string>)
  {
    Books(s, inputs) && InputsSame(fs0, s.fs) && OneInput(s.m.c.tasks) && TasksOk(job, fs0, s)
  }

  // ---- Directories that agree on a task's files ----

  ghost predicate Agree(fs: Fs, fs': Fs, n: Name)
  {
    (n in fs <==> n in fs') && (n in fs ==> fs'[n] == fs[n])
  }

  ghost predicate AgreeOn(fs: Fs, fs': Fs, t: nat)
  {
    forall b: nat :: Agree(fs, fs', TempMap(t, b)) && Agree(fs, fs', MapOut(t, b))
  }

  /** A task none of whose concerns change. */
  lemma TaskKept(job: Job, fs0: Fs, tasks: seq<Task>, work: map<nat, Attempt>, fs: Fs,
                 tasks': seq<Task>, work': map<nat, Attempt>, fs': Fs, t: nat)
    requires TaskOk(job, fs0, tasks, work, fs, t) && AgreeOn(fs, fs', t)
    requires t in work' ==> t in work && work'[t] == work[t]
    requires t in work && t !in work' ==> Written(work, t) == []
    requires |tasks| <= |tasks'|
    requires t < |tasks| ==> tasks'[t].kind == tasks[t].kind && tasks'[t].files == tasks[t].files
    requires t < |tasks| ==> (tasks'[t].status == Completed && tasks'[t].kind == Map <==> tasks[t].status == Completed && tasks[t].kind == Map)
    requires |tasks| <= t < |tasks'| ==> tasks'[t].status != Completed || tasks'[t].kind != Map
    ensures TaskOk(job, fs0, tasks', work', fs', t)
  {
    assert Written(work', t) == Written(work, t);
    forall b: nat ensures FileIs(fs', TempMap(t, b), Selected(job, Written(work', t), b)) {
      assert FileIs(fs, TempMap(t, b), Selected(job, Written(work, t), b)) && Agree(fs, fs', TempMap(t, b));
    }
    var done := if t < |tasks| && tasks[t].kind == Map && tasks[t].status == Completed then PairsOf(job, fs0, tasks[t]) else [];
    forall b: nat ensures FileIs(fs', MapOut(t, b), Selected(job, done, b)) {
      assert FileIs(fs, MapOut(t, b), Selected(job, done, b)) && Agree(fs, fs', MapOut(t, b));
    }
  }

  // ---- A worker takes a task ----

  lemma {:induction false} MappedSame(job: Job, fs0: Fs, fs: Fs, files: seq<Name>)
    requires InputsSame(fs0, fs) && forall i :: 0 <= i < |files| ==> files[i].Input?
    ensures Mapped(job, fs, files) == Mapped(job, fs0, files)
  {
    if files != [] { MappedSame(job, fs0, fs, files[..|files| - 1]); }
  }

  lemma GetTaskOk(job: Job, fs0: Fs, s: Sys, w: nat, now: int, s': Sys, t: nat)
    requires Step(job, s, GetTask(w, now), s') && E.HandedOut(s.m) && s.work.Keys == s.m.running
    requires InputsSame(fs0, s.fs) && OneInput(s.m.c.tasks) && TaskOk(job, fs0, s.m.c.tasks, s.work, s.fs, t)
    ensures TaskOk(job, fs0, s'.m.c.tasks, s'.work, s'.fs, t)
  {
    E.FirstIdleIs(s.m.c.tasks, 0);
    var i := FirstIdle(s.m.c.tasks, 0);
    if i == Some(t) {
      var task := s.m.c.tasks[t];
      assert t !in s.work;
      if task.kind == Map { MappedSame(job, fs0, s.fs, task.files); }
      assert Written(s'.work, t) == [] == Written(s.work, t);
    } else {
      TaskKept(job, fs0, s.m.c.tasks, s.work, s.fs, s'.m.c.tasks, s'.work, s'.fs, t);
    }
  }

  // ---- A worker writes a pair ----

  lemma SelectedNext(job: Job, ps: seq<KeyValue>, k: nat, b: nat)
    requires k < |ps|
    ensures Selected(job, ps[..k + 1], b) == Selected(job, ps[..k], b) + if Bucket(job, ps[k].key) == b then [ps[k]] else []
  {
    assert ps[..k + 1] == ps[..k] + [ps[k]];
    SelectedOne(job, ps[..k], ps[k], b);
  }

  lemma TempNextAt(job: Job, fs: Fs, t: nat, ps: seq<KeyValue>, k: nat, b: nat)
    requires k < |ps| && FileIs(fs, TempMap(t, b), Selected(job, ps[..k], b))
    ensures FileIs(Work.WritePair(job, fs, t, ps[k]), TempMap(t, b), Selected(job, ps[..k + 1], b))
  {
    var before, n := Selected(job, ps[..k], b), TempMap(t, b);
    SelectedNext(job, ps, k, b);
    WritePairIs(job, fs, t, ps[k], n);
    if Bucket(job, ps[k].key) == b {
      EncOne(before, ps[k]);
      assert EncAll([]) == "";
      assert Content(fs, n) == EncAll(before);
    } else {
      assert before + [] == before;
    }
  }

  lemma TempNext(job: Job, fs: Fs, t: nat, ps: seq<KeyValue>, k: nat)
    requires k < |ps| && TempIs(job, fs, t, ps[..k])
    ensures TempIs(job, Work.WritePair(job, fs, t, ps[k]), t, ps[..k + 1])
  {
    forall b: nat ensures FileIs(Work.WritePair(job, fs, t, ps[k]), TempMap(t, b), Selected(job, ps[..k + 1], b)) {
      TempNextAt(job, fs, t, ps, k, b);
    }
  }

  lemma OutKept(job: Job, fs: Fs, fs': Fs, t: nat, ps: seq<KeyValue>)
    requires OutIs(job, fs, t, ps) && forall b: nat :: Agree(fs, fs', MapOut(t, b))
    ensures OutIs(job, fs', t, ps)
  {
    forall b: nat ensures FileIs(fs', MapOut(t, b), Selected(job, ps, b)) {
      assert FileIs(fs, MapOut(t, b), Selected(job, ps, b)) && Agree(fs, fs', MapOut(t, b));
    }
  }

  /** The map task whose worker writes. */
  lemma WriterOk(job: Job, fs0: Fs, tasks: seq<Task>, work: map<nat, Attempt>, fs: Fs, t: nat, work': map<nat, Attempt>, fs': Fs)
    requires TaskOk(job, fs0, tasks, work, fs, t) && t in work && work[t].Mapping? && work[t].k < |work[t].ps|
    requires t in work' && work'[t] == Mapping(work[t].ps, work[t].k + 1)
    requires TempIs(job, fs', t, work[t].ps[..work[t].k + 1]) && forall b: nat :: Agree(fs, fs', MapOut(t, b))
    ensures TaskOk(job, fs0, tasks, work', fs', t)
  {
    assert Written(work', t) == work[t].ps[..work[t].k + 1];
    OutKept(job, fs, fs', t, if tasks[t].kind == Map && tasks[t].status == Completed then PairsOf(job, fs0, tasks[t]) else []);
  }

  lemma WriteAgrees(job: Job, fs: Fs, id: nat, p: KeyValue, t: nat)
    ensures t != id ==> AgreeOn(fs, Work.WritePair(job, fs, id, p), t)
    ensures forall b: nat :: Agree(fs, Work.WritePair(job, fs, id, p), MapOut(t, b))
  {
  }

  /** A task that another task's worker leaves alone. */
  lemma OtherKept(job: Job, fs0: Fs, tasks: seq<Task>, work: map<nat, Attempt>, fs: Fs, work': map<nat, Attempt>, fs': Fs, t: nat)
    requires TaskOk(job, fs0, tasks, work, fs, t) && AgreeOn(fs, fs', t)
    requires (t in work' <==> t in work) && (t in work ==> work'[t] == work[t])
    ensures TaskOk(job, fs0, tasks, work', fs', t)
  {
    TaskKept(job, fs0, tasks, work, fs, tasks, work', fs', t);
  }

  /** Any task, when the worker on task `id` writes its next pair. */
  lemma WritingOk(job: Job, fs0: Fs, tasks: seq<Task>, work: map<nat, Attempt>, fs: Fs, id: nat, t: nat)
    requires id in work && work[id].Mapping? && work[id].k < |work[id].ps| && TaskOk(job, fs0, tasks, work, fs, t)
    ensures var a := work[id];
            TaskOk(job, fs0, tasks, work[id := Mapping(a.ps, a.k + 1)], Work.WritePair(job, fs, id, a.ps[a.k]), t)
  {
    var a := work[id];
    var work', fs' := work[id := Mapping(a.ps, a.k + 1)], Work.WritePair(job, fs, id, a.ps[a.k]);
    WriteAgrees(job, fs, id, a.ps[a.k], t);
    if t == id {
      TempNext(job, fs, id, a.ps, a.k);
      WriterOk(job, fs0, tasks, work, fs, t, work', fs');
    } else {
      OtherKept(job, fs0, tasks, work, fs, work', fs', t);
    }
  }

  lemma WritePairOk(job: Job, fs0: Fs, s: Sys, id: nat, s': Sys, t: nat)
    requires Step(job, s, WritePair(id), s') && TaskOk(job, fs0, s.m.c.tasks, s.work, s.fs, t)
    ensures TaskOk(job, fs0, s'.m.c.tasks, s'.work, s'.fs, t)
  {
    WritingOk(job, fs0, s.m.c.tasks, s.work, s.fs, id, t);
  }

  // ---- A worker reports ----

  /** Renaming a map task's files one after the other. */
  lemma {:induction false} RenamesMap(fs: Fs, id: nat, created: seq<Name>)
    requires NoDup(created) && forall n :: n in created ==> n.TempMap? && n.task == id && n in fs
    ensures RenameAll(fs, created).1
    ensures forall n :: n in created ==> n !in RenameAll(fs, created).0
    ensures forall n :: n in created ==> Renamed(n) in RenameAll(fs, created).0 && RenameAll(fs, created).0[Renamed(n)] == fs[n]
    ensures forall n: Name :: n !in created && (n.MapOut? ==> TempMap(n.task, n.bucket) !in created) ==> Agree(fs, RenameAll(fs, created).0, n)
    decreases |created|
  {
    if created != [] {
      var n, rest, fs1 := created[0], created[1..], Moved(fs, created[0]);
      assert created == [n] + rest;
      assert n !in rest;
      assert forall x :: x in rest ==> x in created && x in fs1 && fs1[x] == fs[x];
      RenamesMap(fs1, id, rest);
    }
  }

  lemma {:induction false} Removes(fs: Fs, created: seq<Name>)
    requires NoDup(created) && forall n :: n in created ==> n in fs
    ensures RemoveAll(fs, created).1
    ensures forall n :: n in created ==> n !in RemoveAll(fs, created).0
    ensures forall n: Name :: n !in created ==> Agree(fs, RemoveAll(fs, created).0, n)
    decreases |created|
  {
    if created != [] {
      var n, rest := created[0], created[1..];
      assert created == [n] + rest;
      assert n !in rest;
      assert forall x :: x in rest ==> x in created && x in fs - {n};
      Removes(fs - {n}, rest);
    }
  }

  /** The files that a map worker reports are there. */
  lemma CreatedThere(job: Job, fs: Fs, id: nat, ps: seq<KeyValue>, created: seq<Name>)
    requires Created(job, id, ps, created) && TempIs(job, fs, id, ps)
    ensures forall n :: n in created ==> n.TempMap? && n.task == id && n in fs
  {
    forall n | n in created ensures n.TempMap? && n.task == id && n in fs {
      assert IsCreated(job, id, ps, n);
      assert FileIs(fs, TempMap(id, n.bucket), Selected(job, ps, n.bucket));
    }
  }

  /** A map report that is in time turns the temporary files into finished ones. */
  lemma RenamedOk(job: Job, fs: Fs, id: nat, ps: seq<KeyValue>, created: seq<Name>)
    requires Created(job, id, ps, created) && TempIs(job, fs, id, ps) && OutIs(job, fs, id, [])
    ensures RenameAll(fs, created).1
    ensures TempIs(job, RenameAll(fs, created).0, id, []) && OutIs(job, RenameAll(fs, created).0, id, ps)
    ensures forall n: Name :: (n.TempMap? || n.MapOut? ==> n.task != id) ==> Agree(fs, RenameAll(fs, created).0, n)
  {
    CreatedThere(job, fs, id, ps, created);
    RenamesMap(fs, id, created);
    var fs' := RenameAll(fs, created).0;
    forall b: nat
      ensures FileIs(fs', TempMap(id, b), Selected(job, [], b)) && FileIs(fs', MapOut(id, b), Selected(job, ps, b))
    {
      var n := TempMap(id, b);
      assert n in created <==> IsCreated(job, id, ps, n);
      assert FileIs(fs, n, Selected(job, ps, b)) && FileIs(fs, MapOut(id, b), Selected(job, [], b));
      if n in created { assert Renamed(n) == MapOut(id, b); } else { assert Agree(fs, fs', n) && Agree(fs, fs', MapOut(id, b)); }
    }
  }

  /** A late one leaves nothing behind. */
  lemma RemovedOk(job: Job, fs: Fs, id: nat, ps: seq<KeyValue>, created: seq<Name>)
    requires Created(job, id, ps, created) && TempIs(job, fs, id, ps)
    ensures TempIs(job, RemoveAll(fs, created).0, id, [])
    ensures forall n: Name :: (n.TempMap? ==> n.task != id) ==> Agree(fs, RemoveAll(fs, created).0, n)
  {
    CreatedThere(job, fs, id, ps, created);
    Removes(fs, created);
    var fs' := RemoveAll(fs, created).0;
    forall b: nat ensures FileIs(fs', TempMap(id, b), Selected(job, [], b)) {
      var n := TempMap(id, b);
      assert n in created <==> IsCreated(job, id, ps, n);
      assert FileIs(fs, n, Selected(job, ps, b));
      if n !in created { assert Agree(fs, fs', n); }
    }
  }

  lemma FiledOne(fs: Fs, n: Name)
    ensures RenameAll(fs, [n]) == if n in fs then (Moved(fs, n), true) else (fs, false)
    ensures RemoveAll(fs, [n]) == if n in fs then (fs - {n}, true) else (fs, false)
  {
    assert [n][1..] == [];
    if n in fs {
      assert RenameAll(Moved(fs, n), []) == (Moved(fs, n), true);
      assert RemoveAll(fs - {n}, []) == (fs - {n}, true);
    }
  }

  /** A reduce report touches no file of a map task. */
  lemma ReduceFiled(fs: Fs, late: bool, created: seq<Name>, n: Name)
    requires |created| <= 1 && (created != [] ==> created[0].TempReduce?) && !n.TempReduce? && !n.ReduceOut?
    ensures Agree(fs, Filed(fs, late, created).0, n)
  {
    if created != [] {
      assert created == [created[0]];
      FiledOne(fs, created[0]);
    }
  }

  /** What a report changes, for a map task. */
  lemma MapFiled(job: Job, fs0: Fs, s: Sys, id: nat, created: seq<Name>)
    requires id in s.work && Ready(job, id, s.work[id], created) && s.work[id].Mapping?
    requires id < |s.m.c.tasks| && s.m.c.tasks[id].status != Completed && s.m.c.tasks[id].kind == Map
    requires TaskOk(job, fs0, s.m.c.tasks, s.work, s.fs, id)
    ensures var (fs', ok) := Filed(s.fs, IsLate(s, id), created);
            && TempIs(job, fs', id, [])
            && OutIs(job, fs', id, if IsLate(s, id) then [] else PairsOf(job, fs0, s.m.c.tasks[id]))
            && (IsLate(s, id) || ok)
            && forall n: Name :: (n.TempMap? || n.MapOut? ==> n.task != id) ==> Agree(s.fs, fs', n)
  {
    var ps := s.work[id].ps;
    assert Written(s.work, id) == ps;
    if IsLate(s, id) {
      RemovedOk(job, s.fs, id, ps, created);
      var fs' := RemoveAll(s.fs, created).0;
      forall b: nat ensures FileIs(fs', MapOut(id, b), Selected(job, [], b)) {
        assert FileIs(s.fs, MapOut(id, b), Selected(job, [], b)) && Agree(s.fs, fs', MapOut(id, b));
      }
    } else {
      RenamedOk(job, s.fs, id, ps, created);
    }
  }

  lemma ReportTasks(s: Sys, id: nat, created: seq<Name>, outs: seq<Name>, order: seq<nat>, s': Sys, job: Job)
    requires Step(job, s, TaskDone(id, created, outs, order), s')
    ensures id < |s.m.c.tasks| <= |s'.m.c.tasks|
    ensures forall t :: 0 <= t < |s.m.c.tasks| ==>
              s'.m.c.tasks[t] == if t == id && !IsLate(s, id) then s.m.c.tasks[t].(status := Completed) else s.m.c.tasks[t]
    ensures forall t :: |s.m.c.tasks| <= t < |s'.m.c.tasks| ==> s'.m.c.tasks[t].kind == Reduce && s'.m.c.tasks[t].status == Idle
  {
  }

  /** Which files a report leaves alone. */
  lemma ReportAgrees(job: Job, fs0: Fs, s: Sys, id: nat, created: seq<Name>, n: Name)
    requires id in s.work && Ready(job, id, s.work[id], created) && id < |s.m.c.tasks| && s.m.c.tasks[id].status != Completed
    requires TaskOk(job, fs0, s.m.c.tasks, s.work, s.fs, id)
    requires !n.TempReduce? && !n.ReduceOut? && (n.TempMap? || n.MapOut? ==> s.m.c.tasks[id].kind == Reduce || n.task != id)
    ensures Agree(s.fs, Filed(s.fs, IsLate(s, id), created).0, n)
  {
    if s.m.c.tasks[id].kind == Map {
      MapFiled(job, fs0, s, id, created);
    } else {
      ReduceFiled(s.fs, IsLate(s, id), created, n);
    }
  }

  lemma ReportOk(job: Job, fs0: Fs, s: Sys, id: nat, created: seq<Name>, outs: seq<Name>, order: seq<nat>, s': Sys, t: nat)
    requires Step(job, s, TaskDone(id, created, outs, order), s') && E.HandedOut(s.m) && s.work.Keys == s.m.running
    requires TaskOk(job, fs0, s.m.c.tasks, s.work, s.fs, id) && TaskOk(job, fs0, s.m.c.tasks, s.work, s.fs, t)
    ensures TaskOk(job, fs0, s'.m.c.tasks, s'.work, s'.fs, t)
  {
    ReportTasks(s, id, created, outs, order, s', job);
    if t == id && s.m.c.tasks[id].kind == Map {
      MapFiled(job, fs0, s, id, created);
    } else {
      forall b: nat ensures Agree(s.fs, s'.fs, TempMap(t, b)) && Agree(s.fs, s'.fs, MapOut(t, b)) {
        ReportAgrees(job, fs0, s, id, created, TempMap(t, b));
        ReportAgrees(job, fs0, s, id, created, MapOut(t, b));
      }
      TaskKept(job, fs0, s.m.c.tasks, s.work, s.fs, s'.m.c.tasks, s'.work, s'.fs, t);
    }
  }

  // ---- Every step keeps the invariant ----

  lemma {:induction false} FreshFrom(tasks: seq<Task>, now: nat -> int, i: nat) returns (t: nat)
    requires i < |Fresh(tasks, now)|
    ensures t < |tasks| && Expires(tasks[t], now(t)) && Fresh(tasks, now)[i] == Task(tasks[t].files, Idle, 0, tasks[t].kind)
  {
    var m := |tasks| - 1;
    if i < |Fresh(tasks[..m], now)| { t := FreshFrom(tasks[..m], now, i); } else { t := m; }
  }

  /** What a timeout leaves of each entry, and what it adds. */
  lemma ExpiredAt(c: Coord, now: nat -> int)
    ensures var tasks' := Expired(c, now).tasks;
            && |tasks'| == |c.tasks| + |Fresh(c.tasks, now)|
            && (forall t :: 0 <= t < |c.tasks| ==> tasks'[t] == Mark(c.tasks[t], now(t)))
            && forall t :: |c.tasks| <= t < |tasks'| ==> tasks'[t] == Fresh(c.tasks, now)[t - |c.tasks|]
  {
  }

  lemma OneInputDone(c: Coord, now: nat -> int)
    requires OneInput(c.tasks)
    ensures OneInput(Expired(c, now).tasks)
  {
    ExpiredAt(c, now);
    var tasks' := Expired(c, now).tasks;
    forall i | 0 <= i < |tasks'| && tasks'[i].kind == Map ensures |tasks'[i].files| == 1 && tasks'[i].files[0].Input? {
      if i >= |c.tasks| { var t := FreshFrom(c.tasks, now, i - |c.tasks|); }
    }
  }

  lemma DoneOk(job: Job, fs0: Fs, s: Sys, clock: nat -> int, s': Sys, t: nat)
    requires Step(job, s, Done(clock), s') && !s'.done && TaskOk(job, fs0, s.m.c.tasks, s.work, s.fs, t)
    ensures TaskOk(job, fs0, s'.m.c.tasks, s'.work, s'.fs, t)
  {
    ExpiredAt(s.m.c, clock);
    E.FreshIdle(s.m.c.tasks, clock);
    TaskKept(job, fs0, s.m.c.tasks, s.work, s.fs, s'.m.c.tasks, s'.work, s'.fs, t);
  }

  lemma TaskStep(job: Job, fs0: Fs, s: Sys, l: Label, s': Sys, inputs: seq<string>, t: nat)
    requires Step(job, s, l, s') && MapInv(job, fs0, s, inputs) && !s'.done
    ensures TaskOk(job, fs0, s'.m.c.tasks, s'.work, s'.fs, t)
  {
    assert TaskOk(job, fs0, s.m.c.tasks, s.work, s.fs, t);
    match l
    case GetTask(w, now) => GetTaskOk(job, fs0, s, w, now, s', t);
    case WritePair(id) => WritePairOk(job, fs0, s, id, s', t);
    case TaskDone(id, created, outs, order) =>
      assert TaskOk(job, fs0, s.m.c.tasks, s.work, s.fs, id);
      ReportOk(job, fs0, s, id, created, outs, order, s', t);
    case Done(clock) => DoneOk(job, fs0, s, clock, s', t);
    case _ => OtherOk(job, fs0, s, l, s', t);
  }

  lemma OtherOk(job: Job, fs0: Fs, s: Sys, l: Label, s': Sys, t: nat)
    requires Step(job, s, l, s') && TaskOk(job, fs0, s.m.c.tasks, s.work, s.fs, t)
    requires l.Register? || l.ReadFile? || l.StartWriting? || l.WriteLine? || l.Heartbeat?
    ensures TaskOk(job, fs0, s'.m.c.tasks, s'.work, s'.fs, t)
  {
    if (l.ReadFile? || l.StartWriting? || l.WriteLine?) && l.id == t {
      assert Written(s'.work, t) == [] == Written(s.work, t);
      assert s'.m.c.tasks == s.m.c.tasks && AgreeOn(s.fs, s'.fs, t);
      TaskKept(job, fs0, s.m.c.tasks, s.work, s.fs, s.m.c.tasks, s.work, s'.fs, t);
    } else {
      TaskKept(job, fs0, s.m.c.tasks, s.work, s.fs, s'.m.c.tasks, s'.work, s'.fs, t);
    }
  }

  lemma InputsStep(job: Job, fs0: Fs, s: Sys, l: Label, s': Sys, inputs: seq<string>)
    requires Step(job, s, l, s') && MapInv(job, fs0, s, inputs) && !s'.done
    ensures InputsSame(fs0, s'.fs)
  {
    if l.TaskDone? {
      assert TaskOk(job, fs0, s.m.c.tasks, s.work, s.fs, l.id);
      forall n: Name | n.Input? ensures Agree(s.fs, s'.fs, n) { ReportAgrees(job, fs0, s, l.id, l.created, n); }
    }
  }

  lemma OneInputStep(job: Job, s: Sys, l: Label, s': Sys)
    requires Step(job, s, l, s') && OneInput(s.m.c.tasks)
    ensures OneInput(s'.m.c.tasks)
  {
    match l
    case TaskDone(id, created, outs, order) => ReportTasks(s, id, created, outs, order, s', job);
    case Done(clock) => OneInputDone(s.m.c, clock);
    case _ =>
  }

  lemma MapInvStep(job: Job, fs0: Fs, s: Sys, l: Label, s': Sys, inputs: seq<string>)
    requires Step(job, s, l, s') && MapInv(job, fs0, s, inputs) && !s'.done
    ensures MapInv(job, fs0, s', inputs)
  {
    BooksStep(job, s, l, s', inputs);
    InputsStep(job, fs0, s, l, s', inputs);
    OneInputStep(job, s, l, s');
    forall t: nat ensures TaskOk(job, fs0, s'.m.c.tasks, s'.work, s'.fs, t) { TaskStep(job, fs0, s, l, s', inputs, t); }
  }

  lemma MapInvInit(job: Job, s: Sys, inputs: seq<string>)
    requires Init(job, s, inputs)
    ensures MapInv(job, s.fs, s, inputs)
  {
    BooksInit(job, s, inputs);
  }

  lemma {:induction false} MapInvHolds(job: Job, ss: seq<Sys>, ls: seq<Label>, inputs: seq<string>, t: nat)
    requires Run(job, ss, ls, inputs) && t <= |ls| && !ss[t].done
    ensures MapInv(job, ss[0].fs, ss[t], inputs)
  {
    if t == 0 {
      MapInvInit(job, ss[0], inputs);
    } else {
      assert StepAt(job, ss, ls, t - 1);
      MapInvHolds(job, ss, ls, inputs, t - 1);
      MapInvStep(job, ss[0].fs, ss[t - 1], ls[t - 1], ss[t], inputs);
    }
  }

  /** While the job runs, the finished intermediate files are exactly the whole outputs of the completed map
      tasks; whatever was abandoned, timed out or reported late has left none. */
  lemma IntermediateFiles(job: Job, ss: seq<Sys>, ls: seq<Label>, inputs: seq<string>, t: nat, id: nat, b: nat)
    requires Run(job, ss, ls, inputs) && t <= |ls| && !ss[t].done
    ensures var tasks := ss[t].m.c.tasks;
            var n := MapOut(id, b);
            if id < |tasks| && tasks[id].kind == Map && tasks[id].status == Completed && Selected(job, PairsOf(job, ss[0].fs, tasks[id]), b) != []
            then n in ss[t].fs && ss[t].fs[n] == EncAll(Selected(job, PairsOf(job, ss[0].fs, tasks[id]), b))
            else n !in ss[t].fs
  {
    MapInvHolds(job, ss, ls, inputs, t);
    assert TaskOk(job, ss[0].fs, ss[t].m.c.tasks, ss[t].work, ss[t].fs, id);
    var tasks := ss[t].m.c.tasks;
    var done := if id < |tasks| && tasks[id].kind == Map && tasks[id].status == Completed then PairsOf(job, ss[0].fs, tasks[id]) else [];
    assert FileIs(ss[t].fs, MapOut(id, b), Selected(job, done, b));
  }
}
