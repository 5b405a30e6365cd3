/** The coordinator object (coordinator.go), proved to do what `Coordination` says. */
module Coordinators {
  import opened Rpc
  import opened Bags
  import opened Names
  import opened Files
  import opened Coordination
  import E = ExactlyOnce

  /** The answer to GetTask. */
  datatype Assignment = NoTask | Assignment(id: nat, kind: Kind, files: seq<Name>, nReduce: nat)

  class Coordinator {
    var tasks: seq<Task>
    var workers: seq<Worker>
    var numMapTasks: int
    var numReduceTasks: int
    var phase: Phase
    const nReduce: nat

    ghost function State(): Coord
      reads this
    {
      Coord(tasks, workers, numMapTasks, numReduceTasks, phase, nReduce)
    }

    constructor (files: seq<string>, nReduce: nat)
      ensures State() == Initial(files, nReduce)
      ensures |tasks| == |files| && forall i :: 0 <= i < |files| ==> tasks[i] == Task([Input(files[i])], Idle, 0, Map)
      ensures workers == [] && numMapTasks == |files| && numReduceTasks == 0 && phase == MapPhase && this.nReduce == nReduce
    {
      this.nReduce := nReduce;
      workers, numReduceTasks, phase := [], 0, MapPhase;
      tasks, numMapTasks := [], |files|;
      new;
      for i := 0 to |files|
        invariant tasks == MapTasks(files[..i])
        invariant workers == [] && numMapTasks == |files| && numReduceTasks == 0 && phase == MapPhase
      {
        assert MapTasks(files[..i + 1]) == MapTasks(files[..i]) + [MapTask(files[i])];
        tasks := tasks + [Task([Input(files[i])], Idle, 0, Map)];
      }
      assert files[..|files|] == files;
    }

    method RegisterWorker() returns (id: nat)
      modifies this
      ensures id == |old(workers)| && State() == Registered(old(State()))
      ensures |workers| == |old(workers)| + 1 && workers[id].running
    {
      id := |workers|;
      workers := workers + [Worker(0, true)];
    }

    method FindIdleTask() returns (found: Option<nat>)
      ensures found == FirstIdle(tasks, 0)
      ensures found.Some? ==> found.value < |tasks| && tasks[found.value].status == Idle
      ensures forall j :: 0 <= j < (if found.Some? then found.value else |tasks|) ==> tasks[j].status != Idle
    {
      var i := 0;
      while i < |tasks|
        invariant i <= |tasks| && FirstIdle(tasks, 0) == FirstIdle(tasks, i)
        invariant forall j :: 0 <= j < i ==> tasks[j].status != Idle
      {
        if tasks[i].status == Idle { return Some(i); }
        i := i + 1;
      }
      found := None;
    }

    method GetTask(w: nat, now: int) returns (res: Assignment)
      requires w < |workers|
      modifies this
      ensures State() == Assigned(old(State()), w, now)
      ensures res == match FirstIdle(old(tasks), 0)
                     case None => NoTask
                     case Some(i) => if i < |tasks| then Assignment(i, tasks[i].kind, tasks[i].files, nReduce) else NoTask
      ensures res.NoTask? ==> tasks == old(tasks) && forall j :: 0 <= j < |tasks| ==> tasks[j].status != Idle
      ensures res.Assignment? ==>
                && res.id < |old(tasks)| && old(tasks)[res.id].status == Idle
                && (forall j :: 0 <= j < res.id ==> old(tasks)[j].status != Idle)
                && tasks == old(tasks)[res.id := old(tasks)[res.id].(status := InProgress, start := now)]
                && (res.kind, res.files, res.nReduce) == (old(tasks)[res.id].kind, old(tasks)[res.id].files, nReduce)
      ensures |workers| == |old(workers)| && workers[w].task == if res.NoTask? then 0 else res.id
    {
      var found := FindIdleTask();
      if found.None? {
        workers := workers[w := workers[w].(task := 0)];
        return NoTask;
      }
      var i := found.value;
      tasks := tasks[i := tasks[i].(status := InProgress, start := now)];
      workers := workers[w := workers[w].(task := i)];
      res := Assignment(i, tasks[i].kind, tasks[i].files, nReduce);
    }

    /** Groups the intermediate files by bucket; the groups come in some order. */
    method CreateReduceTasks(dir: Dir) returns (ghost outs: seq<Name>, ghost order: seq<nat>)
      modifies this
      ensures Lists(dir.files, outs) && IsOrder(outs, order)
      ensures tasks == old(tasks) + ReduceTasks(outs, order) && numReduceTasks == old(numReduceTasks) + |order|
      ensures |tasks| == |old(tasks)| + |order| && OnePerBucket(dir.files, tasks[|old(tasks)|..], order)
      ensures workers == old(workers) && numMapTasks == old(numMapTasks) && phase == old(phase)
    {
      var found := dir.Glob();
      outs := found;
      var m := GroupByBucket(found);
      order := [];
      var rest := m.Keys;
      ghost var tasks0, n0 := tasks, numReduceTasks;
      assert ReduceTasks(outs, []) == [];
      while rest != {}
        invariant rest <= m.Keys && Listed(order, m, rest)
        invariant tasks == tasks0 + ReduceTasks(outs, order) && numReduceTasks == n0 + |order|
        invariant workers == old(workers) && numMapTasks == old(numMapTasks) && phase == old(phase)
        decreases |rest|
      {
        var b: nat :| b in rest;
        ListedNext(order, m, rest, b);
        OneMoreTask(tasks0, outs, order, b);
        rest := rest - {b};
        tasks := tasks + [Task(m[b], Idle, 0, Reduce)];
        numReduceTasks := numReduceTasks + 1;
        order := order + [b];
      }
      MadeOnePerBucket(dir.files, outs, order);
      assert tasks[|tasks0|..] == ReduceTasks(outs, order);
    }

    /** A report: late ones have their files removed, the others have them renamed and are counted. */
    method TaskDone(dir: Dir, id: nat, created: seq<Name>) returns (ok: bool, ghost outs: seq<Name>, ghost order: seq<nat>)
      requires id < |tasks|
      modifies this, dir
      ensures old(tasks[id].status) == TimedOut ==>
                State() == old(State()) && (dir.files, ok) == RemoveAll(old(dir.files), created)
      ensures old(tasks[id].status) != TimedOut ==>
                && (dir.files, ok) == RenameAll(old(dir.files), created)
                && IsOrder(outs, order)
                && (ok && old(tasks[id].kind) == Map && old(numMapTasks) == 1 ==> Lists(dir.files, outs))
                && State() == Reported(old(State()), id, ok, ReduceTasks(outs, order))
    {
      outs, order := [], [];
      if tasks[id].status == TimedOut {
        ok := RemoveFiles(dir, created);
        return;
      }
      tasks := tasks[id := tasks[id].(status := Completed)];
      ok := RenameTempFiles(dir, created);
      if !ok { return; }
      match tasks[id].kind
      case Map =>
        numMapTasks := numMapTasks - 1;
        if numMapTasks == 0 {
          outs, order := CreateReduceTasks(dir);
          phase := ReducePhase;
        }
      case Reduce =>
        numReduceTasks := numReduceTasks - 1;
        if numReduceTasks == 0 { phase := ShutdownPhase; }
    }

    method TimeoutTasks(now: nat -> int)
      modifies this
      ensures State() == Expired(old(State()), now)
    {
      ghost var was := tasks;
      var n := |tasks|;
      SweptAll(was, now);
      for i := 0 to n
        invariant n == |was| && tasks == Swept(was, now, i)
        invariant workers == old(workers) && numMapTasks == old(numMapTasks)
        invariant numReduceTasks == old(numReduceTasks) && phase == old(phase)
      {
        SweptAt(was, now, i);
        var t := tasks[i];
        if t.status == InProgress && now(i) > t.start + TIMEOUT_SECS {
          tasks := tasks[i := t.(status := TimedOut)];
          tasks := tasks + [Task(t.files, Idle, 0, t.kind)];
        }
      }
    }

    method Done(dir: Dir, now: nat -> int) returns (done: bool)
      modifies this, dir
      ensures State() == Expired(old(State()), now) && done == Finished(State())
      ensures done <==> match phase
                        case MapPhase => false
                        case ReducePhase => forall i :: 0 <= i < |tasks| ==> tasks[i].status == Completed || tasks[i].status == TimedOut
                        case ShutdownPhase => forall i :: 0 <= i < |workers| ==> !workers[i].running
      ensures dir.files == if done then WithoutMapOuts(old(dir.files)) else old(dir.files)
      ensures forall n :: n in dir.files <==> n in old(dir.files) && !(done && n.MapOut?)
    {
      TimeoutTasks(now);
      match phase
      case MapPhase => return false;
      case ReducePhase =>
        for i := 0 to |tasks|
          invariant forall j :: 0 <= j < i ==> !Open(tasks[j])
        {
          if tasks[i].status == Idle || tasks[i].status == InProgress { return false; }
        }
        dir.DeleteMapOuts();
        done := true;
      case ShutdownPhase =>
        for i := 0 to |workers|
          invariant forall j :: 0 <= j < i ==> !workers[j].running
        {
          if workers[i].running { return false; }
        }
        dir.DeleteMapOuts();
        done := true;
    }

    method Heartbeat(w: nat) returns (shutDown: bool)
      requires w < |workers|
      modifies this
      ensures State() == Beaten(old(State()), w) && shutDown == (old(phase) == ShutdownPhase)
      ensures |workers| == |old(workers)| && (shutDown ==> !workers[w].running)
    {
      if phase == ShutdownPhase {
        shutDown := true;
        workers := workers[w := workers[w].(running := false)];
      } else {
        shutDown := false;
      }
    }
  }

  /** The finished files of bucket `b`, each once. */
  ghost predicate WholeBucket(fs: Fs, files: seq<Name>, b: nat)
  {
    files != [] && NoDup(files) && forall n :: n in files <==> n in fs && n.MapOut? && n.bucket == b
  }

  /** `made` are idle reduce entries, one for each bucket that has a finished file, with all the bucket's files. */
  ghost predicate OnePerBucket(fs: Fs, made: seq<Task>, order: seq<nat>)
  {
    && |made| == |order| && NoDup(order) && (forall n :: n in fs && n.MapOut? ==> n.bucket in order)
    && forall i :: 0 <= i < |made| ==>
         made[i].kind == Reduce && made[i].status == Idle && WholeBucket(fs, made[i].files, order[i])
  }

  lemma BucketIsWhole(fs: Fs, outs: seq<Name>, b: nat)
    requires Lists(fs, outs) && InBucket(outs, b) != []
    ensures WholeBucket(fs, InBucket(outs, b), b)
  {
    E.InBucketNoDup(outs, b);
    forall n ensures n in InBucket(outs, b) <==> n in outs && BucketOf(n) == b { E.InBucketIs(outs, b, n); }
  }

  lemma MadeOnePerBucket(fs: Fs, outs: seq<Name>, order: seq<nat>)
    requires Lists(fs, outs) && IsOrder(outs, order)
    ensures OnePerBucket(fs, ReduceTasks(outs, order), order)
  {
    forall i | 0 <= i < |order| ensures WholeBucket(fs, InBucket(outs, order[i]), order[i]) {
      assert order[i] in order;
      BucketIsWhole(fs, outs, order[i]);
    }
    forall n | n in fs && n.MapOut? ensures n.bucket in order { E.InBucketIs(outs, n.bucket, n); }
  }

  /** `order` lists the keys of the map except `rest`, each once. */
  ghost predicate Listed(order: seq<nat>, m: map<nat, seq<Name>>, rest: set<nat>)
  {
    NoDup(order) && forall b: nat :: b in order <==> b in m && b !in rest
  }

  lemma ListedNext(order: seq<nat>, m: map<nat, seq<Name>>, rest: set<nat>, b: nat)
    requires Listed(order, m, rest) && b in rest && b in m
    ensures Listed(order + [b], m, rest - {b})
  {
  }

  lemma OneMoreTask(tasks: seq<Task>, outs: seq<Name>, order: seq<nat>, b: nat)
    ensures tasks + ReduceTasks(outs, order + [b]) == tasks + ReduceTasks(outs, order) + [Task(InBucket(outs, b), Idle, 0, Reduce)]
  {
    assert ReduceTasks(outs, order + [b]) == ReduceTasks(outs, order) + [Task(InBucket(outs, b), Idle, 0, Reduce)];
  }

  /** The entries when the timeout loop has looked at `i` of them. */
  ghost function Swept(was: seq<Task>, now: nat -> int, i: nat): (s: seq<Task>)
    requires i <= |was|
    ensures |s| >= |was|
  {
    if i == 0 then was else
    var s, t := Swept(was, now, i - 1), was[i - 1];
    if Expires(t, now(i - 1)) then s[i - 1 := t.(status := TimedOut)] + [Task(t.files, Idle, 0, t.kind)] else s
  }

  lemma {:induction false} SweptIs(was: seq<Task>, now: nat -> int, i: nat)
    requires i <= |was|
    ensures Swept(was, now, i) == Marked(was[..i], now) + was[i..] + Fresh(was[..i], now)
  {
    if i == 0 {
      assert was[..0] == [] && was[0..] == was;
    } else {
      SweptIs(was, now, i - 1);
      SweptNext(was, now, i - 1);
      SweptStep(was, now, i - 1, Marked(was[..i - 1], now) + was[i - 1..] + Fresh(was[..i - 1], now));
    }
  }

  lemma SweptStep(was: seq<Task>, now: nat -> int, i: nat, s: seq<Task>)
    requires i < |was| && Swept(was, now, i) == s
    ensures Swept(was, now, i + 1) == if Expires(was[i], now(i))
                                      then s[i := was[i].(status := TimedOut)] + [Task(was[i].files, Idle, 0, was[i].kind)] else s
  {
  }

  lemma SweptNext(was: seq<Task>, now: nat -> int, i: nat)
    requires i < |was|
    ensures var s := Marked(was[..i], now) + was[i..] + Fresh(was[..i], now);
            && i < |s| && s[i] == was[i]
            && Marked(was[..i + 1], now) + was[i + 1..] + Fresh(was[..i + 1], now)
               == if Expires(was[i], now(i))
                  then s[i := was[i].(status := TimedOut)] + [Task(was[i].files, Idle, 0, was[i].kind)] else s
  {
    assert was[..i + 1][..i] == was[..i];
    assert Marked(was[..i + 1], now) == Marked(was[..i], now) + [Mark(was[i], now(i))];
    assert was[i..] == [was[i]] + was[i + 1..];
    Regroup(Marked(was[..i], now), was[i], Mark(was[i], now(i)), was[i + 1..], Fresh(was[..i], now));
  }

  lemma Regroup(a: seq<Task>, x: Task, y: Task, b: seq<Task>, c: seq<Task>)
    ensures (a + ([x] + b) + c)[|a|] == x
    ensures (a + ([x] + b) + c)[|a| := y] == (a + [y]) + b + c
    ensures forall z :: (a + [y]) + b + (c + [z]) == (a + [y]) + b + c + [z]
    ensures a + ([x] + b) + c == (a + [x]) + b + c
  {
  }

  /** The loop has not touched the entry it is about to look at. */
  lemma SweptAt(was: seq<Task>, now: nat -> int, i: nat)
    requires i < |was|
    ensures Swept(was, now, i)[i] == was[i]
  {
    SweptIs(was, now, i);
    SweptNext(was, now, i);
  }

  lemma SweptAs(was: seq<Task>, now: nat -> int, front: seq<Task>, rest: seq<Task>)
    requires was == front + rest
    ensures Swept(was, now, |front|) == Marked(front, now) + rest + Fresh(front, now)
  {
    SweptIs(was, now, |front|);
    assert was[..|front|] == front && was[|front|..] == rest;
  }

  lemma SweptAll(was: seq<Task>, now: nat -> int)
    ensures Swept(was, now, |was|) == Marked(was, now) + Fresh(was, now)
  {
    assert was == was + [];
    SweptAs(was, now, was, []);
  }

  /** Renames up to the first failure. */
  method RenameTempFiles(dir: Dir, created: seq<Name>) returns (ok: bool)
    modifies dir
    ensures (dir.files, ok) == RenameAll(old(dir.files), created)
  {
    var i := 0;
    while i < |created|
      invariant i <= |created| && RenameAll(old(dir.files), created) == RenameAll(dir.files, created[i..])
    {
      ok := dir.Rename(created[i]);
      assert created[i..][1..] == created[i + 1..];
      if !ok { return; }
      i := i + 1;
    }
    ok := true;
  }

  method RemoveFiles(dir: Dir, created: seq<Name>) returns (ok: bool)
    modifies dir
    ensures (dir.files, ok) == RemoveAll(old(dir.files), created)
  {
    var i := 0;
    while i < |created|
      invariant i <= |created| && RemoveAll(old(dir.files), created) == RemoveAll(dir.files, created[i..])
    {
      ok := dir.Remove(created[i]);
      assert created[i..][1..] == created[i + 1..];
      if !ok { return; }
      i := i + 1;
    }
    ok := true;
  }

  method GroupByBucket(outs: seq<Name>) returns (m: map<nat, seq<Name>>)
    ensures forall b: nat :: b in m <==> InBucket(outs, b) != []
    ensures forall b: nat :: b in m ==> m[b] == InBucket(outs, b)
  {
    m := map[];
    for i := 0 to |outs|
      invariant forall b: nat :: b in m <==> InBucket(outs[..i], b) != []
      invariant forall b: nat :: b in m ==> m[b] == InBucket(outs[..i], b)
    {
      var b := BucketOf(outs[i]);
      assert outs[..i + 1][..i] == outs[..i];
      m := m[b := (if b in m then m[b] else []) + [outs[i]]];
    }
    assert outs[..|outs|] == outs;
  }
}
