/** Every input and every partition has exactly one entry that counts, in every run of the coordinator:
    whatever times out, whoever crashes or reports late, and whichever file operations fail. */
module ExactlyOnce {
  import opened Rpc
  import opened Bags
  import opened Names
  import opened Coordination

  /** The coordinator, the entries handed out so far, those whose worker has not reported, the number of
      reports whose files could not be renamed, and the groups the reduce tasks were made of. */
  datatype Machine = Machine(c: Coord, given: set<nat>, running: set<nat>, lostMap: nat, lostReduce: nat,
                             parts: seq<seq<Name>>)

  datatype Label =
    | Register
    | GetTask(w: nat, now: int)
    | TaskDone(id: nat, ok: bool, outs: seq<Name>, order: seq<nat>)
    | Done(clock: nat -> int)
    | Heartbeat(w: nat)

  ghost function AfterReport(s: Machine, id: nat, ok: bool, outs: seq<Name>, order: seq<nat>): Machine
    requires id < |s.c.tasks|
  {
    var s := s.(running := s.running - {id});
    var t := s.c.tasks[id];
    if t.status == TimedOut then s else
    s.(c := Reported(s.c, id, ok, ReduceTasks(outs, order)),
       lostMap := s.lostMap + (if t.kind == Map && !ok then 1 else 0),
       lostReduce := s.lostReduce + (if t.kind == Reduce && !ok then 1 else 0),
       parts := if t.kind == Map && ok && s.c.numMap == 1 then Groups(outs, order) else s.parts)
  }

  /** A worker reports at most once on what it was given; one that crashes never does. */
  ghost predicate Step(s: Machine, l: Label, s': Machine)
  {
    match l
    case Register => s' == s.(c := Registered(s.c))
    case GetTask(w, now) =>
      && w < |s.c.workers|
      && var i := FirstIdle(s.c.tasks, 0);
         s' == s.(c := Assigned(s.c, w, now),
                  given := if i.Some? then s.given + {i.value} else s.given,
                  running := if i.Some? then s.running + {i.value} else s.running)
    case TaskDone(id, ok, outs, order) =>
      && id in s.running && id < |s.c.tasks| && IsOrder(outs, order)
      && s' == AfterReport(s, id, ok, outs, order)
    case Done(clock) => s' == s.(c := Expired(s.c, clock))
    case Heartbeat(w) => w < |s.c.workers| && s' == s.(c := Beaten(s.c, w))
  }

  ghost predicate Init(s: Machine, inputs: seq<string>, nReduce: nat)
  {
    s == Machine(Initial(inputs, nReduce), {}, {}, 0, 0, [])
  }

  // ---- What every reachable state satisfies ----

  /** Whether an entry is of a kind, open or completed as asked, and for the given files. */
  ghost function Weight(t: Task, kind: Kind, done: bool, files: Option<seq<Name>>): nat
  {
    if && t.kind == kind && (if done then t.status == Completed else Open(t))
       && (files.Some? ==> t.files == files.value) then 1 else 0
  }

  /** The number of such entries. */
  ghost function Num(tasks: seq<Task>, kind: Kind, done: bool, files: Option<seq<Name>>): nat
  {
    if tasks == [] then 0
    else Num(tasks[..|tasks| - 1], kind, done, files) + Weight(tasks[|tasks| - 1], kind, done, files)
  }

  ghost function Times<X>(xs: seq<X>, x: X): nat
  {
    if xs == [] then 0 else Times(xs[..|xs| - 1], x) + (if xs[|xs| - 1] == x then 1 else 0)
  }

  ghost function Singles(inputs: seq<string>): seq<seq<Name>>
  {
    seq(|inputs|, i requires 0 <= i < |inputs| => [Input(inputs[i])])
  }

  /** As many entries that are not timed out as `files` has lists of these files: one each. */
  ghost predicate Covers(tasks: seq<Task>, kind: Kind, files: seq<seq<Name>>)
  {
    forall f :: Num(tasks, kind, false, Some(f)) + Num(tasks, kind, true, Some(f)) == Times(files, f)
  }

  /** The counters are the open entries, plus those lost to failed renames. */
  ghost predicate Counted(s: Machine)
  {
    && s.c.numMap == Num(s.c.tasks, Map, false, None) + s.lostMap
    && s.c.numReduce == Num(s.c.tasks, Reduce, false, None) + s.lostReduce
  }

  ghost predicate PhaseOk(s: Machine, inputs: seq<string>)
  {
    match s.c.phase
    case MapPhase => s.parts == [] && s.c.numReduce == 0 && (inputs != [] ==> s.c.numMap > 0)
    case ReducePhase => s.c.numMap == 0 && s.c.numReduce >= 0 && (s.parts == [] <==> s.c.numReduce == 0)
    case ShutdownPhase => s.c.numMap == 0 && s.c.numReduce == 0
  }

  /** An entry is idle until it is handed out; a worker that has not reported has an entry under way or timed out. */
  ghost predicate HandedOut(s: Machine)
  {
    && (forall i :: i in s.given ==> i < |s.c.tasks|)
    && (forall i :: 0 <= i < |s.c.tasks| ==> (i in s.given <==> s.c.tasks[i].status != Idle))
    && s.running <= s.given
    && forall i :: i in s.given ==> (i in s.running ==> s.c.tasks[i].status != Completed) && (s.c.tasks[i].status == InProgress ==> i in s.running)
  }

  ghost predicate Inv(s: Machine, inputs: seq<string>)
  {
    && Covers(s.c.tasks, Map, Singles(inputs))
    && Covers(s.c.tasks, Reduce, s.parts)
    && Counted(s) && PhaseOk(s, inputs) && HandedOut(s)
  }

  // ---- How entries change ----

  lemma {:induction false} NumAppend(a: seq<Task>, b: seq<Task>, kind: Kind, done: bool, files: Option<seq<Name>>)
    ensures Num(a + b, kind, done, files) == Num(a, kind, done, files) + Num(b, kind, done, files)
  {
    if b == [] {
      assert a + b == a;
    } else {
      NumAppend(a, b[..|b| - 1], kind, done, files);
      assert (a + b)[..|a + b| - 1] == a + b[..|b| - 1];
    }
  }

  lemma NumOne(t: Task, kind: Kind, done: bool, files: Option<seq<Name>>)
    ensures Num([t], kind, done, files) == Weight(t, kind, done, files)
  {
    assert [t][..0] == [];
  }

  /** Replacing one entry. */
  lemma NumUpdate(tasks: seq<Task>, i: nat, t: Task, kind: Kind, done: bool, files: Option<seq<Name>>)
    requires i < |tasks|
    ensures Num(tasks[i := t], kind, done, files) + Weight(tasks[i], kind, done, files)
            == Num(tasks, kind, done, files) + Weight(t, kind, done, files)
  {
    assert tasks == tasks[..i] + ([tasks[i]] + tasks[i + 1..]);
    assert tasks[i := t] == tasks[..i] + ([t] + tasks[i + 1..]);
    NumAppend(tasks[..i], [tasks[i]] + tasks[i + 1..], kind, done, files);
    NumAppend(tasks[..i], [t] + tasks[i + 1..], kind, done, files);
    NumAppend([tasks[i]], tasks[i + 1..], kind, done, files);
    NumAppend([t], tasks[i + 1..], kind, done, files);
    NumOne(tasks[i], kind, done, files);
    NumOne(t, kind, done, files);
  }

  lemma {:induction false} NoneIf(tasks: seq<Task>, kind: Kind, done: bool, files: seq<Name>)
    ensures Num(tasks, kind, done, Some(files)) <= Num(tasks, kind, done, None)
  {
    if tasks != [] { NoneIf(tasks[..|tasks| - 1], kind, done, files); }
  }

  lemma {:induction false} InitialEntries(inputs: seq<string>, kind: Kind, files: Option<seq<Name>>)
    ensures Num(MapTasks(inputs), kind, true, files) == 0
    ensures Num(MapTasks(inputs), kind, false, files)
            == if kind == Reduce then 0 else if files.Some? then Times(Singles(inputs), files.value) else |inputs|
  {
    if inputs != [] {
      var m := |inputs| - 1;
      InitialEntries(inputs[..m], kind, files);
      assert MapTasks(inputs)[..m] == MapTasks(inputs[..m]);
      assert Singles(inputs)[..m] == Singles(inputs[..m]);
    }
  }

  /** A replacement counts for the entry it replaces. */
  lemma MarkWeight(t: Task, now: int, kind: Kind, done: bool, files: Option<seq<Name>>)
    ensures Weight(Mark(t, now), kind, done, files)
            + (if Expires(t, now) then Weight(Task(t.files, Idle, 0, t.kind), kind, done, files) else 0)
            == Weight(t, kind, done, files)
  {
  }

  lemma FreshLast(tasks: seq<Task>, now: nat -> int, kind: Kind, done: bool, files: Option<seq<Name>>)
    requires tasks != []
    ensures var m := |tasks| - 1; var t := tasks[m];
            Num(Fresh(tasks, now), kind, done, files) == Num(Fresh(tasks[..m], now), kind, done, files)
            + (if Expires(t, now(m)) then Weight(Task(t.files, Idle, 0, t.kind), kind, done, files) else 0)
  {
    var m := |tasks| - 1;
    var more := Task(tasks[m].files, Idle, 0, tasks[m].kind);
    NumAppend(Fresh(tasks[..m], now), [more], kind, done, files);
    NumOne(more, kind, done, files);
    assert Fresh(tasks[..m], now) + [] == Fresh(tasks[..m], now);
  }

  lemma {:induction false} Expiring(tasks: seq<Task>, now: nat -> int, kind: Kind, done: bool, files: Option<seq<Name>>)
    ensures Num(Marked(tasks, now), kind, done, files) + Num(Fresh(tasks, now), kind, done, files) == Num(tasks, kind, done, files)
  {
    if tasks != [] {
      var m := |tasks| - 1;
      Expiring(tasks[..m], now, kind, done, files);
      assert Marked(tasks, now)[..m] == Marked(tasks[..m], now);
      FreshLast(tasks, now, kind, done, files);
      MarkWeight(tasks[m], now(m), kind, done, files);
    }
  }

  /** Timeouts leave what is to be done and what is completed alone. */
  lemma ExpiredKeeps(c: Coord, now: nat -> int, kind: Kind, done: bool, files: Option<seq<Name>>)
    ensures Num(Expired(c, now).tasks, kind, done, files) == Num(c.tasks, kind, done, files)
  {
    Expiring(c.tasks, now, kind, done, files);
    NumAppend(Marked(c.tasks, now), Fresh(c.tasks, now), kind, done, files);
  }

  lemma {:induction false} NewReduces(outs: seq<Name>, order: seq<nat>, kind: Kind, files: Option<seq<Name>>)
    ensures Num(ReduceTasks(outs, order), kind, true, files) == 0
    ensures Num(ReduceTasks(outs, order), kind, false, files)
            == if kind == Map then 0 else if files.Some? then Times(Groups(outs, order), files.value) else |order|
  {
    if order != [] {
      var m := |order| - 1;
      NewReduces(outs, order[..m], kind, files);
      assert ReduceTasks(outs, order)[..m] == ReduceTasks(outs, order[..m]);
      assert Groups(outs, order)[..m] == Groups(outs, order[..m]);
    }
  }

  lemma {:induction false} FirstIdleIs(tasks: seq<Task>, i: nat)
    ensures FirstIdle(tasks, i).Some? ==> i <= FirstIdle(tasks, i).value < |tasks| && tasks[FirstIdle(tasks, i).value].status == Idle
    ensures FirstIdle(tasks, i).Some? ==> forall j :: i <= j < FirstIdle(tasks, i).value ==> tasks[j].status != Idle
    ensures FirstIdle(tasks, i).None? ==> forall j :: i <= j < |tasks| ==> tasks[j].status != Idle
    decreases |tasks| - i
  {
    if i < |tasks| && tasks[i].status != Idle { FirstIdleIs(tasks, i + 1); }
  }

  // ---- Every step keeps the invariant ----

  /** What does not change the numbers of entries keeps the invariant. */
  ghost predicate SameNumbers(tasks: seq<Task>, tasks': seq<Task>)
  {
    forall kind, done, files :: Num(tasks', kind, done, files) == Num(tasks, kind, done, files)
  }

  lemma SameInv(s: Machine, s': Machine, inputs: seq<string>)
    requires Inv(s, inputs) && SameNumbers(s.c.tasks, s'.c.tasks) && HandedOut(s')
    requires s'.lostMap == s.lostMap && s'.lostReduce == s.lostReduce && s'.parts == s.parts
    requires s'.c.numMap == s.c.numMap && s'.c.numReduce == s.c.numReduce && s'.c.phase == s.c.phase
    ensures Inv(s', inputs)
  {
  }

  lemma Starts(tasks: seq<Task>, i: nat, now: int)
    requires i < |tasks| && tasks[i].status == Idle
    ensures SameNumbers(tasks, tasks[i := tasks[i].(status := InProgress, start := now)])
  {
    var t := tasks[i].(status := InProgress, start := now);
    forall kind, done, files ensures Num(tasks[i := t], kind, done, files) == Num(tasks, kind, done, files) {
      NumUpdate(tasks, i, t, kind, done, files);
    }
  }

  lemma InvGetTask(s: Machine, w: nat, now: int, s': Machine, inputs: seq<string>)
    requires Inv(s, inputs) && Step(s, GetTask(w, now), s')
    ensures Inv(s', inputs)
  {
    FirstIdleIs(s.c.tasks, 0);
    var i := FirstIdle(s.c.tasks, 0);
    if i.Some? { Starts(s.c.tasks, i.value, now); }
    SameInv(s, s', inputs);
  }

  lemma InvDone(s: Machine, clock: nat -> int, inputs: seq<string>)
    requires Inv(s, inputs)
    ensures Inv(s.(c := Expired(s.c, clock)), inputs)
  {
    var s' := s.(c := Expired(s.c, clock));
    forall kind, done, files ensures Num(s'.c.tasks, kind, done, files) == Num(s.c.tasks, kind, done, files) {
      ExpiredKeeps(s.c, clock, kind, done, files);
    }
    FreshIdle(s.c.tasks, clock);
    SameInv(s, s', inputs);
  }

  lemma {:induction false} FreshIdle(tasks: seq<Task>, now: nat -> int)
    ensures forall i :: 0 <= i < |Fresh(tasks, now)| ==> Fresh(tasks, now)[i].status == Idle
  {
    if tasks != [] { FreshIdle(tasks[..|tasks| - 1], now); }
  }

  /** A report that counts is on an entry of the current phase. */
  lemma ReportInPhase(s: Machine, id: nat, inputs: seq<string>)
    requires Inv(s, inputs) && id in s.running && s.c.tasks[id].status != TimedOut
    ensures s.c.tasks[id].status == InProgress
    ensures s.c.phase == if s.c.tasks[id].kind == Map then MapPhase else ReducePhase
    ensures Times(if s.c.tasks[id].kind == Map then Singles(inputs) else s.parts, s.c.tasks[id].files) > 0
    ensures s.c.tasks[id].kind == Map ==> inputs != []
  {
    var t := s.c.tasks[id];
    NumUpdate(s.c.tasks, id, t.(status := Completed), t.kind, false, Some(t.files));
    assert Num(s.c.tasks, t.kind, false, Some(t.files)) > 0;
    NoneIf(s.c.tasks, t.kind, false, t.files);
  }

  /** One entry more is completed and one less open. */
  ghost predicate Moves(tasks: seq<Task>, tasks': seq<Task>, t: Task)
  {
    forall kind, done, files :: Num(tasks', kind, done, files) + (if done then 0 else Weight(t, kind, false, files))
                             == Num(tasks, kind, done, files) + (if done then Weight(t, kind, false, files) else 0)
  }

  lemma Completes(tasks: seq<Task>, i: nat)
    requires i < |tasks| && tasks[i].status == InProgress
    ensures Moves(tasks, tasks[i := tasks[i].(status := Completed)], tasks[i])
  {
    var t := tasks[i].(status := Completed);
    forall kind, done, files
      ensures Num(tasks[i := t], kind, done, files) + (if done then 0 else Weight(tasks[i], kind, false, files))
           == Num(tasks, kind, done, files) + (if done then Weight(tasks[i], kind, false, files) else 0)
    {
      NumUpdate(tasks, i, t, kind, done, files);
    }
  }

  lemma ReportHandedOut(s: Machine, id: nat, ok: bool, outs: seq<Name>, order: seq<nat>)
    requires HandedOut(s) && id in s.running && s.c.tasks[id].status == InProgress
    ensures HandedOut(AfterReport(s, id, ok, outs, order))
  {
  }

  /** A report that does not start the reduce phase. */
  lemma InvReport(s: Machine, id: nat, ok: bool, outs: seq<Name>, order: seq<nat>, inputs: seq<string>)
    requires Inv(s, inputs) && id in s.running && s.c.tasks[id].status != TimedOut
    requires !(ok && s.c.tasks[id].kind == Map && s.c.numMap == 1)
    ensures Inv(AfterReport(s, id, ok, outs, order), inputs)
  {
    ReportInPhase(s, id, inputs);
    ReportHandedOut(s, id, ok, outs, order);
    Completes(s.c.tasks, id);
    ReportCounts(s, id, ok, outs, order, inputs);
  }

  lemma ReportCounts(s: Machine, id: nat, ok: bool, outs: seq<Name>, order: seq<nat>, inputs: seq<string>)
    requires Counted(s) && PhaseOk(s, inputs) && id < |s.c.tasks| && s.c.tasks[id].status == InProgress
    requires s.c.phase == (if s.c.tasks[id].kind == Map then MapPhase else ReducePhase)
    requires !(ok && s.c.tasks[id].kind == Map && s.c.numMap == 1)
    requires Moves(s.c.tasks, s.c.tasks[id := s.c.tasks[id].(status := Completed)], s.c.tasks[id])
    requires inputs != [] || s.c.tasks[id].kind == Reduce
    ensures var s' := AfterReport(s, id, ok, outs, order); Counted(s') && PhaseOk(s', inputs)
  {
    var tasks := s.c.tasks[id := s.c.tasks[id].(status := Completed)];
    assert AfterReport(s, id, ok, outs, order).c.tasks == tasks;
    assert Num(tasks, Map, false, None) + Weight(s.c.tasks[id], Map, false, None) == Num(s.c.tasks, Map, false, None);
    assert Num(tasks, Reduce, false, None) + Weight(s.c.tasks[id], Reduce, false, None) == Num(s.c.tasks, Reduce, false, None);
  }

  /** Reduce entries are added when the last map entry completes. */
  lemma Adds(tasks: seq<Task>, outs: seq<Name>, order: seq<nat>, kind: Kind, files: Option<seq<Name>>)
    ensures var tasks' := tasks + ReduceTasks(outs, order);
            && Num(tasks', kind, true, files) == Num(tasks, kind, true, files)
            && Num(tasks', kind, false, files) == Num(tasks, kind, false, files)
               + (if kind == Map then 0 else if files.Some? then Times(Groups(outs, order), files.value) else |order|)
  {
    NumAppend(tasks, ReduceTasks(outs, order), kind, false, files);
    NumAppend(tasks, ReduceTasks(outs, order), kind, true, files);
    NewReduces(outs, order, kind, files);
  }

  lemma InvLastMap(s: Machine, id: nat, outs: seq<Name>, order: seq<nat>, inputs: seq<string>)
    requires Inv(s, inputs) && id in s.running && s.c.tasks[id].status != TimedOut
    requires s.c.tasks[id].kind == Map && s.c.numMap == 1
    ensures Inv(AfterReport(s, id, true, outs, order), inputs)
  {
    ReportInPhase(s, id, inputs);
    ReportHandedOut(s, id, true, outs, order);
    Completes(s.c.tasks, id);
    var tasks := s.c.tasks[id := s.c.tasks[id].(status := Completed)];
    forall kind, files
      ensures Num(tasks + ReduceTasks(outs, order), kind, true, files) == Num(tasks, kind, true, files)
      ensures Num(tasks + ReduceTasks(outs, order), kind, false, files) == Num(tasks, kind, false, files)
               + (if kind == Map then 0 else if files.Some? then Times(Groups(outs, order), files.value) else |order|)
    {
      Adds(tasks, outs, order, kind, files);
    }
  }

  lemma InvStep(s: Machine, l: Label, s': Machine, inputs: seq<string>)
    requires Inv(s, inputs) && Step(s, l, s')
    ensures Inv(s', inputs)
  {
    match l
    case GetTask(w, now) => InvGetTask(s, w, now, s', inputs);
    case TaskDone(id, ok, outs, order) =>
      if s.c.tasks[id].status != TimedOut {
        if ok && s.c.tasks[id].kind == Map && s.c.numMap == 1 { InvLastMap(s, id, outs, order, inputs); }
        else { InvReport(s, id, ok, outs, order, inputs); }
      }
    case Done(clock) => InvDone(s, clock, inputs);
    case _ =>
  }

  lemma InvInit(s: Machine, inputs: seq<string>, nReduce: nat)
    requires Init(s, inputs, nReduce)
    ensures Inv(s, inputs)
  {
    forall kind, files
      ensures Num(MapTasks(inputs), kind, true, files) == 0
      ensures Num(MapTasks(inputs), kind, false, files)
              == if kind == Reduce then 0 else if files.Some? then Times(Singles(inputs), files.value) else |inputs|
    {
      InitialEntries(inputs, kind, files);
    }
  }

  // ---- Runs ----

  ghost predicate StepAt(ss: seq<Machine>, ls: seq<Label>, t: nat)
  {
    t < |ls| && t + 1 < |ss| && Step(ss[t], ls[t], ss[t + 1])
  }

  ghost predicate Run(ss: seq<Machine>, ls: seq<Label>, inputs: seq<string>, nReduce: nat)
  {
    && |ss| == |ls| + 1 && Init(ss[0], inputs, nReduce)
    && forall t: nat :: t < |ls| ==> StepAt(ss, ls, t)
  }

  lemma {:induction false} InvHolds(ss: seq<Machine>, ls: seq<Label>, inputs: seq<string>, nReduce: nat, t: nat)
    requires Run(ss, ls, inputs, nReduce) && t <= |ls|
    ensures Inv(ss[t], inputs)
  {
    if t == 0 {
      InvInit(ss[0], inputs, nReduce);
    } else {
      InvHolds(ss, ls, inputs, nReduce, t - 1);
      assert StepAt(ss, ls, t - 1);
      InvStep(ss[t - 1], ls[t - 1], ss[t], inputs);
    }
  }

  /** At every moment of every run each input, and each partition once there are any, has exactly one entry
      that is not timed out; and the counters are the open entries plus those lost to failed renames. */
  lemma OneEntryEach(ss: seq<Machine>, ls: seq<Label>, inputs: seq<string>, nReduce: nat, t: nat)
    requires Run(ss, ls, inputs, nReduce) && t <= |ls|
    ensures Covers(ss[t].c.tasks, Map, Singles(inputs)) && Covers(ss[t].c.tasks, Reduce, ss[t].parts)
    ensures Counted(ss[t])
  {
    InvHolds(ss, ls, inputs, nReduce, t);
  }

  ghost predicate HandsOut(s: Machine, l: Label, id: nat) { l.GetTask? && FirstIdle(s.c.tasks, 0) == Some(id) }

  lemma {:induction false} GivenStays(ss: seq<Machine>, ls: seq<Label>, inputs: seq<string>, nReduce: nat, u: nat, t: nat)
    requires Run(ss, ls, inputs, nReduce) && u <= t <= |ls|
    ensures ss[u].given <= ss[t].given
    decreases t
  {
    if u < t {
      GivenStays(ss, ls, inputs, nReduce, u, t - 1);
      assert StepAt(ss, ls, t - 1);
    }
  }

  /** No entry is ever handed out twice. */
  lemma HandedOutOnce(ss: seq<Machine>, ls: seq<Label>, inputs: seq<string>, nReduce: nat, u: nat, t: nat, id: nat)
    requires Run(ss, ls, inputs, nReduce) && u < |ls| && t < |ls| && HandsOut(ss[u], ls[u], id) && HandsOut(ss[t], ls[t], id)
    ensures u == t
  {
    assert StepAt(ss, ls, u) && StepAt(ss, ls, t);
    InvHolds(ss, ls, inputs, nReduce, u);
    InvHolds(ss, ls, inputs, nReduce, t);
    FirstIdleIs(ss[u].c.tasks, 0);
    FirstIdleIs(ss[t].c.tasks, 0);
    if u < t { GivenStays(ss, ls, inputs, nReduce, u + 1, t); }
    if t < u { GivenStays(ss, ls, inputs, nReduce, t + 1, u); }
  }

  function Rank(p: Phase): nat
  {
    match p
    case MapPhase => 0
    case ReducePhase => 1
    case ShutdownPhase => 2
  }

  /** Phases only advance, and what the reduce tasks are made of is settled once. */
  lemma {:induction false} PhasesAdvance(ss: seq<Machine>, ls: seq<Label>, inputs: seq<string>, nReduce: nat, u: nat, t: nat)
    requires Run(ss, ls, inputs, nReduce) && u <= t <= |ls|
    ensures Rank(ss[u].c.phase) <= Rank(ss[t].c.phase)
    ensures ss[u].c.phase != MapPhase ==> ss[t].parts == ss[u].parts
    decreases t
  {
    if u < t {
      PhasesAdvance(ss, ls, inputs, nReduce, u, t - 1);
      assert StepAt(ss, ls, t - 1);
      InvHolds(ss, ls, inputs, nReduce, t - 1);
      PhaseStep(ss[t - 1], ls[t - 1], ss[t], inputs);
    }
  }

  lemma PhaseStep(s: Machine, l: Label, s': Machine, inputs: seq<string>)
    requires Inv(s, inputs) && Step(s, l, s')
    ensures Rank(s.c.phase) <= Rank(s'.c.phase) && (s.c.phase != MapPhase ==> s'.parts == s.parts)
  {
    if l.TaskDone? && s.c.tasks[l.id].status != TimedOut { ReportInPhase(s, l.id, inputs); }
  }

  /** Nothing is left to do, and each input and each partition has exactly one completed entry. */
  ghost predicate AllDone(s: Machine, inputs: seq<string>)
  {
    && Num(s.c.tasks, Map, false, None) == Num(s.c.tasks, Reduce, false, None) == s.lostMap == 0
    && (forall f :: Num(s.c.tasks, Map, true, Some(f)) == Times(Singles(inputs), f))
    && (forall f :: Num(s.c.tasks, Reduce, true, Some(f)) == Times(s.parts, f))
  }

  /** Each input has exactly one completed entry. */
  ghost predicate MapsDone(s: Machine, inputs: seq<string>)
  {
    forall f :: Num(s.c.tasks, Map, true, Some(f)) == Times(Singles(inputs), f)
  }

  /** So it is as soon as the map phase is over. */
  lemma MapsAreDone(s: Machine, inputs: seq<string>)
    requires Inv(s, inputs) && s.c.phase != MapPhase
    ensures MapsDone(s, inputs) && s.lostMap == 0
  {
    forall f: seq<Name> ensures Num(s.c.tasks, Map, false, Some(f)) <= Num(s.c.tasks, Map, false, None) {
      NoneIf(s.c.tasks, Map, false, f);
    }
  }

  lemma {:induction false} NoneOpen(tasks: seq<Task>, kind: Kind)
    requires forall i :: 0 <= i < |tasks| ==> !Open(tasks[i])
    ensures Num(tasks, kind, false, None) == 0
  {
    if tasks != [] { NoneOpen(tasks[..|tasks| - 1], kind); }
  }

  lemma FinishedMeans(s: Machine, inputs: seq<string>)
    requires Inv(s, inputs) && (Finished(s.c) || s.c.phase == ShutdownPhase)
    ensures AllDone(s, inputs)
    ensures s.c.phase == ShutdownPhase ==> s.lostReduce == 0
  {
    if s.c.phase == ReducePhase {
      NoneOpen(s.c.tasks, Map);
      NoneOpen(s.c.tasks, Reduce);
    }
    forall kind, f: seq<Name> ensures Num(s.c.tasks, kind, false, Some(f)) <= Num(s.c.tasks, kind, false, None) {
      NoneIf(s.c.tasks, kind, false, f);
    }
  }

  /** When `Done` answers true, or a worker is told to shut down, every input and every partition has
      exactly one completed entry. */
  lemma DoneMeansDone(ss: seq<Machine>, ls: seq<Label>, inputs: seq<string>, nReduce: nat, t: nat)
    requires Run(ss, ls, inputs, nReduce) && t < |ls|
    requires (ls[t].Done? && Finished(ss[t + 1].c)) || (ls[t].Heartbeat? && ss[t].c.phase == ShutdownPhase)
    ensures AllDone(ss[t + 1], inputs)
  {
    InvHolds(ss, ls, inputs, nReduce, t + 1);
    assert StepAt(ss, ls, t);
    FinishedMeans(ss[t + 1], inputs);
  }

  /** `Done` answers true although output was lost exactly when it does so without having reached the
      shutdown phase while there was something to reduce. */
  lemma DoneLoses(ss: seq<Machine>, ls: seq<Label>, inputs: seq<string>, nReduce: nat, t: nat)
    requires Run(ss, ls, inputs, nReduce) && t <= |ls| && Finished(ss[t].c)
    ensures ss[t].lostReduce > 0 <==> ss[t].c.phase == ReducePhase && ss[t].parts != []
  {
    InvHolds(ss, ls, inputs, nReduce, t);
    FinishedMeans(ss[t], inputs);
  }

  /** A coordinator with the input "in" and then its one intermediate file. */
  ghost function Example(map0: Status, reduce0: Option<Status>): seq<Task>
  {
    [MapTask("in").(status := map0)] + if reduce0.Some? then [Task([MapOut(0, 0)], reduce0.value, 0, Reduce)] else []
  }

  lemma ExampleOrder()
    ensures IsOrder([MapOut(0, 0)], [0])
    ensures ReduceTasks([MapOut(0, 0)], [0]) == [Task([MapOut(0, 0)], Idle, 0, Reduce)]
    ensures Groups([MapOut(0, 0)], [0]) == [[MapOut(0, 0)]]
  {
    var outs := [MapOut(0, 0)];
    assert outs[..0] == [];
    assert InBucket(outs, 0) == outs && forall b: nat :: b > 0 ==> InBucket(outs, b) == [];
  }

  lemma ExampleIdle(reduce0: Status)
    requires reduce0 == Idle
    ensures FirstIdle(Example(Idle, None), 0) == Some(0)
    ensures FirstIdle(Example(Completed, Some(reduce0)), 0) == Some(1)
  {
    assert FirstIdle(Example(Completed, Some(reduce0)), 1) == Some(1);
  }

  /** The states of a run: register, map, report, reduce, and a report whose files cannot be renamed. */
  ghost function ExampleAt(k: nat): Machine
  {
    var w, parts := [Worker(0, true)], [[MapOut(0, 0)]];
    if k == 0 then Machine(Coord(Example(Idle, None), [], 1, 0, MapPhase, 1), {}, {}, 0, 0, [])
    else if k == 1 then Machine(Coord(Example(Idle, None), w, 1, 0, MapPhase, 1), {}, {}, 0, 0, [])
    else if k == 2 then Machine(Coord(Example(InProgress, None), w, 1, 0, MapPhase, 1), {0}, {0}, 0, 0, [])
    else if k == 3 then Machine(Coord(Example(Completed, Some(Idle)), w, 0, 1, ReducePhase, 1), {0}, {}, 0, 0, parts)
    else if k == 4 then
      Machine(Coord(Example(Completed, Some(InProgress)), [Worker(1, true)], 0, 1, ReducePhase, 1), {0, 1}, {1}, 0, 0, parts)
    else Machine(Coord(Example(Completed, Some(Completed)), [Worker(1, true)], 0, 1, ReducePhase, 1), {0, 1}, {}, 0, 1, parts)
  }

  lemma ExampleMapped()
    ensures Step(ExampleAt(2), TaskDone(0, true, [MapOut(0, 0)], [0]), ExampleAt(3))
  {
    ExampleOrder();
    assert ExampleAt(2).running - {0} == {};
    assert AfterReport(ExampleAt(2), 0, true, [MapOut(0, 0)], [0]).c.tasks == ExampleAt(3).c.tasks;
  }

  lemma ExampleTakes()
    ensures Step(ExampleAt(3), GetTask(0, 0), ExampleAt(4))
  {
    ExampleIdle(Idle);
    assert Assigned(ExampleAt(3).c, 0, 0).tasks == ExampleAt(4).c.tasks;
  }

  lemma ExampleReduced()
    ensures Step(ExampleAt(4), TaskDone(1, false, [MapOut(0, 0)], [0]), ExampleAt(5))
  {
    ExampleOrder();
    assert ExampleAt(4).running - {1} == {};
    assert AfterReport(ExampleAt(4), 1, false, [MapOut(0, 0)], [0]).c.tasks == ExampleAt(5).c.tasks;
  }

  lemma ExampleStarts()
    ensures Step(ExampleAt(0), Register, ExampleAt(1)) && Step(ExampleAt(1), GetTask(0, 0), ExampleAt(2))
  {
    ExampleIdle(Idle);
  }

  ghost function ExampleStates(): seq<Machine>
  {
    [ExampleAt(0), ExampleAt(1), ExampleAt(2), ExampleAt(3), ExampleAt(4), ExampleAt(5)]
  }

  ghost function ExampleLabels(): seq<Label>
  {
    [Register, GetTask(0, 0), TaskDone(0, true, [MapOut(0, 0)], [0]),
     GetTask(0, 0), TaskDone(1, false, [MapOut(0, 0)], [0])]
  }

  lemma ExampleStepAt(t: nat)
    requires t < 5
    ensures StepAt(ExampleStates(), ExampleLabels(), t)
  {
    if t < 2 { ExampleStarts(); }
    else if t == 2 { ExampleMapped(); }
    else if t == 3 { ExampleTakes(); }
    else { ExampleReduced(); }
  }

  /** And that happens: one input, one intermediate file, and a rename that fails. */
  lemma LossHappens() returns (ss: seq<Machine>, ls: seq<Label>)
    ensures Run(ss, ls, ["in"], 1) && Finished(ss[|ls|].c) && ss[|ls|].lostReduce == 1
  {
    ss, ls := ExampleStates(), ExampleLabels();
    assert MapTasks(["in"]) == Example(Idle, None);
    forall t: nat | t < |ls| ensures StepAt(ss, ls, t) { ExampleStepAt(t); }
  }

  /** With nothing to map the job never finishes. */
  lemma {:induction false} NoInputs(ss: seq<Machine>, ls: seq<Label>, nReduce: nat, t: nat)
    requires Run(ss, ls, [], nReduce) && t <= |ls|
    ensures ss[t].c.phase == MapPhase && !Finished(ss[t].c)
  {
    if t > 0 {
      NoInputs(ss, ls, nReduce, t - 1);
      InvHolds(ss, ls, [], nReduce, t - 1);
      assert StepAt(ss, ls, t - 1);
      var s, l := ss[t - 1], ls[t - 1];
      if l.TaskDone? && s.c.tasks[l.id].status != TimedOut {
        ReportInPhase(s, l.id, []);
        assert false;
      }
    }
  }

  // ---- The partition ----

  lemma {:induction false} InBucketIs(outs: seq<Name>, b: nat, n: Name)
    ensures n in InBucket(outs, b) <==> n in outs && BucketOf(n) == b
  {
    if outs != [] {
      var m := |outs| - 1;
      InBucketIs(outs[..m], b, n);
      assert outs == outs[..m] + [outs[m]];
    }
  }

  lemma {:induction false} InBucketNoDup(outs: seq<Name>, b: nat)
    requires NoDup(outs)
    ensures NoDup(InBucket(outs, b))
  {
    if outs != [] {
      var m := |outs| - 1;
      InBucketNoDup(outs[..m], b);
      InBucketIs(outs[..m], b, outs[m]);
      assert outs[m] !in outs[..m];
    }
  }

  /** Every file is in exactly one group, and two files share a group exactly if they share a bucket. */
  lemma PartitionExact(outs: seq<Name>, order: seq<nat>, n: Name, n': Name)
    requires IsOrder(outs, order) && n in outs && n' in outs
    ensures exists i :: 0 <= i < |order| && n in Groups(outs, order)[i]
    ensures forall i, j :: 0 <= i < |order| && 0 <= j < |order| && n in Groups(outs, order)[i] && n in Groups(outs, order)[j] ==> i == j
    ensures (exists i :: 0 <= i < |order| && n in Groups(outs, order)[i] && n' in Groups(outs, order)[i]) <==> BucketOf(n) == BucketOf(n')
    ensures n.MapOut? && n'.MapOut? ==> (BucketOf(n) == BucketOf(n') <==> n.bucket == n'.bucket)
  {
    forall b: nat ensures (n in InBucket(outs, b) <==> BucketOf(n) == b) && (n' in InBucket(outs, b) <==> BucketOf(n') == b) {
      InBucketIs(outs, b, n);
      InBucketIs(outs, b, n');
    }
    assert n in InBucket(outs, BucketOf(n));
    assert BucketOf(n) in order;
    var k :| 0 <= k < |order| && order[k] == BucketOf(n);
    assert n in Groups(outs, order)[k];
    if BucketOf(n) == BucketOf(n') { assert n' in Groups(outs, order)[k]; }
  }
}
