/** When the coordinator may stop, and when a task is given up, said of the calls that workers made. */
module Shutdown {
  import opened Rpc
  import opened Names
  import opened Coordination
  import opened ExactlyOnce

  /** How many workers have registered in the first `t` steps; they are numbered from 0. */
  ghost function Registrations(ls: seq<Label>, t: nat): nat
    requires t <= |ls|
  {
    if t == 0 then 0 else Registrations(ls, t - 1) + if ls[t - 1] == Register then 1 else 0
  }

  /** Some heartbeat of worker `w` before step `t` fell into the shutdown phase. */
  ghost predicate ToldToStop(ss: seq<Machine>, ls: seq<Label>, w: nat, t: nat)
    requires |ss| == |ls| + 1 && t <= |ls|
  {
    exists u: nat :: u < t && ls[u] == Heartbeat(w) && ss[u].c.phase == ShutdownPhase
  }

  /** The coordinator's list of workers says who has been told. */
  ghost predicate Listing(ss: seq<Machine>, ls: seq<Label>, t: nat)
    requires |ss| == |ls| + 1 && t <= |ls|
  {
    var workers := ss[t].c.workers;
    && |workers| == Registrations(ls, t)
    && (forall w: nat :: ToldToStop(ss, ls, w, t) ==> w < |workers|)
    && (forall w: nat :: w < |workers| ==> (!workers[w].running <==> ToldToStop(ss, ls, w, t)))
  }

  lemma ToldNext(ss: seq<Machine>, ls: seq<Label>, w: nat, t: nat)
    requires |ss| == |ls| + 1 && t < |ls|
    ensures ToldToStop(ss, ls, w, t + 1) <==>
              ToldToStop(ss, ls, w, t) || (ls[t] == Heartbeat(w) && ss[t].c.phase == ShutdownPhase)
  {
  }

  /** How one step changes the list. */
  lemma WorkersStep(s: Machine, l: Label, s': Machine)
    requires Step(s, l, s')
    ensures |s'.c.workers| == |s.c.workers| + if l == Register then 1 else 0
    ensures forall w: nat :: w < |s'.c.workers| ==>
              (!s'.c.workers[w].running <==>
                 w < |s.c.workers| && (!s.c.workers[w].running || (l == Heartbeat(w) && s.c.phase == ShutdownPhase)))
    ensures l.Heartbeat? ==> l.w < |s.c.workers|
  {
  }

  lemma {:induction false} ListingHolds(ss: seq<Machine>, ls: seq<Label>, inputs: seq<string>, nReduce: nat, t: nat)
    requires Run(ss, ls, inputs, nReduce) && t <= |ls|
    ensures Listing(ss, ls, t)
  {
    if t > 0 {
      ListingHolds(ss, ls, inputs, nReduce, t - 1);
      assert StepAt(ss, ls, t - 1);
      WorkersStep(ss[t - 1], ls[t - 1], ss[t]);
      forall w: nat ensures ToldToStop(ss, ls, w, t) <==>
        ToldToStop(ss, ls, w, t - 1) || (ls[t - 1] == Heartbeat(w) && ss[t - 1].c.phase == ShutdownPhase)
      {
        ToldNext(ss, ls, w, t - 1);
      }
    }
  }

  /** In the shutdown phase `Done` answers true exactly when every worker that has registered has since made
      a heartbeat that told it to stop. */
  lemma DoneInShutdown(ss: seq<Machine>, ls: seq<Label>, inputs: seq<string>, nReduce: nat, t: nat)
    requires Run(ss, ls, inputs, nReduce) && t < |ls| && ls[t].Done? && ss[t].c.phase == ShutdownPhase
    ensures Finished(ss[t + 1].c) <==> forall w: nat :: w < Registrations(ls, t) ==> ToldToStop(ss, ls, w, t)
  {
    ListingHolds(ss, ls, inputs, nReduce, t);
    assert StepAt(ss, ls, t);
  }

  // ---- Timeouts ----

  /** Entry `id` was handed out at time `now`, and still says so. */
  ghost predicate StartedAt(s: Machine, id: nat, files: seq<Name>, now: int)
  {
    id < |s.c.tasks| && s.c.tasks[id].status != Idle && s.c.tasks[id].start == now && s.c.tasks[id].files == files
  }

  lemma StartStep(s: Machine, l: Label, s': Machine, id: nat, files: seq<Name>, now: int)
    requires Step(s, l, s') && StartedAt(s, id, files, now)
    ensures StartedAt(s', id, files, now)
  {
    FirstIdleIs(s.c.tasks, 0);
    match l
    case TaskDone(i, ok, outs, order) => assert s'.c.tasks[id].start == s.c.tasks[id].start;
    case Done(clock) => assert s'.c.tasks[id] == Mark(s.c.tasks[id], clock(id));
    case _ =>
  }

  lemma {:induction false} StartStays(ss: seq<Machine>, ls: seq<Label>, inputs: seq<string>, nReduce: nat, u: nat, t: nat, id: nat)
    requires Run(ss, ls, inputs, nReduce) && u < t <= |ls| && HandsOut(ss[u], ls[u], id)
    ensures id < |ss[u].c.tasks| && StartedAt(ss[t], id, ss[u].c.tasks[id].files, ls[u].now)
  {
    FirstIdleIs(ss[u].c.tasks, 0);
    assert StepAt(ss, ls, t - 1);
    if u + 1 < t {
      StartStays(ss, ls, inputs, nReduce, u, t - 1, id);
      StartStep(ss[t - 1], ls[t - 1], ss[t], id, ss[u].c.tasks[id].files, ls[u].now);
    }
  }

  /** A task is given up exactly when `Done` finds it still in progress more than ten seconds after the
      GetTask that handed it out; then `j` is a new idle entry for the same files. */
  lemma TimesOutExactly(ss: seq<Machine>, ls: seq<Label>, inputs: seq<string>, nReduce: nat, u: nat, t: nat, id: nat)
    returns (j: nat)
    requires Run(ss, ls, inputs, nReduce) && u < t < |ls| && HandsOut(ss[u], ls[u], id) && ls[t].Done?
    ensures id < |ss[u].c.tasks| && id < |ss[t].c.tasks| <= |ss[t + 1].c.tasks|
    ensures ss[t].c.tasks[id].status == InProgress ==>
              ss[t + 1].c.tasks[id].status == if ls[t].clock(id) > ls[u].now + 10 then TimedOut else InProgress
    ensures ss[t].c.tasks[id].status != InProgress ==> ss[t + 1].c.tasks[id] == ss[t].c.tasks[id]
    ensures ss[t].c.tasks[id].status == InProgress && ls[t].clock(id) > ls[u].now + 10 ==>
              |ss[t].c.tasks| <= j < |ss[t + 1].c.tasks| && ss[t + 1].c.tasks[j].status == Idle
              && ss[t + 1].c.tasks[j].files == ss[u].c.tasks[id].files
  {
    StartStays(ss, ls, inputs, nReduce, u, t, id);
    assert StepAt(ss, ls, t);
    var tasks, clock := ss[t].c.tasks, ls[t].clock;
    j := 0;
    if Expires(tasks[id], clock(id)) {
      var k := Replaced(tasks, clock, id);
      j := |tasks| + k;
      assert ss[t + 1].c.tasks[j] == Fresh(tasks, clock)[k];
    }
  }

  lemma {:induction false} Replaced(tasks: seq<Task>, now: nat -> int, id: nat) returns (j: nat)
    requires id < |tasks| && Expires(tasks[id], now(id))
    ensures j < |Fresh(tasks, now)| && Fresh(tasks, now)[j] == Task(tasks[id].files, Idle, 0, tasks[id].kind)
  {
    var m := |tasks| - 1;
    if id == m {
      j := |Fresh(tasks[..m], now)|;
    } else {
      j := Replaced(tasks[..m], now, id);
    }
  }
}
