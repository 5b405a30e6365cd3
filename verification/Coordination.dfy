/** The coordinator's bookkeeping: task entries, timeouts that append replacements, counters and phases.
    Each function is what one critical section does to the coordinator's fields. */
module Coordination {
  import opened Rpc
  import opened Bags
  import opened Names

  datatype Kind = Map | Reduce

  datatype Status = Idle | InProgress | Completed | TimedOut

  datatype Task = Task(files: seq<Name>, status: Status, start: int, kind: Kind)

  datatype Worker = Worker(task: nat, running: bool)

  datatype Phase = MapPhase | ReducePhase | ShutdownPhase

  const TIMEOUT_SECS := 10

  datatype Coord = Coord(tasks: seq<Task>, workers: seq<Worker>, numMap: int, numReduce: int,
                         phase: Phase, nReduce: nat)

  function MapTask(file: string): Task { Task([Input(file)], Idle, 0, Map) }

  function MapTasks(files: seq<string>): seq<Task>
  {
    seq(|files|, i requires 0 <= i < |files| => MapTask(files[i]))
  }

  function Initial(files: seq<string>, nReduce: nat): Coord
  {
    Coord(MapTasks(files), [], |files|, 0, MapPhase, nReduce)
  }

  function Registered(c: Coord): Coord { c.(workers := c.workers + [Worker(0, true)]) }

  /** The first idle entry from `i` on. */
  function FirstIdle(tasks: seq<Task>, i: nat): Option<nat>
    decreases |tasks| - i
  {
    if i >= |tasks| then None else if tasks[i].status == Idle then Some(i) else FirstIdle(tasks, i + 1)
  }

  function Assigned(c: Coord, w: nat, now: int): Coord
    requires w < |c.workers|
  {
    match FirstIdle(c.tasks, 0)
    case None => c.(workers := c.workers[w := c.workers[w].(task := 0)])
    case Some(i) =>
      if i < |c.tasks| then
        c.(tasks := c.tasks[i := c.tasks[i].(status := InProgress, start := now)],
           workers := c.workers[w := c.workers[w].(task := i)])
      else c
  }

  // ---- The partition of the intermediate files ----

  function BucketOf(n: Name): nat
  {
    match n
    case MapOut(_, b) => b
    case _ => 0
  }

  /** The files of one bucket, in the order found. */
  function InBucket(outs: seq<Name>, b: nat): seq<Name>
  {
    if outs == [] then []
    else InBucket(outs[..|outs| - 1], b) + (if BucketOf(outs[|outs| - 1]) == b then [outs[|outs| - 1]] else [])
  }

  /** One group per bucket, in the order in which the buckets come out of a map. */
  function Groups(outs: seq<Name>, order: seq<nat>): seq<seq<Name>>
  {
    seq(|order|, i requires 0 <= i < |order| => InBucket(outs, order[i]))
  }

  function ReduceTasks(outs: seq<Name>, order: seq<nat>): seq<Task>
  {
    seq(|order|, i requires 0 <= i < |order| => Task(InBucket(outs, order[i]), Idle, 0, Reduce))
  }

  /** `order` lists the buckets that occur, each once. */
  ghost predicate IsOrder(outs: seq<Name>, order: seq<nat>)
  {
    && NoDup(order)
    && forall b: nat :: b in order <==> InBucket(outs, b) != []
  }

  // ---- TaskDone, Done, Heartbeat ----

  /** A report on an entry that is not timed out; `ok` says that its files could be renamed. */
  function Reported(c: Coord, id: nat, ok: bool, more: seq<Task>): Coord
    requires id < |c.tasks|
  {
    var c := c.(tasks := c.tasks[id := c.tasks[id].(status := Completed)]);
    if !ok then c else
    match c.tasks[id].kind
    case Map =>
      if c.numMap == 1
      then c.(numMap := 0, tasks := c.tasks + more, numReduce := c.numReduce + |more|, phase := ReducePhase)
      else c.(numMap := c.numMap - 1)
    case Reduce =>
      if c.numReduce == 1 then c.(numReduce := 0, phase := ShutdownPhase) else c.(numReduce := c.numReduce - 1)
  }

  predicate Expires(t: Task, now: int) { t.status == InProgress && now > t.start + TIMEOUT_SECS }

  function Mark(t: Task, now: int): Task { if Expires(t, now) then t.(status := TimedOut) else t }

  /** The entries with those that have run out of time marked; `now(i)` is the clock when entry `i` is looked at. */
  function Marked(tasks: seq<Task>, now: nat -> int): seq<Task>
  {
    seq(|tasks|, i requires 0 <= i < |tasks| => Mark(tasks[i], now(i)))
  }

  /** Their replacements. */
  function Fresh(tasks: seq<Task>, now: nat -> int): seq<Task>
  {
    if tasks == [] then [] else
    var m := |tasks| - 1;
    Fresh(tasks[..m], now) + (if Expires(tasks[m], now(m)) then [Task(tasks[m].files, Idle, 0, tasks[m].kind)] else [])
  }

  function Expired(c: Coord, now: nat -> int): Coord
  {
    c.(tasks := Marked(c.tasks, now) + Fresh(c.tasks, now))
  }

  predicate Open(t: Task) { t.status == Idle || t.status == InProgress }

  /** What Done answers once the timeouts are dealt with. */
  predicate Finished(c: Coord)
  {
    match c.phase
    case MapPhase => false
    case ReducePhase => forall i :: 0 <= i < |c.tasks| ==> !Open(c.tasks[i])
    case ShutdownPhase => forall i :: 0 <= i < |c.workers| ==> !c.workers[i].running
  }

  function Beaten(c: Coord, w: nat): Coord
    requires w < |c.workers|
  {
    if c.phase == ShutdownPhase then c.(workers := c.workers[w := c.workers[w].(running := false)]) else c
  }
}
