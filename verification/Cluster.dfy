/** A whole MapReduce job: the coordinator, the shared directory, and workers that write one pair, read one
    file or write one line at a time, and may stop for good at any point. */
module Cluster {
  import opened Rpc
  import opened Bags
  import opened Wire
  import opened Names
  import opened Files
  import opened Coordination
  import opened Work
  import E = ExactlyOnce

  /** How far the worker that was given a task has come. */
  datatype Attempt =
    | Mapping(ps: seq<KeyValue>, k: nat)
    | Reading(files: seq<Name>, k: nat, m: Grouping)
    | Writing(b: nat, keys: seq<string>, k: nat, m: Grouping)

  /** `m` is the coordinator with its ghosts; `outs` and `order` are what the reduce tasks were made from. */
  datatype Sys = Sys(m: E.Machine, fs: Fs, work: map<nat, Attempt>, outs: seq<Name>, order: seq<nat>, done: bool)

  datatype Label =
    | Register
    | GetTask(w: nat, now: int)
    | WritePair(id: nat)
    | ReadFile(id: nat)
    | StartWriting(id: nat, keys: seq<string>)
    | WriteLine(id: nat)
    | TaskDone(id: nat, created: seq<Name>, outs: seq<Name>, order: seq<nat>)
    | Done(clock: nat -> int)
    | Heartbeat(w: nat)

  /** A worker starts: it reads its input, or is about to read its files. */
  ghost function Begin(job: Job, fs: Fs, t: Task): Attempt
  {
    if t.kind == Map then Mapping(Mapped(job, fs, t.files), 0) else Reading(t.files, 0, map[])
  }

  /** The worker has finished, having created these files. */
  ghost predicate Ready(job: Job, id: nat, a: Attempt, created: seq<Name>)
  {
    match a
    case Mapping(ps, k) => k == |ps| && Created(job, id, ps, created)
    case Reading(files, _, _) => files == [] && created == []
    case Writing(b, keys, k, _) => k == |keys| && created == if keys == [] then [] else [TempReduce(b)]
  }

  /** What a report does to the directory: late files are removed, the others renamed. */
  ghost function Filed(fs: Fs, late: bool, created: seq<Name>): (Fs, bool)
  {
    if late then RemoveAll(fs, created) else RenameAll(fs, created)
  }

  ghost predicate IsLate(s: Sys, id: nat)
  {
    id < |s.m.c.tasks| && s.m.c.tasks[id].status == TimedOut
  }

  /** The report of the last map task, which creates the reduce tasks. */
  ghost predicate LastMap(s: Sys, id: nat, ok: bool)
  {
    id < |s.m.c.tasks| && !IsLate(s, id) && ok && s.m.c.tasks[id].kind == Map && s.m.c.numMap == 1
  }

  ghost predicate Step(job: Job, s: Sys, l: Label, s': Sys)
  {
    !s.done &&
    match l
    case Register => s' == s.(m := s'.m) && E.Step(s.m, E.Register, s'.m)
    case GetTask(w, now) =>
      && E.Step(s.m, E.GetTask(w, now), s'.m)
      && var i := FirstIdle(s.m.c.tasks, 0);
         s' == s.(m := s'.m, work := if i.Some? && i.value < |s.m.c.tasks|
                                     then s.work[i.value := Begin(job, s.fs, s.m.c.tasks[i.value])] else s.work)
    case WritePair(id) =>
      && id in s.work && s.work[id].Mapping? && s.work[id].k < |s.work[id].ps|
      && var a := s.work[id];
         s' == s.(fs := Work.WritePair(job, s.fs, id, a.ps[a.k]), work := s.work[id := Mapping(a.ps, a.k + 1)])
    case ReadFile(id) =>
      && id in s.work && s.work[id].Reading? && s.work[id].k < |s.work[id].files|
      && var a := s.work[id];
         && a.files[a.k] in s.fs && None !in Parse(s.fs[a.files[a.k]])
         && s' == s.(work := s.work[id := Reading(a.files, a.k + 1, AddPairs(a.m, Strip(Parse(s.fs[a.files[a.k]]))))])
    case StartWriting(id, keys) =>
      && id in s.work && s.work[id].Reading? && s.work[id].k == |s.work[id].files| > 0
      && NoDup(keys) && (forall k :: k in keys <==> k in s.work[id].m)
      && s' == s.(work := s.work[id := Writing(BucketOf(s.work[id].files[0]), keys, 0, s.work[id].m)])
    case WriteLine(id) =>
      && id in s.work && s.work[id].Writing? && s.work[id].k < |s.work[id].keys|
      && var a := s.work[id];
         s' == s.(fs := Work.WriteLine(job, s.fs, a.b, a.keys[a.k], ValuesFor(a.m, a.keys[a.k])),
                  work := s.work[id := Writing(a.b, a.keys, a.k + 1, a.m)])
    case TaskDone(id, created, outs, order) =>
      && id in s.work && Ready(job, id, s.work[id], created)
      && var (fs', ok) := Filed(s.fs, IsLate(s, id), created);
         && E.Step(s.m, E.TaskDone(id, ok, outs, order), s'.m)
         && (LastMap(s, id, ok) ==> Lists(fs', outs))
         && s' == s.(m := s'.m, fs := fs', work := s.work - {id},
                     outs := if LastMap(s, id, ok) then outs else s.outs,
                     order := if LastMap(s, id, ok) then order else s.order)
    case Done(clock) =>
      && E.Step(s.m, E.Done(clock), s'.m)
      && s' == s.(m := s'.m, done := Finished(s'.m.c), fs := if Finished(s'.m.c) then WithoutMapOuts(s.fs) else s.fs)
    case Heartbeat(w) => s' == s.(m := s'.m) && E.Step(s.m, E.Heartbeat(w), s'.m)
  }

  /** At the start the directory holds the inputs and none of the job's own files. */
  ghost predicate Init(job: Job, s: Sys, inputs: seq<string>)
  {
    && E.Init(s.m, inputs, job.nReduce) && s.work == map[] && s.outs == [] && s.order == [] && !s.done
    && (forall n :: n in s.fs ==> n.Input?)
    && forall i :: 0 <= i < |inputs| ==> Input(inputs[i]) in s.fs
  }

  ghost predicate StepAt(job: Job, ss: seq<Sys>, ls: seq<Label>, t: nat)
  {
    t < |ls| && t + 1 < |ss| && Step(job, ss[t], ls[t], ss[t + 1])
  }

  ghost predicate Run(job: Job, ss: seq<Sys>, ls: seq<Label>, inputs: seq<string>)
  {
    && |ss| == |ls| + 1 && Init(job, ss[0], inputs)
    && forall t: nat :: t < |ls| ==> StepAt(job, ss, ls, t)
  }

  // ---- What the coordinator's own invariant gives ----

  /** The bookkeeping invariant, the workers that have not reported, and what the reduce tasks are made of. */
  ghost predicate Books(s: Sys, inputs: seq<string>)
  {
    && E.Inv(s.m, inputs) && s.work.Keys == s.m.running
    && s.m.parts == Groups(s.outs, s.order) && IsOrder(s.outs, s.order)
  }

  lemma BooksInit(job: Job, s: Sys, inputs: seq<string>)
    requires Init(job, s, inputs)
    ensures Books(s, inputs)
  {
    E.InvInit(s.m, inputs, job.nReduce);
  }

  /** Steps of the workers leave the coordinator alone. */
  ghost predicate WorkerStep(l: Label) { l.WritePair? || l.ReadFile? || l.StartWriting? || l.WriteLine? }

  /** The coordinator's step in a step of the whole. */
  ghost function OfCoordinator(s: Sys, l: Label): E.Label
  {
    match l
    case GetTask(w, now) => E.GetTask(w, now)
    case TaskDone(id, created, outs, order) => E.TaskDone(id, Filed(s.fs, IsLate(s, id), created).1, outs, order)
    case Done(clock) => E.Done(clock)
    case Heartbeat(w) => E.Heartbeat(w)
    case _ => E.Register
  }

  lemma CoordinatorStep(job: Job, s: Sys, l: Label, s': Sys)
    requires Step(job, s, l, s')
    ensures if WorkerStep(l) then s'.m == s.m else E.Step(s.m, OfCoordinator(s, l), s'.m)
  {
  }

  lemma RunningStep(job: Job, s: Sys, l: Label, s': Sys, inputs: seq<string>)
    requires Step(job, s, l, s') && E.HandedOut(s.m) && s.work.Keys == s.m.running
    ensures s'.work.Keys == s'.m.running
  {
    E.FirstIdleIs(s.m.c.tasks, 0);
  }

  lemma PartsStep(job: Job, s: Sys, l: Label, s': Sys)
    requires Step(job, s, l, s') && s.m.parts == Groups(s.outs, s.order) && IsOrder(s.outs, s.order)
    ensures s'.m.parts == Groups(s'.outs, s'.order) && IsOrder(s'.outs, s'.order)
  {
  }

  lemma BooksStep(job: Job, s: Sys, l: Label, s': Sys, inputs: seq<string>)
    requires Step(job, s, l, s') && Books(s, inputs)
    ensures Books(s', inputs)
  {
    CoordinatorStep(job, s, l, s');
    if !WorkerStep(l) { E.InvStep(s.m, OfCoordinator(s, l), s'.m, inputs); }
    RunningStep(job, s, l, s', inputs);
    PartsStep(job, s, l, s');
  }
}
