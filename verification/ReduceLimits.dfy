/** Why the equivalence theorem excludes reduce timeouts: the temporary output of a reduce task is named after
    its bucket alone, so an attempt that has timed out and its replacement append to the same file. For every
    job with one pair there is a run in which this doubles the output. */
module ReduceLimits {
  import opened Rpc
  import opened Bags
  import opened Wire
  import opened Names
  import opened Files
  import opened Coordination
  import opened Work
  import opened Sequential
  import E = ExactlyOnce
  import opened Cluster
  import opened ReduceSide
  import opened SameOutput

  /** The application makes one clean pair of anything. */
  ghost predicate OnePairJob(job: Job, p: KeyValue)
  {
    Clean(p) && forall file, contents :: job.mapf(file, contents) == [p]
  }

  /** The parameters of the run: the job, its pair, its bucket and the input. */
  datatype Case = Case(job: Job, p: KeyValue, b: nat, input: string)

  ghost predicate CaseOk(x: Case) { OnePairJob(x.job, x.p) && x.b == Bucket(x.job, x.p.key) }

  ghost function Files0(x: Case): seq<Name> { [MapOut(0, x.b)] }

  ghost function Grouped(x: Case): Grouping { map[x.p.key := [x.p.value]] }

  ghost function Line0(x: Case): string { OutLine(x.job, x.p.key, [x.p.value]) }

  ghost function Fs0(x: Case): Fs { map[Input(x.input) := ""] }

  ghost function MapEntry(x: Case, status: Status): Task { MapTask(x.input).(status := status) }

  ghost function ReduceEntry(x: Case, status: Status, start: int): Task { Task(Files0(x), status, start, Reduce) }

  /** While the map task is not done. */
  ghost function Early(x: Case, status: Status, workers: seq<Worker>, given: set<nat>, fs: Fs, work: map<nat, Attempt>): Sys
  {
    Sys(E.Machine(Coord([MapEntry(x, status)], workers, 1, 0, MapPhase, x.job.nReduce), given, given, 0, 0, []), fs, work, [], [], false)
  }

  /** Afterwards; `out` is what the temporary output holds. */
  ghost function Later(x: Case, reduces: seq<Task>, w: nat, given: set<nat>, running: set<nat>, out: string, work: map<nat, Attempt>): Sys
  {
    var fs := Fs0(x)[MapOut(0, x.b) := Enc(x.p)];
    Sys(E.Machine(Coord([MapEntry(x, Completed)] + reduces, [Worker(w, true)], 0, 1, ReducePhase, x.job.nReduce),
                  given, running, 0, 0, [Files0(x)]),
        if out == "" then fs else fs[TempReduce(x.b) := out], work, Files0(x), [x.b], false)
  }

  ghost function Ending(x: Case, up: bool, done: bool): Sys
  {
    var fs := Fs0(x)[ReduceOut(x.b) := Line0(x) + Line0(x)];
    var tasks := [MapEntry(x, Completed), ReduceEntry(x, TimedOut, 0), ReduceEntry(x, Completed, 11)];
    Sys(E.Machine(Coord(tasks, [Worker(2, up)], 0, 0, ShutdownPhase, x.job.nReduce), {0, 1, 2}, {1}, 0, 0, [Files0(x)]),
        if done then fs else fs[MapOut(0, x.b) := Enc(x.p)], map[1 := Late(x)], Files0(x), [x.b], done)
  }

  ghost function Fresh0(x: Case): Attempt { Reading(Files0(x), 0, map[]) }

  ghost function Late(x: Case): Attempt { Writing(x.b, [x.p.key], 1, Grouped(x)) }

  // ---- Facts about the one pair ----

  lemma PairRead(x: Case)
    requires CaseOk(x)
    ensures Parse(Enc(x.p)) == [Some(x.p)] && AddPairs(map[], Strip(Parse(Enc(x.p)))) == Grouped(x)
  {
    assert [x.p][..0] == [];
    FlatOne(Enc, [], x.p);
    assert [] + [x.p] == [x.p] && Flat(Enc, []) + Enc(x.p) == Enc(x.p);
    RoundTrip([x.p]);
    assert Read([x.p]) == [Some(x.p)];
    OnePair(map[], x.p);
    assert [] + [x.p.value] == [x.p.value];
  }

  lemma PairSelected(x: Case, b: nat)
    requires CaseOk(x)
    ensures Selected(x.job, [x.p], b) == if b == x.b then [x.p] else []
  {
    assert [x.p][..0] == [];
  }

  lemma PairMapped(x: Case, fs: Fs)
    requires CaseOk(x)
    ensures Mapped(x.job, fs, [Input(x.input)]) == [x.p]
  {
    assert [Input(x.input)][..0] == [];
    assert Mapped(x.job, fs, []) + [x.p] == [x.p];
  }

  lemma BucketOrder(x: Case)
    ensures IsOrder(Files0(x), [x.b]) && Groups(Files0(x), [x.b]) == [Files0(x)]
    ensures ReduceTasks(Files0(x), [x.b]) == [ReduceEntry(x, Idle, 0)]
  {
    var files := Files0(x);
    assert files[..0] == [];
    assert InBucket(files, x.b) == files;
    assert forall b: nat :: b != x.b ==> InBucket(files, b) == [];
  }

  // ---- The steps ----

  lemma Registers(x: Case)
    ensures Step(x.job, Early(x, Idle, [], {}, Fs0(x), map[]), Register, Early(x, Idle, [Worker(0, true)], {}, Fs0(x), map[]))
  {
  }

  lemma TakesMap(x: Case)
    requires CaseOk(x)
    ensures Step(x.job, Early(x, Idle, [Worker(0, true)], {}, Fs0(x), map[]), GetTask(0, 0),
                 Early(x, InProgress, [Worker(0, true)], {0}, Fs0(x), map[0 := Mapping([x.p], 0)]))
  {
    var s := Early(x, Idle, [Worker(0, true)], {}, Fs0(x), map[]);
    PairMapped(x, s.fs);
    assert FirstIdle(s.m.c.tasks, 0) == Some(0);
    assert s.m.c.tasks[0 := MapEntry(x, InProgress)] == [MapEntry(x, InProgress)];
  }

  lemma WritesPair(x: Case)
    requires CaseOk(x)
    ensures Step(x.job, Early(x, InProgress, [Worker(0, true)], {0}, Fs0(x), map[0 := Mapping([x.p], 0)]), WritePair(0),
                 Early(x, InProgress, [Worker(0, true)], {0}, Fs0(x)[TempMap(0, x.b) := Enc(x.p)], map[0 := Mapping([x.p], 1)]))
  {
    assert "" + Enc(x.p) == Enc(x.p);
  }

  lemma ReportsMap(x: Case)
    requires CaseOk(x)
    ensures Step(x.job, Early(x, InProgress, [Worker(0, true)], {0}, Fs0(x)[TempMap(0, x.b) := Enc(x.p)], map[0 := Mapping([x.p], 1)]),
                 TaskDone(0, [TempMap(0, x.b)], Files0(x), [x.b]),
                 Later(x, [ReduceEntry(x, Idle, 0)], 0, {0}, {}, "", map[]))
  {
    var s := Early(x, InProgress, [Worker(0, true)], {0}, Fs0(x)[TempMap(0, x.b) := Enc(x.p)], map[0 := Mapping([x.p], 1)]);
    var s' := Later(x, [ReduceEntry(x, Idle, 0)], 0, {0}, {}, "", map[]);
    var created := [TempMap(0, x.b)];
    forall n ensures n in created <==> IsCreated(x.job, 0, [x.p], n) { if n.TempMap? { PairSelected(x, n.bucket); } }
    FiledOne0(s.fs, TempMap(0, x.b));
    assert Moved(s.fs, TempMap(0, x.b)) == s'.fs;
    BucketOrder(x);
    assert s.m.running - {0} == {} && s.work - {0} == map[];
    assert s.m.c.tasks[0 := MapEntry(x, Completed)] == [MapEntry(x, Completed)];
    assert Lists(s'.fs, Files0(x));
  }

  lemma FiledOne0(fs: Fs, n: Name)
    requires n in fs
    ensures RenameAll(fs, [n]) == (Moved(fs, n), true)
  {
    assert [n][1..] == [];
    assert RenameAll(Moved(fs, n), []) == (Moved(fs, n), true);
  }

  /** A worker takes the reduce task that is idle, the last entry. */
  lemma TakesReduce(x: Case, before: seq<Task>, w: nat, given: set<nat>, running: set<nat>, out: string, work: map<nat, Attempt>, now: int)
    requires |before| <= 1 && forall i :: 0 <= i < |before| ==> before[i].status == TimedOut
    ensures var id := |before| + 1;
            Step(x.job, Later(x, before + [ReduceEntry(x, Idle, 0)], w, given, running, out, work), GetTask(0, now),
                 Later(x, before + [ReduceEntry(x, InProgress, now)], id, given + {id}, running + {id}, out, work[id := Fresh0(x)]))
  {
    var s, id := Later(x, before + [ReduceEntry(x, Idle, 0)], w, given, running, out, work), |before| + 1;
    var tasks := s.m.c.tasks;
    assert tasks[id] == ReduceEntry(x, Idle, 0) && tasks[0] == MapEntry(x, Completed);
    assert |before| == 1 ==> tasks[1] == before[0];
    assert FirstIdle(tasks, id) == Some(id);
    assert FirstIdle(tasks, 1) == Some(id);
    assert FirstIdle(tasks, 0) == Some(id);
    assert tasks[id := ReduceEntry(x, InProgress, now)] == [MapEntry(x, Completed)] + (before + [ReduceEntry(x, InProgress, now)]);
  }

  /** The worker on task `id` reads, and starts to write. */
  lemma ReadsFile(x: Case, reduces: seq<Task>, given: set<nat>, running: set<nat>, out: string, work: map<nat, Attempt>, id: nat)
    requires CaseOk(x) && id in work && work[id] == Fresh0(x)
    ensures Step(x.job, Later(x, reduces, id, given, running, out, work), ReadFile(id),
                 Later(x, reduces, id, given, running, out, work[id := Reading(Files0(x), 1, Grouped(x))]))
  {
    PairRead(x);
  }

  lemma StartsWriting(x: Case, reduces: seq<Task>, given: set<nat>, running: set<nat>, out: string, work: map<nat, Attempt>, id: nat)
    requires id in work && work[id] == Reading(Files0(x), 1, Grouped(x))
    ensures Step(x.job, Later(x, reduces, id, given, running, out, work), StartWriting(id, [x.p.key]),
                 Later(x, reduces, id, given, running, out, work[id := Writing(x.b, [x.p.key], 0, Grouped(x))]))
  {
  }

  lemma WritesLine(x: Case, reduces: seq<Task>, given: set<nat>, running: set<nat>, out: string, work: map<nat, Attempt>, id: nat)
    requires id in work && work[id] == Writing(x.b, [x.p.key], 0, Grouped(x))
    ensures Step(x.job, Later(x, reduces, id, given, running, out, work), WriteLine(id),
                 Later(x, reduces, id, given, running, out + Line0(x), work[id := Late(x)]))
  {
    assert "" + Line0(x) == Line0(x) && out + Line0(x) != "";
    var s := Later(x, reduces, id, given, running, out, work);
    assert s.fs[TempReduce(x.b) := out + Line0(x)] == Later(x, reduces, id, given, running, out + Line0(x), work[id := Late(x)]).fs;
  }

  ghost function Clock(): nat -> int { (i: nat) => 11 }

  lemma TimesOut(x: Case)
    ensures Step(x.job, Later(x, [ReduceEntry(x, InProgress, 0)], 1, {0, 1}, {1}, Line0(x), map[1 := Late(x)]), Done(Clock()),
                 Later(x, [ReduceEntry(x, TimedOut, 0), ReduceEntry(x, Idle, 0)], 1, {0, 1}, {1}, Line0(x), map[1 := Late(x)]))
  {
    var tasks := [MapEntry(x, Completed), ReduceEntry(x, InProgress, 0)];
    FirstExpires(x, tasks);
    var s := Later(x, [ReduceEntry(x, InProgress, 0)], 1, {0, 1}, {1}, Line0(x), map[1 := Late(x)]);
    assert s.m.c.tasks == tasks;
    var s' := Later(x, [ReduceEntry(x, TimedOut, 0), ReduceEntry(x, Idle, 0)], 1, {0, 1}, {1}, Line0(x), map[1 := Late(x)]);
    assert s'.m.c.tasks == Marked(tasks, Clock()) + Fresh(tasks, Clock());
    assert Open(s'.m.c.tasks[2]);
  }

  lemma FirstExpires(x: Case, tasks: seq<Task>)
    requires tasks == [MapEntry(x, Completed), ReduceEntry(x, InProgress, 0)]
    ensures Marked(tasks, Clock()) == [MapEntry(x, Completed), ReduceEntry(x, TimedOut, 0)]
    ensures Fresh(tasks, Clock()) == [ReduceEntry(x, Idle, 0)]
  {
    assert Mark(tasks[0], Clock()(0)) == MapEntry(x, Completed) && Mark(tasks[1], Clock()(1)) == ReduceEntry(x, TimedOut, 0);
    assert Marked(tasks, Clock()) == [MapEntry(x, Completed), ReduceEntry(x, TimedOut, 0)];
    assert tasks[..1] == [MapEntry(x, Completed)] && tasks[..1][..0] == [];
    assert Fresh(tasks[..1], Clock()) == [];
  }

  /** Before the report of the second attempt. */
  ghost function BeforeReport(x: Case): Sys
  {
    Later(x, [ReduceEntry(x, TimedOut, 0), ReduceEntry(x, InProgress, 11)], 2, {0, 1, 2}, {1, 2},
          Line0(x) + Line0(x), map[1 := Late(x), 2 := Late(x)])
  }

  lemma OutputMoved(x: Case)
    ensures RenameAll(BeforeReport(x).fs, [TempReduce(x.b)]) == (Ending(x, true, false).fs, true)
  {
    var fs := BeforeReport(x).fs;
    assert TempReduce(x.b) in fs;
    FiledOne0(fs, TempReduce(x.b));
    assert Moved(fs, TempReduce(x.b)) == Ending(x, true, false).fs;
  }

  lemma SecondCompleted(x: Case)
    ensures E.Step(BeforeReport(x).m, E.TaskDone(2, true, [], []), Ending(x, true, false).m)
  {
    var m := BeforeReport(x).m;
    assert m.running - {2} == {1} && IsOrder([], []);
    assert m.c.tasks[2 := ReduceEntry(x, Completed, 11)] == Ending(x, true, false).m.c.tasks;
  }

  lemma ReportsReduce(x: Case)
    ensures Step(x.job, BeforeReport(x), TaskDone(2, [TempReduce(x.b)], [], []), Ending(x, true, false))
  {
    OutputMoved(x);
    SecondCompleted(x);
    assert BeforeReport(x).work - {2} == map[1 := Late(x)];
  }

  lemma ShutsDown(x: Case)
    ensures Step(x.job, Ending(x, true, false), Heartbeat(0), Ending(x, false, false))
  {
  }

  lemma Finishes(x: Case)
    ensures Step(x.job, Ending(x, false, false), Done(Clock()), Ending(x, false, true))
  {
    var s := Ending(x, false, false);
    var tasks := s.m.c.tasks;
    assert Marked(tasks, Clock()) == tasks;
    assert tasks[..2][..1][..0] == [];
    assert Fresh(tasks[..2][..1], Clock()) == [];
    assert Fresh(tasks[..2], Clock()) == [];
    assert Fresh(tasks, Clock()) == [];
    assert tasks + [] == tasks;
    assert WithoutMapOuts(s.fs) == Ending(x, false, true).fs;
  }

  // ---- The run ----

  /** A run that has come to state `s`. */
  ghost predicate Reaches(x: Case, ss: seq<Sys>, ls: seq<Label>, s: Sys)
  {
    Run(x.job, ss, ls, [x.input]) && ss[|ls|] == s && ss[0].fs == Fs0(x)
  }

  lemma Extend(x: Case, ss: seq<Sys>, ls: seq<Label>, s: Sys, l: Label, s': Sys)
    requires Reaches(x, ss, ls, s) && Step(x.job, s, l, s')
    ensures Reaches(x, ss + [s'], ls + [l], s')
  {
    var ss', ls' := ss + [s'], ls + [l];
    forall t: nat | t < |ls'| ensures StepAt(x.job, ss', ls', t) {
      if t < |ls| { assert StepAt(x.job, ss, ls, t); }
    }
  }

  /** The first attempt, from the report of the map task to the timeout. */
  ghost function First(x: Case, out: string, a: Attempt): Sys
  {
    Later(x, [] + [ReduceEntry(x, InProgress, 0)], 1, {0} + {1}, {} + {1}, out, map[1 := a])
  }

  /** The second, beside it. */
  ghost function Second(x: Case, out: string, a: Attempt): Sys
  {
    Later(x, [ReduceEntry(x, TimedOut, 0)] + [ReduceEntry(x, InProgress, 11)], 2, {0, 1} + {2}, {1} + {2}, out, map[1 := Late(x), 2 := a])
  }

  lemma Begins(x: Case) returns (ss: seq<Sys>, ls: seq<Label>)
    ensures Reaches(x, ss, ls, Early(x, Idle, [], {}, Fs0(x), map[]))
  {
    ss, ls := [Early(x, Idle, [], {}, Fs0(x), map[])], [];
    assert MapTasks([x.input]) == [MapEntry(x, Idle)];
  }

  lemma RunToWritten(x: Case) returns (ss: seq<Sys>, ls: seq<Label>)
    requires CaseOk(x)
    ensures Reaches(x, ss, ls, Early(x, InProgress, [Worker(0, true)], {0}, Fs0(x), map[0 := Mapping([x.p], 0)]))
  {
    var w := [Worker(0, true)];
    ss, ls := Begins(x);
    Registers(x);
    Extend(x, ss, ls, Early(x, Idle, [], {}, Fs0(x), map[]), Register, Early(x, Idle, w, {}, Fs0(x), map[]));
    ss, ls := ss + [Early(x, Idle, w, {}, Fs0(x), map[])], ls + [Register];
    TakesMap(x);
    Extend(x, ss, ls, Early(x, Idle, w, {}, Fs0(x), map[]), GetTask(0, 0), Early(x, InProgress, w, {0}, Fs0(x), map[0 := Mapping([x.p], 0)]));
    ss, ls := ss + [Early(x, InProgress, w, {0}, Fs0(x), map[0 := Mapping([x.p], 0)])], ls + [GetTask(0, 0)];
  }

  lemma RunToMapped(x: Case) returns (ss: seq<Sys>, ls: seq<Label>)
    requires CaseOk(x)
    ensures Reaches(x, ss, ls, Later(x, [ReduceEntry(x, Idle, 0)], 0, {0}, {}, "", map[]))
  {
    var w := [Worker(0, true)];
    var s2 := Early(x, InProgress, w, {0}, Fs0(x), map[0 := Mapping([x.p], 0)]);
    var s3 := Early(x, InProgress, w, {0}, Fs0(x)[TempMap(0, x.b) := Enc(x.p)], map[0 := Mapping([x.p], 1)]);
    var s4 := Later(x, [ReduceEntry(x, Idle, 0)], 0, {0}, {}, "", map[]);
    ss, ls := RunToWritten(x);
    WritesPair(x);
    Extend(x, ss, ls, s2, WritePair(0), s3);
    ss, ls := ss + [s3], ls + [WritePair(0)];
    ReportsMap(x);
    Extend(x, ss, ls, s3, TaskDone(0, [TempMap(0, x.b)], Files0(x), [x.b]), s4);
    ss, ls := ss + [s4], ls + [TaskDone(0, [TempMap(0, x.b)], Files0(x), [x.b])];
  }

  /** An attempt goes from taking its task to being about to write. */
  lemma Reads(x: Case, reduces: seq<Task>, given: set<nat>, running: set<nat>, out: string, work: map<nat, Attempt>, id: nat,
              ss0: seq<Sys>, ls0: seq<Label>) returns (ss: seq<Sys>, ls: seq<Label>)
    requires CaseOk(x) && Reaches(x, ss0, ls0, Later(x, reduces, id, given, running, out, work)) && id in work && work[id] == Fresh0(x)
    ensures Reaches(x, ss, ls, Later(x, reduces, id, given, running, out, work[id := Reading(Files0(x), 1, Grouped(x))]))
  {
    var s1 := Later(x, reduces, id, given, running, out, work[id := Reading(Files0(x), 1, Grouped(x))]);
    ReadsFile(x, reduces, given, running, out, work, id);
    Extend(x, ss0, ls0, Later(x, reduces, id, given, running, out, work), ReadFile(id), s1);
    ss, ls := ss0 + [s1], ls0 + [ReadFile(id)];
  }

  lemma StartsNow(x: Case, reduces: seq<Task>, given: set<nat>, running: set<nat>, out: string, work: map<nat, Attempt>, id: nat,
                  ss0: seq<Sys>, ls0: seq<Label>) returns (ss: seq<Sys>, ls: seq<Label>)
    requires Reaches(x, ss0, ls0, Later(x, reduces, id, given, running, out, work)) && id in work
    requires work[id] == Reading(Files0(x), 1, Grouped(x))
    ensures Reaches(x, ss, ls, Later(x, reduces, id, given, running, out, work[id := Writing(x.b, [x.p.key], 0, Grouped(x))]))
  {
    var s' := Later(x, reduces, id, given, running, out, work[id := Writing(x.b, [x.p.key], 0, Grouped(x))]);
    StartsWriting(x, reduces, given, running, out, work, id);
    Extend(x, ss0, ls0, Later(x, reduces, id, given, running, out, work), StartWriting(id, [x.p.key]), s');
    ss, ls := ss0 + [s'], ls0 + [StartWriting(id, [x.p.key])];
  }

  /** An attempt goes from taking its task to having written its line. */
  lemma Works(x: Case, reduces: seq<Task>, given: set<nat>, running: set<nat>, out: string, work: map<nat, Attempt>, id: nat,
              ss0: seq<Sys>, ls0: seq<Label>) returns (ss: seq<Sys>, ls: seq<Label>)
    requires CaseOk(x) && Reaches(x, ss0, ls0, Later(x, reduces, id, given, running, out, work)) && id in work && work[id] == Fresh0(x)
    ensures Reaches(x, ss, ls, Later(x, reduces, id, given, running, out + Line0(x), work[id := Late(x)]))
  {
    var work1 := work[id := Reading(Files0(x), 1, Grouped(x))];
    var work2 := work1[id := Writing(x.b, [x.p.key], 0, Grouped(x))];
    ss, ls := Reads(x, reduces, given, running, out, work, id, ss0, ls0);
    ss, ls := StartsNow(x, reduces, given, running, out, work1, id, ss, ls);
    ss, ls := WritesNow(x, reduces, given, running, out, work2, id, ss, ls);
    assert work2[id := Late(x)] == work[id := Late(x)];
  }

  lemma WritesNow(x: Case, reduces: seq<Task>, given: set<nat>, running: set<nat>, out: string, work: map<nat, Attempt>, id: nat,
                  ss0: seq<Sys>, ls0: seq<Label>) returns (ss: seq<Sys>, ls: seq<Label>)
    requires Reaches(x, ss0, ls0, Later(x, reduces, id, given, running, out, work)) && id in work
    requires work[id] == Writing(x.b, [x.p.key], 0, Grouped(x))
    ensures Reaches(x, ss, ls, Later(x, reduces, id, given, running, out + Line0(x), work[id := Late(x)]))
  {
    WritesLine(x, reduces, given, running, out, work, id);
    var s' := Later(x, reduces, id, given, running, out + Line0(x), work[id := Late(x)]);
    Extend(x, ss0, ls0, Later(x, reduces, id, given, running, out, work), WriteLine(id), s');
    ss, ls := ss0 + [s'], ls0 + [WriteLine(id)];
  }

  lemma FirstTakes(x: Case)
    ensures Step(x.job, Later(x, [ReduceEntry(x, Idle, 0)], 0, {0}, {}, "", map[]), GetTask(0, 0), First(x, "", Fresh0(x)))
  {
    TakesReduce(x, [], 0, {0}, {}, "", map[], 0);
    assert [] + [ReduceEntry(x, Idle, 0)] == [ReduceEntry(x, Idle, 0)];
    assert map[][1 := Fresh0(x)] == map[1 := Fresh0(x)];
  }

  lemma FirstTimesOut(x: Case)
    ensures Step(x.job, First(x, Line0(x), Late(x)), Done(Clock()),
                 Later(x, [ReduceEntry(x, TimedOut, 0), ReduceEntry(x, Idle, 0)], 1, {0, 1}, {1}, Line0(x), map[1 := Late(x)]))
  {
    TimesOut(x);
    assert {0} + {1} == {0, 1} && {} + {1} == {1} && [] + [ReduceEntry(x, InProgress, 0)] == [ReduceEntry(x, InProgress, 0)];
  }

  lemma SecondTakes(x: Case)
    ensures Step(x.job, Later(x, [ReduceEntry(x, TimedOut, 0), ReduceEntry(x, Idle, 0)], 1, {0, 1}, {1}, Line0(x), map[1 := Late(x)]),
                 GetTask(0, 11), Second(x, Line0(x), Fresh0(x)))
  {
    var before := [ReduceEntry(x, TimedOut, 0)];
    TakesReduce(x, before, 1, {0, 1}, {1}, Line0(x), map[1 := Late(x)], 11);
    assert before + [ReduceEntry(x, Idle, 0)] == [ReduceEntry(x, TimedOut, 0), ReduceEntry(x, Idle, 0)];
    assert map[1 := Late(x)][2 := Fresh0(x)] == map[1 := Late(x), 2 := Fresh0(x)];
  }

  lemma SecondReports(x: Case)
    ensures Step(x.job, Second(x, Line0(x) + Line0(x), Late(x)), TaskDone(2, [TempReduce(x.b)], [], []), Ending(x, true, false))
  {
    ReportsReduce(x);
    assert {0, 1} + {2} == {0, 1, 2} && {1} + {2} == {1, 2};
    assert [ReduceEntry(x, TimedOut, 0)] + [ReduceEntry(x, InProgress, 11)] == [ReduceEntry(x, TimedOut, 0), ReduceEntry(x, InProgress, 11)];
  }

  lemma RunToTimeout(x: Case) returns (ss: seq<Sys>, ls: seq<Label>)
    requires CaseOk(x)
    ensures Reaches(x, ss, ls, Later(x, [ReduceEntry(x, TimedOut, 0), ReduceEntry(x, Idle, 0)], 1, {0, 1}, {1}, Line0(x), map[1 := Late(x)]))
  {
    ss, ls := RunToMapped(x);
    FirstTakes(x);
    Extend(x, ss, ls, Later(x, [ReduceEntry(x, Idle, 0)], 0, {0}, {}, "", map[]), GetTask(0, 0), First(x, "", Fresh0(x)));
    ss, ls := ss + [First(x, "", Fresh0(x))], ls + [GetTask(0, 0)];
    ss, ls := Works(x, [] + [ReduceEntry(x, InProgress, 0)], {0} + {1}, {} + {1}, "", map[1 := Fresh0(x)], 1, ss, ls);
    assert map[1 := Fresh0(x)][1 := Late(x)] == map[1 := Late(x)] && "" + Line0(x) == Line0(x);
    FirstTimesOut(x);
    var s' := Later(x, [ReduceEntry(x, TimedOut, 0), ReduceEntry(x, Idle, 0)], 1, {0, 1}, {1}, Line0(x), map[1 := Late(x)]);
    Extend(x, ss, ls, First(x, Line0(x), Late(x)), Done(Clock()), s');
    ss, ls := ss + [s'], ls + [Done(Clock())];
  }

  lemma RunToDoubled(x: Case) returns (ss: seq<Sys>, ls: seq<Label>)
    requires CaseOk(x)
    ensures Reaches(x, ss, ls, Second(x, Line0(x) + Line0(x), Late(x)))
  {
    ss, ls := RunToTimeout(x);
    SecondTakes(x);
    var s := Later(x, [ReduceEntry(x, TimedOut, 0), ReduceEntry(x, Idle, 0)], 1, {0, 1}, {1}, Line0(x), map[1 := Late(x)]);
    Extend(x, ss, ls, s, GetTask(0, 11), Second(x, Line0(x), Fresh0(x)));
    ss, ls := ss + [Second(x, Line0(x), Fresh0(x))], ls + [GetTask(0, 11)];
    var work := map[1 := Late(x), 2 := Fresh0(x)];
    ss, ls := Works(x, [ReduceEntry(x, TimedOut, 0)] + [ReduceEntry(x, InProgress, 11)], {0, 1} + {2}, {1} + {2}, Line0(x), work, 2, ss, ls);
    assert work[2 := Late(x)] == map[1 := Late(x), 2 := Late(x)];
  }

  lemma RunToEnd(x: Case) returns (ss: seq<Sys>, ls: seq<Label>)
    requires CaseOk(x)
    ensures Reaches(x, ss, ls, Ending(x, false, true))
  {
    ss, ls := RunToDoubled(x);
    var report := TaskDone(2, [TempReduce(x.b)], [], []);
    SecondReports(x);
    Extend(x, ss, ls, Second(x, Line0(x) + Line0(x), Late(x)), report, Ending(x, true, false));
    ss, ls := ss + [Ending(x, true, false)], ls + [report];
    ShutsDown(x);
    Extend(x, ss, ls, Ending(x, true, false), Heartbeat(0), Ending(x, false, false));
    ss, ls := ss + [Ending(x, false, false)], ls + [Heartbeat(0)];
    Finishes(x);
    Extend(x, ss, ls, Ending(x, false, false), Done(Clock()), Ending(x, false, true));
    ss, ls := ss + [Ending(x, false, true)], ls + [Done(Clock())];
  }

  // ---- The outputs ----

  lemma {:induction false} OneFile(x: Case, fs: Fs, n: nat)
    requires forall b: nat :: b != x.b ==> ReduceOut(b) !in fs
    ensures OutputLines(fs, n) == if x.b < n then multiset(FullLines(Content(fs, ReduceOut(x.b)))) else multiset{}
  {
    if n > 0 {
      OneFile(x, fs, n - 1);
      NoLines();
    }
  }

  lemma OneLine(x: Case)
    requires CaseOk(x)
    ensures IsOutput(x.job, [x.p], [x.p], Line0(x))
  {
    assert RunLength([x.p]) == 1;
    assert [x.p][..1] == [x.p] && [x.p][1..] == [] && Values([x.p]) == [x.p.value];
    GroupNext(x.job, [x.p]);
    assert Line0(x) + "" == Line0(x);
  }

  /** With a reduce timeout the job may write every line twice. */
  lemma TimeoutDoubles(job: Job, p: KeyValue, input: string) returns (ss: seq<Sys>, ls: seq<Label>, text: string)
    requires OnePairJob(job, p)
    ensures Run(job, ss, ls, [input]) && ss[|ls|].done && !NoReduceTimeout(ss[|ls|])
    ensures IsOutput(job, Mapped(job, ss[0].fs, Inputs([input])), [p], text) && FullLines(text) != []
    ensures OutputLines(ss[|ls|].fs, job.nReduce) == multiset(FullLines(text)) + multiset(FullLines(text))
  {
    var x := Case(job, p, Bucket(job, p.key), input);
    ss, ls := RunToEnd(x);
    text := Line0(x);
    OneOutput(x);
    HasTimedOut(x);
    Doubled(x);
  }

  lemma OneOutput(x: Case)
    requires CaseOk(x)
    ensures IsOutput(x.job, Mapped(x.job, Fs0(x), Inputs([x.input])), [x.p], Line0(x))
  {
    assert Inputs([x.input]) == [Input(x.input)];
    PairMapped(x, Fs0(x));
    OneLine(x);
  }

  lemma HasTimedOut(x: Case)
    ensures Ending(x, false, true).done && !NoReduceTimeout(Ending(x, false, true))
  {
    assert Ending(x, false, true).m.c.tasks[1] == ReduceEntry(x, TimedOut, 0);
  }

  lemma Doubled(x: Case)
    requires CaseOk(x)
    ensures FullLines(Line0(x)) != []
    ensures OutputLines(Ending(x, false, true).fs, x.job.nReduce) == multiset(FullLines(Line0(x))) + multiset(FullLines(Line0(x)))
  {
    var front := x.p.key + " " + x.job.reducef(x.p.key, [x.p.value]);
    assert Line0(x) == front + NL;
    LinesOf(front);
    LinesAdd(Line0(x), Line0(x));
    OneFile(x, Ending(x, false, true).fs, x.job.nReduce);
  }
}
