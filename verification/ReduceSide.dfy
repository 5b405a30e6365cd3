/** The output files in every reachable state, as long as no reduce task has timed out: each bucket's output
    is written by one worker, from all the pairs of the bucket, and is complete once it has its final name. */
module ReduceSide {
  import opened Rpc
  import opened Bags
  import opened Wire
  import opened Names
  import opened Files
  import opened Coordination
  import opened Work
  import opened Sequential
  import E = ExactlyOnce
  import opened Cluster
  import opened MapSide

  /** The pairs in an intermediate file. */
  ghost function FilePairs(job: Job, fs0: Fs, tasks: seq<Task>, n: Name): seq<KeyValue>
  {
    if n.MapOut? && n.task < |tasks| then Selected(job, PairsOf(job, fs0, tasks[n.task]), n.bucket) else []
  }

  ghost function GroupPairs(job: Job, fs0: Fs, tasks: seq<Task>, files: seq<Name>): seq<KeyValue>
  {
    if files == [] then [] else
    GroupPairs(job, fs0, tasks, files[..|files| - 1]) + FilePairs(job, fs0, tasks, files[|files| - 1])
  }

  /** A finished intermediate file. */
  ghost predicate IsOut(job: Job, fs0: Fs, tasks: seq<Task>, n: Name)
  {
    && n.MapOut? && n.task < |tasks| && tasks[n.task].kind == Map && tasks[n.task].status == Completed
    && FilePairs(job, fs0, tasks, n) != []
  }

  /** The list that the reduce tasks were made from names exactly the finished files. */
  ghost predicate OutsOk(job: Job, fs0: Fs, s: Sys)
  {
    if s.m.c.phase == MapPhase
    then s.outs == [] && forall t :: 0 <= t < |s.m.c.tasks| ==> s.m.c.tasks[t].kind == Map
    else NoDup(s.outs) && forall n :: n in s.outs <==> IsOut(job, fs0, s.m.c.tasks, n)
  }

  /** A file with one line for each of these keys. */
  ghost predicate LinesIs(job: Job, fs: Fs, n: Name, ps: seq<KeyValue>, keys: seq<string>)
  {
    if keys == [] then n !in fs else n in fs && fs[n] == Flat(LineOf(job, ps), keys)
  }

  /** The bucket's output: one line per key, in some order. */
  ghost predicate Reduced(job: Job, fs: Fs, b: nat, ps: seq<KeyValue>)
  {
    exists keys :: KeysOf(keys, ps) && LinesIs(job, fs, ReduceOut(b), ps, keys)
  }

  /** How far a reduce worker is; `ps` are the pairs in its files, `read` those in the files it has read. */
  ghost predicate Progress(job: Job, fs: Fs, a: Attempt, files: seq<Name>, b: nat, ps: seq<KeyValue>, read: seq<KeyValue>)
  {
    match a
    case Mapping(_, _) => false
    case Reading(files', k, m) => files' == files && k <= |files| && m == AddPairs(map[], read) && TempReduce(b) !in fs
    case Writing(b', keys, k, m) =>
      && b' == b && m == AddPairs(map[], ps) && KeysOf(keys, ps) && k <= |keys|
      && LinesIs(job, fs, TempReduce(b), ps, keys[..k])
  }

  /** The files that a worker has read. */
  ghost function ReadSoFar(files: seq<Name>, a: Attempt): seq<Name>
  {
    if a.Reading? && a.k <= |files| then files[..a.k] else files
  }

  ghost predicate EntryOk(job: Job, fs0: Fs, tasks: seq<Task>, work: map<nat, Attempt>, fs: Fs, outs: seq<Name>, t: nat)
    requires t < |tasks|
  {
    tasks[t].kind == Reduce ==>
      var files := tasks[t].files;
      && files != [] && files == InBucket(outs, BucketOf(files[0]))
      && var b, ps := BucketOf(files[0]), GroupPairs(job, fs0, tasks, files);
         match tasks[t].status
         case Idle => TempReduce(b) !in fs && ReduceOut(b) !in fs
         case InProgress =>
           && ReduceOut(b) !in fs && t in work
           && Progress(job, fs, work[t], files, b, ps, GroupPairs(job, fs0, tasks, ReadSoFar(files, work[t])))
         case Completed => TempReduce(b) !in fs && Reduced(job, fs, b, ps)
         case TimedOut => false
  }

  ghost predicate EntriesOk(job: Job, fs0: Fs, s: Sys)
  {
    forall t: nat :: t < |s.m.c.tasks| ==> EntryOk(job, fs0, s.m.c.tasks, s.work, s.fs, s.outs, t)
  }

  /** Task `t` reduces bucket `b`. */
  ghost predicate Reduces(tasks: seq<Task>, t: nat, b: nat)
  {
    t < |tasks| && tasks[t].kind == Reduce && tasks[t].files != [] && BucketOf(tasks[t].files[0]) == b
  }

  ghost predicate OneEach(tasks: seq<Task>)
  {
    forall t, t', b :: Reduces(tasks, t, b) && Reduces(tasks, t', b) ==> t == t'
  }

  /** Buckets that nobody reduces have no files. */
  ghost predicate NoStrays(tasks: seq<Task>, fs: Fs)
  {
    forall b: nat :: TempReduce(b) in fs || ReduceOut(b) in fs ==> exists t :: Reduces(tasks, t, b)
  }

  ghost predicate ReduceInv(job: Job, fs0: Fs, s: Sys)
  {
    && OutsOk(job, fs0, s) && EntriesOk(job, fs0, s)
    && OneEach(s.m.c.tasks) && NoStrays(s.m.c.tasks, s.fs)
  }

  ghost predicate NoReduceTimeout(s: Sys)
  {
    forall t :: 0 <= t < |s.m.c.tasks| && s.m.c.tasks[t].kind == Reduce ==> s.m.c.tasks[t].status != TimedOut
  }

  /** Every pair can be carried by the text form. */
  ghost predicate CleanJob(job: Job, fs0: Fs, inputs: seq<string>)
  {
    forall i, k :: 0 <= i < |inputs| && 0 <= k < |Mapped(job, fs0, [Input(inputs[i])])| ==>
      Clean(Mapped(job, fs0, [Input(inputs[i])])[k])
  }

  // ---- What stays ----

  ghost predicate Grows(tasks: seq<Task>, tasks': seq<Task>)
  {
    && |tasks| <= |tasks'|
    && forall t :: 0 <= t < |tasks| ==> tasks'[t].files == tasks[t].files && tasks'[t].kind == tasks[t].kind
  }

  lemma {:induction false} GroupSame(job: Job, fs0: Fs, tasks: seq<Task>, tasks': seq<Task>, files: seq<Name>)
    requires Grows(tasks, tasks') && forall i :: 0 <= i < |files| ==> files[i].MapOut? ==> files[i].task < |tasks|
    ensures GroupPairs(job, fs0, tasks', files) == GroupPairs(job, fs0, tasks, files)
  {
    if files != [] { GroupSame(job, fs0, tasks, tasks', files[..|files| - 1]); }
  }

  lemma OutsInRange(job: Job, fs0: Fs, s: Sys, b: nat)
    requires OutsOk(job, fs0, s)
    ensures forall i :: 0 <= i < |InBucket(s.outs, b)| ==> IsOut(job, fs0, s.m.c.tasks, InBucket(s.outs, b)[i])
    ensures forall i :: 0 <= i < |InBucket(s.outs, b)| ==> BucketOf(InBucket(s.outs, b)[i]) == b
  {
    forall i | 0 <= i < |InBucket(s.outs, b)|
      ensures IsOut(job, fs0, s.m.c.tasks, InBucket(s.outs, b)[i]) && BucketOf(InBucket(s.outs, b)[i]) == b
    {
      E.InBucketIs(s.outs, b, InBucket(s.outs, b)[i]);
    }
  }

  /** An entry none of whose concerns change. */
  lemma EntryKept(job: Job, fs0: Fs, s: Sys, s': Sys, t: nat)
    requires OutsOk(job, fs0, s) && t < |s.m.c.tasks| && EntryOk(job, fs0, s.m.c.tasks, s.work, s.fs, s.outs, t)
    requires Grows(s.m.c.tasks, s'.m.c.tasks) && s'.m.c.tasks[t].status == s.m.c.tasks[t].status
    requires t in s.work ==> t in s'.work && s'.work[t] == s.work[t]
    requires s.m.c.tasks[t].kind == Reduce ==> s'.outs == s.outs
    requires s.m.c.tasks[t].kind == Reduce && s.m.c.tasks[t].files != [] ==>
               var b := BucketOf(s.m.c.tasks[t].files[0]);
               Agree(s.fs, s'.fs, TempReduce(b)) && Agree(s.fs, s'.fs, ReduceOut(b))
    ensures EntryOk(job, fs0, s'.m.c.tasks, s'.work, s'.fs, s'.outs, t)
  {
    var tasks, tasks' := s.m.c.tasks, s'.m.c.tasks;
    if tasks[t].kind == Reduce {
      var files := tasks[t].files;
      var b := BucketOf(files[0]);
      OutsInRange(job, fs0, s, b);
      GroupSame(job, fs0, tasks, tasks', files);
      if tasks[t].status == InProgress {
        GroupSame(job, fs0, tasks, tasks', ReadSoFar(files, s.work[t]));
      }
      if tasks[t].status == Completed { ReducedKept(job, s.fs, s'.fs, b, GroupPairs(job, fs0, tasks, files)); }
    }
  }

  lemma ReducedKept(job: Job, fs: Fs, fs': Fs, b: nat, ps: seq<KeyValue>)
    requires Reduced(job, fs, b, ps) && Agree(fs, fs', ReduceOut(b))
    ensures Reduced(job, fs', b, ps)
  {
    var keys :| KeysOf(keys, ps) && LinesIs(job, fs, ReduceOut(b), ps, keys);
    assert LinesIs(job, fs', ReduceOut(b), ps, keys);
  }
}
