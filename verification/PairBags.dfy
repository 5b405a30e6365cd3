/** Once the map phase is over, the pairs of each bucket are those of all inputs that hash there, up to order. */
module PairBags {
  import opened Rpc
  import opened Bags
  import opened Wire
  import opened Names
  import opened Files
  import opened Coordination
  import opened Work
  import opened Sequential
  import E = ExactlyOnce
  import opened Cluster
  import opened MapSide
  import opened ReduceSide

  // ---- Selecting and collecting do not care about order ----

  ghost function SelectOne(job: Job, b: nat): KeyValue -> seq<KeyValue>
  {
    (p: KeyValue) => if Bucket(job, p.key) == b then [p] else []
  }

  lemma {:induction false} SelectedFlat(job: Job, ps: seq<KeyValue>, b: nat)
    ensures Selected(job, ps, b) == Flat(SelectOne(job, b), ps)
  {
    if ps != [] { SelectedFlat(job, ps[..|ps| - 1], b); }
  }

  lemma SelectedOrder(job: Job, ps: seq<KeyValue>, qs: seq<KeyValue>, b: nat)
    requires multiset(ps) == multiset(qs)
    ensures multiset(Selected(job, ps, b)) == multiset(Selected(job, qs, b))
  {
    SelectedFlat(job, ps, b);
    SelectedFlat(job, qs, b);
    FlatOrder(SelectOne(job, b), ps, qs);
  }

  ghost function ValueOne(key: string): KeyValue -> seq<string>
  {
    (p: KeyValue) => if p.key == key then [p.value] else []
  }

  lemma {:induction false} ValuesFlat(ps: seq<KeyValue>, key: string)
    ensures ValuesOf(ps, key) == Flat(ValueOne(key), ps)
  {
    if ps != [] { ValuesFlat(ps[..|ps| - 1], key); }
  }

  lemma ValuesOrder(ps: seq<KeyValue>, qs: seq<KeyValue>, key: string)
    requires multiset(ps) == multiset(qs)
    ensures multiset(ValuesOf(ps, key)) == multiset(ValuesOf(qs, key))
  {
    ValuesFlat(ps, key);
    ValuesFlat(qs, key);
    FlatOrder(ValueOne(key), ps, qs);
  }

  /** A bucket has all the values of its keys and none of other keys. */
  lemma {:induction false} SelectedValues(job: Job, ps: seq<KeyValue>, b: nat, key: string)
    ensures ValuesOf(Selected(job, ps, b), key) == if Bucket(job, key) == b then ValuesOf(ps, key) else []
  {
    if ps != [] {
      var m := |ps| - 1;
      SelectedValues(job, ps[..m], b, key);
      ValuesAppend(Selected(job, ps[..m], b), if Bucket(job, ps[m].key) == b then [ps[m]] else [], key);
      assert ValuesOf([ps[m]], key) == ValuesOf([], key) + if ps[m].key == key then [ps[m].value] else [];
    }
  }

  // ---- The pairs of the completed map tasks ----

  ghost predicate IsDone(t: Task) { t.kind == Map && t.status == Completed }

  ghost function DoneFiles(tasks: seq<Task>): seq<seq<Name>>
  {
    if tasks == [] then [] else
    DoneFiles(tasks[..|tasks| - 1]) + if IsDone(tasks[|tasks| - 1]) then [tasks[|tasks| - 1].files] else []
  }

  ghost function DonePairs(job: Job, fs0: Fs, tasks: seq<Task>): seq<KeyValue>
  {
    if tasks == [] then [] else
    DonePairs(job, fs0, tasks[..|tasks| - 1]) + if IsDone(tasks[|tasks| - 1]) then PairsOf(job, fs0, tasks[|tasks| - 1]) else []
  }

  ghost function MappedOne(job: Job, fs0: Fs): seq<Name> -> seq<KeyValue> { (files: seq<Name>) => Mapped(job, fs0, files) }

  lemma {:induction false} DonePairsFlat(job: Job, fs0: Fs, tasks: seq<Task>)
    ensures DonePairs(job, fs0, tasks) == Flat(MappedOne(job, fs0), DoneFiles(tasks))
  {
    if tasks != [] {
      var m := |tasks| - 1;
      DonePairsFlat(job, fs0, tasks[..m]);
      if IsDone(tasks[m]) {
        FlatOne(MappedOne(job, fs0), DoneFiles(tasks[..m]), tasks[m].files);
      } else {
        assert DoneFiles(tasks) == DoneFiles(tasks[..m]) && DonePairs(job, fs0, tasks) == DonePairs(job, fs0, tasks[..m]);
      }
    }
  }

  lemma {:induction false} InputsFlat(job: Job, fs0: Fs, inputs: seq<string>)
    ensures Flat(MappedOne(job, fs0), E.Singles(inputs)) == Mapped(job, fs0, Inputs(inputs))
  {
    if inputs != [] {
      var m := |inputs| - 1;
      InputsFlat(job, fs0, inputs[..m]);
      assert E.Singles(inputs)[..m] == E.Singles(inputs[..m]);
      assert Inputs(inputs)[..m] == Inputs(inputs[..m]);
      MappedSingle(job, fs0, Input(inputs[m]));
    }
  }

  lemma MappedSingle(job: Job, fs0: Fs, n: Name)
    ensures Mapped(job, fs0, [n]) == job.mapf(Text(n), Content(fs0, n))
  {
    assert [n][..0] == [];
    assert Mapped(job, fs0, []) + job.mapf(Text(n), Content(fs0, n)) == job.mapf(Text(n), Content(fs0, n));
  }

  lemma {:induction false} DoneCount(tasks: seq<Task>, f: seq<Name>)
    ensures multiset(DoneFiles(tasks))[f] == E.Num(tasks, Map, true, Some(f))
  {
    if tasks != [] { DoneCount(tasks[..|tasks| - 1], f); }
  }

  lemma {:induction false} TimesCount<X>(xs: seq<X>, x: X)
    ensures multiset(xs)[x] == E.Times(xs, x)
  {
    if xs != [] {
      TimesCount(xs[..|xs| - 1], x);
      assert xs == xs[..|xs| - 1] + [xs[|xs| - 1]];
    }
  }

  /** Once the map phase is over, each input has been mapped by one completed task: no pair is lost or doubled. */
  lemma AllPairs(job: Job, fs0: Fs, s: Sys, inputs: seq<string>)
    requires E.MapsDone(s.m, inputs)
    ensures multiset(DonePairs(job, fs0, s.m.c.tasks)) == multiset(Mapped(job, fs0, Inputs(inputs)))
  {
    var done, singles := DoneFiles(s.m.c.tasks), E.Singles(inputs);
    forall f ensures multiset(done)[f] == multiset(singles)[f] {
      DoneCount(s.m.c.tasks, f);
      TimesCount(singles, f);
    }
    assert multiset(done) == multiset(singles);
    FlatOrder(MappedOne(job, fs0), done, singles);
    DonePairsFlat(job, fs0, s.m.c.tasks);
    InputsFlat(job, fs0, inputs);
  }

  // ---- The files of a bucket ----

  ghost function FileOne(job: Job, fs0: Fs, tasks: seq<Task>): Name -> seq<KeyValue>
  {
    (n: Name) => FilePairs(job, fs0, tasks, n)
  }

  lemma {:induction false} GroupFlat(job: Job, fs0: Fs, tasks: seq<Task>, files: seq<Name>)
    ensures GroupPairs(job, fs0, tasks, files) == Flat(FileOne(job, fs0, tasks), files)
  {
    if files != [] { GroupFlat(job, fs0, tasks, files[..|files| - 1]); }
  }

  /** The finished files of bucket `b` by the first `i` tasks. */
  ghost function FilesUpTo(job: Job, fs0: Fs, tasks: seq<Task>, b: nat, i: nat): seq<Name>
  {
    if i == 0 then [] else
    FilesUpTo(job, fs0, tasks, b, i - 1) + if IsOut(job, fs0, tasks, MapOut(i - 1, b)) then [MapOut(i - 1, b)] else []
  }

  lemma {:induction false} FilesUpToIs(job: Job, fs0: Fs, tasks: seq<Task>, b: nat, i: nat, n: Name)
    ensures n in FilesUpTo(job, fs0, tasks, b, i) <==> IsOut(job, fs0, tasks, n) && n.bucket == b && n.task < i
  {
    if i > 0 { FilesUpToIs(job, fs0, tasks, b, i - 1, n); }
  }

  lemma {:induction false} FilesUpToNoDup(job: Job, fs0: Fs, tasks: seq<Task>, b: nat, i: nat)
    ensures NoDup(FilesUpTo(job, fs0, tasks, b, i))
  {
    if i > 0 {
      FilesUpToNoDup(job, fs0, tasks, b, i - 1);
      FilesUpToIs(job, fs0, tasks, b, i - 1, MapOut(i - 1, b));
    }
  }

  lemma BucketFiles(job: Job, fs0: Fs, s: Sys, b: nat)
    requires OutsOk(job, fs0, s) && s.m.c.phase != MapPhase
    ensures multiset(InBucket(s.outs, b)) == multiset(FilesUpTo(job, fs0, s.m.c.tasks, b, |s.m.c.tasks|))
  {
    var tasks := s.m.c.tasks;
    E.InBucketNoDup(s.outs, b);
    FilesUpToNoDup(job, fs0, tasks, b, |tasks|);
    forall n ensures n in InBucket(s.outs, b) <==> n in FilesUpTo(job, fs0, tasks, b, |tasks|) {
      E.InBucketIs(s.outs, b, n);
      FilesUpToIs(job, fs0, tasks, b, |tasks|, n);
    }
    NoDupSame(InBucket(s.outs, b), FilesUpTo(job, fs0, tasks, b, |tasks|));
  }

  /** One more task: its file of the bucket, if it has one, holds what it adds to the bucket. */
  lemma OneMore(job: Job, fs0: Fs, tasks: seq<Task>, b: nat, i: nat)
    requires i < |tasks|
    ensures Flat(FileOne(job, fs0, tasks), FilesUpTo(job, fs0, tasks, b, i + 1))
            == Flat(FileOne(job, fs0, tasks), FilesUpTo(job, fs0, tasks, b, i))
               + (if IsDone(tasks[i]) then Selected(job, PairsOf(job, fs0, tasks[i]), b) else [])
  {
    var f, n, before := FileOne(job, fs0, tasks), MapOut(i, b), FilesUpTo(job, fs0, tasks, b, i);
    assert f(n) == Selected(job, PairsOf(job, fs0, tasks[i]), b);
    if IsOut(job, fs0, tasks, n) {
      FlatOne(f, before, n);
    } else {
      assert FilesUpTo(job, fs0, tasks, b, i + 1) == before;
      assert Flat(f, before) + [] == Flat(f, before);
    }
  }

  lemma DoneNext(job: Job, fs0: Fs, tasks: seq<Task>, b: nat, i: nat)
    requires i < |tasks|
    ensures Selected(job, DonePairs(job, fs0, tasks[..i + 1]), b)
            == Selected(job, DonePairs(job, fs0, tasks[..i]), b)
               + (if IsDone(tasks[i]) then Selected(job, PairsOf(job, fs0, tasks[i]), b) else [])
  {
    assert tasks[..i + 1][..i] == tasks[..i];
    SelectedAppend(job, DonePairs(job, fs0, tasks[..i]), if IsDone(tasks[i]) then PairsOf(job, fs0, tasks[i]) else [], b);
  }

  lemma {:induction false} FilesHold(job: Job, fs0: Fs, tasks: seq<Task>, b: nat, i: nat)
    requires i <= |tasks|
    ensures Flat(FileOne(job, fs0, tasks), FilesUpTo(job, fs0, tasks, b, i)) == Selected(job, DonePairs(job, fs0, tasks[..i]), b)
  {
    if i == 0 {
      assert tasks[..0] == [];
    } else {
      FilesHold(job, fs0, tasks, b, i - 1);
      OneMore(job, fs0, tasks, b, i - 1);
      DoneNext(job, fs0, tasks, b, i - 1);
    }
  }

  /** The pairs of a bucket's files are those of all inputs whose key's hash leaves the remainder `b`. */
  lemma BucketPairs(job: Job, fs0: Fs, s: Sys, inputs: seq<string>, b: nat)
    requires OutsOk(job, fs0, s) && s.m.c.phase != MapPhase && E.MapsDone(s.m, inputs)
    ensures multiset(GroupPairs(job, fs0, s.m.c.tasks, InBucket(s.outs, b)))
            == multiset(Selected(job, Mapped(job, fs0, Inputs(inputs)), b))
            == multiset(Hashed(job, InputPairs(job, fs0, Inputs(inputs)), b))
  {
    var tasks := s.m.c.tasks;
    var f := FileOne(job, fs0, tasks);
    BucketFiles(job, fs0, s, b);
    GroupFlat(job, fs0, tasks, InBucket(s.outs, b));
    FlatOrder(f, InBucket(s.outs, b), FilesUpTo(job, fs0, tasks, b, |tasks|));
    FilesHold(job, fs0, tasks, b, |tasks|);
    assert tasks[..|tasks|] == tasks;
    AllPairs(job, fs0, s, inputs);
    SelectedOrder(job, DonePairs(job, fs0, tasks), Mapped(job, fs0, Inputs(inputs)), b);
    SelectedIs(job, Mapped(job, fs0, Inputs(inputs)), b);
    MappedIs(job, fs0, Inputs(inputs));
  }
}
