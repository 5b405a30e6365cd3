/** Every step keeps the invariant of the output files. */
module ReduceSteps {
  import opened Rpc
  import opened Bags
  import opened Wire
  import opened Names
  import opened Files
  import opened Coordination
  import opened Work
  import opened Sequential
  import E = ExactlyOnce
  import opened Cluster
  import opened MapSide
  import opened ReduceSide

  // ---- A worker reads a file ----

  lemma {:induction false} SelectedClean(job: Job, ps: seq<KeyValue>, b: nat)
    requires forall k :: 0 <= k < |ps| ==> Clean(ps[k])
    ensures forall k :: 0 <= k < |Selected(job, ps, b)| ==> Clean(Selected(job, ps, b)[k])
  {
    if ps != [] {
      var m := |ps| - 1;
      assert forall k :: 0 <= k < m ==> ps[..m][k] == ps[k];
      SelectedClean(job, ps[..m], b);
    }
  }

  lemma {:induction false} TimesIn<X>(xs: seq<X>, x: X)
    requires E.Times(xs, x) > 0
    ensures exists i :: 0 <= i < |xs| && xs[i] == x
  {
    var m := |xs| - 1;
    if xs[m] != x {
      TimesIn(xs[..m], x);
      var i :| 0 <= i < m && xs[..m][i] == x;
      assert xs[i] == x;
    }
  }

  lemma {:induction false} NumAtLeast(tasks: seq<Task>, t: nat, kind: Kind, done: bool)
    requires t < |tasks| && E.Weight(tasks[t], kind, done, Some(tasks[t].files)) == 1
    ensures E.Num(tasks, kind, done, Some(tasks[t].files)) > 0
  {
    if t < |tasks| - 1 { NumAtLeast(tasks[..|tasks| - 1], t, kind, done); }
  }

  /** What a completed map task mapped is one of the inputs. */
  lemma CompletedInput(s: Sys, inputs: seq<string>, t: nat)
    requires E.Inv(s.m, inputs) && t < |s.m.c.tasks| && s.m.c.tasks[t].kind == Map && s.m.c.tasks[t].status == Completed
    ensures exists i :: 0 <= i < |inputs| && s.m.c.tasks[t].files == [Input(inputs[i])]
  {
    var files := s.m.c.tasks[t].files;
    NumAtLeast(s.m.c.tasks, t, Map, true);
    assert E.Num(s.m.c.tasks, Map, false, Some(files)) + E.Num(s.m.c.tasks, Map, true, Some(files)) == E.Times(E.Singles(inputs), files);
    TimesIn(E.Singles(inputs), files);
    var i :| 0 <= i < |inputs| && E.Singles(inputs)[i] == files;
    assert files == [Input(inputs[i])];
  }

  /** A finished file is there and reads back as the pairs that went into it. */
  lemma FileParses(job: Job, fs0: Fs, s: Sys, inputs: seq<string>, n: Name)
    requires MapInv(job, fs0, s, inputs) && CleanJob(job, fs0, inputs) && IsOut(job, fs0, s.m.c.tasks, n)
    ensures n in s.fs && Parse(s.fs[n]) == Read(FilePairs(job, fs0, s.m.c.tasks, n))
  {
    var t, ps := n.task, FilePairs(job, fs0, s.m.c.tasks, n);
    assert TaskOk(job, fs0, s.m.c.tasks, s.work, s.fs, t);
    assert FileIs(s.fs, MapOut(t, n.bucket), ps);
    CompletedInput(s, inputs, t);
    SelectedClean(job, PairsOf(job, fs0, s.m.c.tasks[t]), n.bucket);
    RoundTrip(ps);
  }

  lemma GroupNext(job: Job, fs0: Fs, tasks: seq<Task>, files: seq<Name>, k: nat)
    requires k < |files|
    ensures GroupPairs(job, fs0, tasks, files[..k + 1]) == GroupPairs(job, fs0, tasks, files[..k]) + FilePairs(job, fs0, tasks, files[k])
  {
    assert files[..k + 1][..k] == files[..k];
  }

  /** A worker that has not reported is on an entry under way. */
  lemma UnderWay(job: Job, fs0: Fs, s: Sys, inputs: seq<string>, id: nat)
    requires MapInv(job, fs0, s, inputs) && ReduceInv(job, fs0, s) && id in s.work && !s.work[id].Mapping?
    ensures id < |s.m.c.tasks| && s.m.c.tasks[id].kind == Reduce && s.m.c.tasks[id].status == InProgress
    ensures EntryOk(job, fs0, s.m.c.tasks, s.work, s.fs, s.outs, id)
  {
    assert TaskOk(job, fs0, s.m.c.tasks, s.work, s.fs, id);
    assert EntryOk(job, fs0, s.m.c.tasks, s.work, s.fs, s.outs, id);
  }

  lemma ReaderOk(job: Job, fs0: Fs, s: Sys, inputs: seq<string>, id: nat, s': Sys)
    requires MapInv(job, fs0, s, inputs) && ReduceInv(job, fs0, s) && CleanJob(job, fs0, inputs)
    requires Step(job, s, ReadFile(id), s')
    ensures id < |s'.m.c.tasks| && EntryOk(job, fs0, s'.m.c.tasks, s'.work, s'.fs, s'.outs, id)
  {
    UnderWay(job, fs0, s, inputs, id);
    var a, tasks := s.work[id], s.m.c.tasks;
    OutsInRange(job, fs0, s, BucketOf(tasks[id].files[0]));
    var n := a.files[a.k];
    FileParses(job, fs0, s, inputs, n);
    var ps := FilePairs(job, fs0, tasks, n);
    StripRead(ps);
    GroupNext(job, fs0, tasks, a.files, a.k);
    AddPairsAppend(map[], GroupPairs(job, fs0, tasks, a.files[..a.k]), ps);
  }

  // ---- A worker starts to write, and writes a line ----

  lemma ValuesThere(ps: seq<KeyValue>, key: string)
    ensures ValuesOf(ps, key) != [] <==> HasKey(ps, key)
  {
    ValuesIs(ps, key);
  }

  lemma GroupedKeys(ps: seq<KeyValue>, keys: seq<string>)
    requires NoDup(keys) && forall k :: k in keys <==> k in AddPairs(map[], ps)
    ensures KeysOf(keys, ps)
  {
    forall k ensures k in keys <==> HasKey(ps, k) {
      GroupedIs(ps, k);
      ValuesThere(ps, k);
    }
  }

  lemma StarterOk(job: Job, fs0: Fs, s: Sys, inputs: seq<string>, id: nat, keys: seq<string>, s': Sys)
    requires MapInv(job, fs0, s, inputs) && ReduceInv(job, fs0, s) && Step(job, s, StartWriting(id, keys), s')
    ensures id < |s'.m.c.tasks| && EntryOk(job, fs0, s'.m.c.tasks, s'.work, s'.fs, s'.outs, id)
  {
    UnderWay(job, fs0, s, inputs, id);
    var files := s.m.c.tasks[id].files;
    assert files[..|files|] == files;
    GroupedKeys(GroupPairs(job, fs0, s.m.c.tasks, files), keys);
    assert keys[..0] == [];
  }

  lemma NextLine(job: Job, fs: Fs, b: nat, ps: seq<KeyValue>, keys: seq<string>, k: nat)
    requires k < |keys| && KeysOf(keys, ps) && LinesIs(job, fs, TempReduce(b), ps, keys[..k])
    ensures LinesIs(job, Work.WriteLine(job, fs, b, keys[k], ValuesFor(AddPairs(map[], ps), keys[k])), TempReduce(b), ps, keys[..k + 1])
  {
    assert keys[..k + 1] == keys[..k] + [keys[k]];
    FlatOne(LineOf(job, ps), keys[..k], keys[k]);
    LineOfIs(job, ps, keys[k]);
    GroupedIs(ps, keys[k]);
    ValuesThere(ps, keys[k]);
    assert keys[k] in keys;
    assert Flat(LineOf(job, ps), []) == "";
  }

  lemma WritingNext(job: Job, fs0: Fs, tasks: seq<Task>, work: map<nat, Attempt>, fs: Fs, outs: seq<Name>, id: nat,
                    work': map<nat, Attempt>, fs': Fs)
    requires id < |tasks| && EntryOk(job, fs0, tasks, work, fs, outs, id) && tasks[id].kind == Reduce && tasks[id].status == InProgress
    requires id in work && work[id].Writing? && work[id].k < |work[id].keys|
    requires var a := work[id]; id in work' && work'[id] == Writing(a.b, a.keys, a.k + 1, a.m)
    requires var a := work[id]; fs' == Work.WriteLine(job, fs, a.b, a.keys[a.k], ValuesFor(a.m, a.keys[a.k]))
    ensures EntryOk(job, fs0, tasks, work', fs', outs, id)
  {
    var a := work[id];
    NextLine(job, fs, a.b, GroupPairs(job, fs0, tasks, tasks[id].files), a.keys, a.k);
  }

  lemma LinerOk(job: Job, fs0: Fs, s: Sys, inputs: seq<string>, id: nat, s': Sys)
    requires MapInv(job, fs0, s, inputs) && ReduceInv(job, fs0, s) && Step(job, s, WriteLine(id), s')
    ensures id < |s'.m.c.tasks| && EntryOk(job, fs0, s'.m.c.tasks, s'.work, s'.fs, s'.outs, id)
    ensures Reduces(s.m.c.tasks, id, s.work[id].b)
  {
    UnderWay(job, fs0, s, inputs, id);
    WritingNext(job, fs0, s.m.c.tasks, s.work, s.fs, s.outs, id, s'.work, s'.fs);
  }

  // ---- A reduce worker reports ----

  /** Renaming the output, if there is any. */
  lemma OutputRenamed(job: Job, fs: Fs, b: nat, ps: seq<KeyValue>, keys: seq<string>, created: seq<Name>)
    requires LinesIs(job, fs, TempReduce(b), ps, keys) && ReduceOut(b) !in fs
    requires created == if keys == [] then [] else [TempReduce(b)]
    ensures var fs' := RenameAll(fs, created).0;
            && TempReduce(b) !in fs' && LinesIs(job, fs', ReduceOut(b), ps, keys)
            && forall n: Name :: n != TempReduce(b) && n != ReduceOut(b) ==> Agree(fs, fs', n)
  {
    FiledOne(fs, TempReduce(b));
  }

  lemma ReduceReported(job: Job, s: Sys, id: nat, created: seq<Name>, outs: seq<Name>, order: seq<nat>, s': Sys)
    requires Step(job, s, TaskDone(id, created, outs, order), s')
    requires id < |s.m.c.tasks| && s.m.c.tasks[id].kind == Reduce && s.m.c.tasks[id].status == InProgress
    ensures s'.outs == s.outs && s'.m.c.tasks == s.m.c.tasks[id := s.m.c.tasks[id].(status := Completed)]
    ensures s'.fs == RenameAll(s.fs, created).0 && s'.work == s.work - {id}
  {
  }

  /** The entry that is reported. */
  lemma ReducerEntry(job: Job, fs0: Fs, s: Sys, s': Sys, id: nat, b: nat, keys: seq<string>)
    requires OutsOk(job, fs0, s) && id < |s.m.c.tasks| && s.m.c.tasks[id].kind == Reduce
    requires s'.m.c.tasks == s.m.c.tasks[id := s.m.c.tasks[id].(status := Completed)] && s'.outs == s.outs
    requires var files := s.m.c.tasks[id].files;
             && files != [] && files == InBucket(s.outs, b) && BucketOf(files[0]) == b
             && KeysOf(keys, GroupPairs(job, fs0, s.m.c.tasks, files)) && TempReduce(b) !in s'.fs
             && LinesIs(job, s'.fs, ReduceOut(b), GroupPairs(job, fs0, s.m.c.tasks, files), keys)
    ensures EntryOk(job, fs0, s'.m.c.tasks, s'.work, s'.fs, s'.outs, id)
  {
    OutsInRange(job, fs0, s, b);
    GroupSame(job, fs0, s.m.c.tasks, s'.m.c.tasks, s.m.c.tasks[id].files);
  }

  lemma ReducerOk(job: Job, fs0: Fs, s: Sys, inputs: seq<string>, id: nat, created: seq<Name>, outs: seq<Name>, order: seq<nat>, s': Sys)
    requires MapInv(job, fs0, s, inputs) && ReduceInv(job, fs0, s) && Step(job, s, TaskDone(id, created, outs, order), s')
    requires !s.work[id].Mapping?
    ensures s.work[id].Writing? && Reduces(s.m.c.tasks, id, s.work[id].b)
    ensures s'.outs == s.outs && s'.m.c.tasks == s.m.c.tasks[id := s.m.c.tasks[id].(status := Completed)]
    ensures EntryOk(job, fs0, s'.m.c.tasks, s'.work, s'.fs, s'.outs, id)
    ensures forall n: Name :: n != TempReduce(s.work[id].b) && n != ReduceOut(s.work[id].b) ==> Agree(s.fs, s'.fs, n)
  {
    UnderWay(job, fs0, s, inputs, id);
    ReduceReported(job, s, id, created, outs, order, s');
    var a, files := s.work[id], s.m.c.tasks[id].files;
    assert a.Writing? && a.keys[..|a.keys|] == a.keys;
    OutputRenamed(job, s.fs, a.b, GroupPairs(job, fs0, s.m.c.tasks, files), a.keys, created);
    ReducerEntry(job, fs0, s, s', id, a.b, a.keys);
  }
}
