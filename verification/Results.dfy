/** What a job leaves in its files, said in terms of the application, the inputs and the hash alone. */
module Results {
  import opened Rpc
  import opened Bags
  import opened Wire
  import opened Names
  import opened Files
  import opened Coordination
  import opened Work
  import opened Sequential
  import E = ExactlyOnce
  import opened Cluster
  import opened MapSide
  import opened ReduceSide
  import opened ReduceRuns
  import opened PairBags
  import opened SameOutput

  // ---- Intermediate files ----

  /** `k` if it comes before place `i`, the next number otherwise. */
  ghost function Skipping(i: nat, ks: seq<nat>): seq<nat>
  {
    seq(|ks|, j requires 0 <= j < |ks| => if ks[j] < i then ks[j] else ks[j] + 1)
  }

  /** A place where the last element of a rearrangement comes from. */
  lemma PickOut<X>(xs: seq<X>, ys: seq<X>) returns (i: nat)
    requires multiset(xs) == multiset(ys) && ys != []
    ensures i < |xs| && xs[i] == ys[|ys| - 1]
    ensures multiset(xs[..i] + xs[i + 1..]) == multiset(ys[..|ys| - 1])
  {
    var m, y := |ys| - 1, ys[|ys| - 1];
    assert ys == ys[..m] + [y];
    assert y in multiset(xs);
    i :| 0 <= i < |xs| && xs[i] == y;
    assert xs == xs[..i] + [y] + xs[i + 1..];
    assert multiset(ys[..m]) == multiset(ys) - multiset{y};
  }

  /** Sequences that are equal up to order can be matched place by place. */
  lemma {:induction false} Matching<X>(xs: seq<X>, ys: seq<X>) returns (ks: seq<nat>)
    requires multiset(xs) == multiset(ys)
    ensures |ks| == |ys| && NoDup(ks) && (forall k: nat :: k in ks <==> k < |xs|)
    ensures forall j :: 0 <= j < |ys| ==> ks[j] < |xs| && xs[ks[j]] == ys[j]
    decreases |ys|
  {
    if ys == [] {
      assert |multiset(xs)| == |xs| && |multiset(ys)| == |ys|;
      ks := [];
    } else {
      var i := PickOut(xs, ys);
      var rest := xs[..i] + xs[i + 1..];
      var ks' := Matching(rest, ys[..|ys| - 1]);
      MatchLast(xs, ys, i, rest, ks');
      ks := Skipping(i, ks') + [i];
    }
  }

  lemma MatchLast<X>(xs: seq<X>, ys: seq<X>, i: nat, rest: seq<X>, ks: seq<nat>)
    requires ys != [] && i < |xs| && xs[i] == ys[|ys| - 1] && rest == xs[..i] + xs[i + 1..]
    requires |ks| == |ys| - 1 && NoDup(ks) && (forall k: nat :: k in ks <==> k < |rest|)
    requires forall j :: 0 <= j < |ks| ==> ks[j] < |rest| && rest[ks[j]] == ys[j]
    ensures var all := Skipping(i, ks) + [i];
            && NoDup(all) && (forall k: nat :: k in all <==> k < |xs|)
            && forall j :: 0 <= j < |ys| ==> all[j] < |xs| && xs[all[j]] == ys[j]
  {
    var all := Skipping(i, ks) + [i];
    forall k: nat | k < |xs| ensures k in all {
      if k == i {
        assert all[|ks|] == k;
      } else {
        var k' := if k < i then k else k - 1;
        assert k' in ks;
        var j :| 0 <= j < |ks| && ks[j] == k';
        assert all[j] == k;
      }
    }
  }

  /** The completed map entries. */
  ghost function DoneIds(tasks: seq<Task>): seq<nat>
  {
    if tasks == [] then [] else
    DoneIds(tasks[..|tasks| - 1]) + if IsDone(tasks[|tasks| - 1]) then [|tasks| - 1] else []
  }

  lemma {:induction false} DoneIdsAre(tasks: seq<Task>)
    ensures |DoneIds(tasks)| == |DoneFiles(tasks)| && NoDup(DoneIds(tasks))
    ensures forall t: nat :: t in DoneIds(tasks) <==> t < |tasks| && IsDone(tasks[t])
    ensures forall j :: 0 <= j < |DoneIds(tasks)| ==> DoneIds(tasks)[j] < |tasks| && tasks[DoneIds(tasks)[j]].files == DoneFiles(tasks)[j]
  {
    if tasks != [] { DoneIdsAre(tasks[..|tasks| - 1]); }
  }

  /** One completed entry for each input. */
  lemma EntryOfInput(s: E.Machine, inputs: seq<string>) returns (ids: seq<nat>)
    requires E.MapsDone(s, inputs)
    ensures |ids| == |inputs| && NoDup(ids) && (forall t: nat :: t in ids <==> t < |s.c.tasks| && IsDone(s.c.tasks[t]))
    ensures forall j :: 0 <= j < |inputs| ==> ids[j] < |s.c.tasks| && s.c.tasks[ids[j]].files == [Input(inputs[j])]
  {
    var done, singles := DoneFiles(s.c.tasks), E.Singles(inputs);
    forall f ensures multiset(done)[f] == multiset(singles)[f] {
      DoneCount(s.c.tasks, f);
      TimesCount(singles, f);
    }
    assert multiset(done) == multiset(singles);
    var ks := Matching(done, singles);
    DoneIdsAre(s.c.tasks);
    var all := DoneIds(s.c.tasks);
    ids := seq(|ks|, j requires 0 <= j < |ks| => all[ks[j]]);
    PickAll(all, ks, ids);
  }

  lemma PickAll(all: seq<nat>, ks: seq<nat>, ids: seq<nat>)
    requires NoDup(all) && NoDup(ks) && (forall k: nat :: k in ks <==> k < |all|)
    requires |ids| == |ks| && forall j :: 0 <= j < |ks| ==> ks[j] < |all| && ids[j] == all[ks[j]]
    ensures NoDup(ids) && forall t :: t in ids <==> t in all
  {
    forall t | t in all ensures t in ids {
      var k :| 0 <= k < |all| && all[k] == t;
      assert k in ks;
      var j :| 0 <= j < |ks| && ks[j] == k;
      assert ids[j] == t;
    }
  }

  /** File `n` holds the lines of these pairs, and does not exist if there are none. */
  ghost predicate HoldsPairs(fs: Fs, n: Name, ps: seq<KeyValue>)
  {
    if ps == [] then n !in fs else n in fs && fs[n] == PairText(ps)
  }

  /** The pairs of one input whose keys hash to `b`. */
  ghost function PairsTo(job: Job, fs0: Fs, input: string, b: nat): seq<KeyValue>
  {
    Hashed(job, job.mapf(input, Content(fs0, Input(input))), b)
  }

  lemma FileOf(job: Job, ss: seq<Sys>, ls: seq<Label>, inputs: seq<string>, t: nat, id: nat, input: string, b: nat)
    requires Run(job, ss, ls, inputs) && t <= |ls| && !ss[t].done
    requires id < |ss[t].m.c.tasks| && IsDone(ss[t].m.c.tasks[id]) && ss[t].m.c.tasks[id].files == [Input(input)]
    ensures HoldsPairs(ss[t].fs, MapOut(id, b), PairsTo(job, ss[0].fs, input, b))
  {
    IntermediateFiles(job, ss, ls, inputs, t, id, b);
    var ps := PairsOf(job, ss[0].fs, ss[t].m.c.tasks[id]);
    MappedSingle(job, ss[0].fs, Input(input));
    SelectedIs(job, ps, b);
    EncAllIs(Hashed(job, ps, b));
  }

  /** From the end of the map phase until the job is done, the intermediate files are these and no others:
      each input has one entry `ids[j]`, and its file for bucket `b` holds the lines of exactly the pairs of
      that input whose key's hash leaves the remainder `b`. */
  lemma FinishedFiles(job: Job, ss: seq<Sys>, ls: seq<Label>, inputs: seq<string>, t: nat) returns (ids: seq<nat>)
    requires Run(job, ss, ls, inputs) && t <= |ls| && !ss[t].done && ss[t].m.c.phase != MapPhase
    ensures |ids| == |inputs| && NoDup(ids)
    ensures forall j, b: nat :: 0 <= j < |inputs| ==>
              HoldsPairs(ss[t].fs, MapOut(ids[j], b), PairsTo(job, ss[0].fs, inputs[j], b))
    ensures forall n: Name :: n in ss[t].fs && n.MapOut? ==> n.task in ids
  {
    MapInvHolds(job, ss, ls, inputs, t);
    E.MapsAreDone(ss[t].m, inputs);
    ids := EntryOfInput(ss[t].m, inputs);
    forall j, b: nat | 0 <= j < |inputs|
      ensures HoldsPairs(ss[t].fs, MapOut(ids[j], b), PairsTo(job, ss[0].fs, inputs[j], b))
    {
      assert ids[j] in ids;
      FileOf(job, ss, ls, inputs, t, ids[j], inputs[j], b);
    }
    forall n: Name | n in ss[t].fs && n.MapOut? ensures n.task in ids {
      IntermediateFiles(job, ss, ls, inputs, t, n.task, n.bucket);
    }
  }

  // ---- Output files ----

  /** For any application: when Done answers true there are no intermediate files left, and the output file
      of bucket `b` has one line `key result` for each key whose hash leaves the remainder `b`, the result
      being reducef of exactly the values that the inputs' pairs give to the key. */
  lemma OutputFile(job: Job, ss: seq<Sys>, ls: seq<Label>, inputs: seq<string>, b: nat)
    returns (ps: seq<KeyValue>, keys: seq<string>)
    requires Run(job, ss, ls, inputs) && ss[|ls|].done && NoReduceTimeout(ss[|ls|]) && CleanJob(job, ss[0].fs, inputs)
    ensures multiset(ps) == multiset(Hashed(job, InputPairs(job, ss[0].fs, Inputs(inputs)), b))
    ensures KeysOf(keys, ps) && Content(ss[|ls|].fs, ReduceOut(b)) == OutputText(job, ps, keys)
    ensures forall n :: n in ss[|ls|].fs ==> !n.MapOut?
  {
    EndOfRun(job, ss, ls, inputs);
    ps, keys := OneFile(job, ss[0].fs, ss[|ls| - 1], ss[|ls|].fs, inputs, b);
    LinesText(job, ps, keys);
  }

  /** For an application that does not care about the order of values: the lines of all output files are those
      of the keys of all inputs. */
  lemma AllOutput(job: Job, ss: seq<Sys>, ls: seq<Label>, inputs: seq<string>) returns (keys: seq<string>)
    requires Run(job, ss, ls, inputs) && ss[|ls|].done && NoReduceTimeout(ss[|ls|]) && CleanJob(job, ss[0].fs, inputs)
    requires OrderInsensitive(job)
    ensures var ps := InputPairs(job, ss[0].fs, Inputs(inputs));
            KeysOf(keys, ps) && OutputLines(ss[|ls|].fs, job.nReduce) == multiset(FullLines(OutputText(job, ps, keys)))
  {
    EndOfRun(job, ss, ls, inputs);
    keys := AllBuckets(job, ss[0].fs, ss[|ls| - 1], ss[|ls|].fs, inputs);
    MappedIs(job, ss[0].fs, Inputs(inputs));
    LinesText(job, Mapped(job, ss[0].fs, Inputs(inputs)), keys);
  }

  /** The sequential program's output: one line for each key of the inputs in ascending order, made of exactly
      the values that the inputs' pairs give to the key. */
  lemma SequentialOutput(job: Job, fs: Fs, inputs: seq<string>, sorted: seq<KeyValue>, text: string)
    requires IsOutput(job, Mapped(job, fs, Inputs(inputs)), sorted, text)
    ensures var ps := InputPairs(job, fs, Inputs(inputs));
            && multiset(sorted) == multiset(ps) && KeysOf(KeyOrder(sorted), ps) && Ascending(KeyOrder(sorted))
            && text == OutputText(job, sorted, KeyOrder(sorted))
            && (forall key :: multiset(KeyValues(sorted, key)) == multiset(KeyValues(ps, key)))
            && (OrderInsensitive(job) ==> text == OutputText(job, ps, KeyOrder(sorted)))
  {
    MappedIs(job, fs, Inputs(inputs));
    var ps := InputPairs(job, fs, Inputs(inputs));
    OneLinePerKey(job, sorted);
    forall key ensures multiset(KeyValues(sorted, key)) == multiset(KeyValues(ps, key)) && (HasKey(sorted, key) <==> HasKey(ps, key)) {
      ValuesOrder(sorted, ps, key);
      ValuesIs(sorted, key);
      ValuesIs(ps, key);
      SameKey(sorted, ps, key);
    }
    if OrderInsensitive(job) {
      SequentialLines(job, ps, sorted, text);
      LinesText(job, ps, KeyOrder(sorted));
    }
  }
}
