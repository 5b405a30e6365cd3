/** A finished job has written, over all its output files, the lines that the sequential program writes. */
module SameOutput {
  import opened Rpc
  import opened Bags
  import opened Wire
  import opened Names
  import opened Files
  import opened Coordination
  import opened Work
  import opened Sequential
  import E = ExactlyOnce
  import opened Cluster
  import opened MapSide
  import opened ReduceSide
  import opened ReduceSteps
  import opened ReduceRuns
  import opened PairBags

  /** The result of reducing a key does not depend on the order of its values. */
  ghost predicate OrderInsensitive(job: Job)
  {
    forall key, vs, ws :: multiset(vs) == multiset(ws) ==> job.reducef(key, vs) == job.reducef(key, ws)
  }

  // ---- Lines of text ----

  function ButLast<X>(xs: seq<X>): seq<X>
    requires xs != []
  {
    xs[..|xs| - 1]
  }

  /** The lines of a text, without what follows the last newline. */
  function FullLines(text: string): seq<string> { ButLast(Split(text, NL)) }

  lemma ButLastAdd<X>(a: seq<X>, b: seq<X>)
    requires b != []
    ensures ButLast(a + b) == a + ButLast(b)
  {
  }

  ghost predicate Terminated(text: string) { text == "" || exists front: string :: text == front + NL }

  lemma LinesAfter(front: string, b: string)
    ensures FullLines(front + NL + b) == Split(front, NL) + FullLines(b)
  {
    SplitNewline(front, b);
    ButLastAdd(Split(front, NL), Split(b, NL));
  }

  lemma NoLines()
    ensures FullLines("") == []
  {
    NoNewline("");
  }

  lemma LinesOf(front: string)
    ensures FullLines(front + NL) == Split(front, NL)
  {
    LinesAfter(front, "");
    NoLines();
    assert front + NL + "" == front + NL;
  }

  lemma LinesAdd(a: string, b: string)
    requires Terminated(a)
    ensures FullLines(a + b) == FullLines(a) + FullLines(b)
  {
    if a == "" {
      NoLines();
      assert a + b == b;
    } else {
      var front :| a == front + NL;
      LinesAfter(front, b);
      LinesOf(front);
    }
  }

  ghost function LinesOne(f: string -> seq<char>): string -> seq<string> { (key: string) => FullLines(f(key)) }

  lemma {:induction false} FlatTerminated(f: string -> seq<char>, keys: seq<string>)
    requires forall key :: Terminated(f(key))
    ensures Terminated(Flat(f, keys))
  {
    if keys != [] {
      var m := |keys| - 1;
      FlatTerminated(f, keys[..m]);
      var last := f(keys[m]);
      if last == "" {
        assert Flat(f, keys) == Flat(f, keys[..m]);
      } else {
        var front :| last == front + NL;
        assert Flat(f, keys) == (Flat(f, keys[..m]) + front) + NL;
      }
    }
  }

  lemma {:induction false} LinesFlat(f: string -> seq<char>, keys: seq<string>)
    requires forall key :: Terminated(f(key))
    ensures FullLines(Flat(f, keys)) == Flat(LinesOne(f), keys)
  {
    if keys == [] {
      NoLines();
    } else {
      var m := |keys| - 1;
      LinesFlat(f, keys[..m]);
      FlatTerminated(f, keys[..m]);
      LinesAdd(Flat(f, keys[..m]), f(keys[m]));
    }
  }

  /** The same keys in another order: the same lines in another order. */
  lemma LinesOrder(f: string -> seq<char>, keys: seq<string>, keys': seq<string>)
    requires (forall key :: Terminated(f(key))) && multiset(keys) == multiset(keys')
    ensures multiset(FullLines(Flat(f, keys))) == multiset(FullLines(Flat(f, keys')))
  {
    LinesFlat(f, keys);
    LinesFlat(f, keys');
    FlatOrder(LinesOne(f), keys, keys');
  }

  lemma LineTerminated(job: Job, ps: seq<KeyValue>, key: string)
    ensures Terminated(LineOf(job, ps)(key))
  {
    LineOfIs(job, ps, key);
    assert OutLine(job, key, ValuesOf(ps, key)) == (key + " " + job.reducef(key, ValuesOf(ps, key))) + NL;
  }

  ghost function SumUpTo<X>(bag: nat -> multiset<X>, n: nat): multiset<X>
  {
    if n == 0 then multiset{} else SumUpTo(bag, n - 1) + bag(n - 1)
  }

  /** The lines of bucket `b`'s output file. */
  ghost function FileLines(fs: Fs): nat -> multiset<string>
  {
    (b: nat) => multiset(FullLines(Content(fs, ReduceOut(b))))
  }

  /** All lines of the output files of the first `n` buckets. */
  ghost function OutputLines(fs: Fs, n: nat): multiset<string> { SumUpTo(FileLines(fs), n) }

  // ---- Lines of a key ----

  lemma SameLine(job: Job, ps: seq<KeyValue>, qs: seq<KeyValue>, key: string)
    requires OrderInsensitive(job) && multiset(ValuesOf(ps, key)) == multiset(ValuesOf(qs, key))
    ensures LineOf(job, ps)(key) == LineOf(job, qs)(key)
  {
    LineOfIs(job, ps, key);
    LineOfIs(job, qs, key);
  }

  lemma SameKey(ps: seq<KeyValue>, qs: seq<KeyValue>, key: string)
    requires multiset(ValuesOf(ps, key)) == multiset(ValuesOf(qs, key))
    ensures HasKey(ps, key) <==> HasKey(qs, key)
  {
    ValuesThere(ps, key);
    ValuesThere(qs, key);
    assert |multiset(ValuesOf(ps, key))| == |ValuesOf(ps, key)| && |multiset(ValuesOf(qs, key))| == |ValuesOf(qs, key)|;
  }

  // ---- The state in which Done answers true ----

  lemma {:induction false} NumZero(tasks: seq<Task>, kind: Kind, t: nat)
    requires E.Num(tasks, kind, false, None) == 0 && t < |tasks| && tasks[t].kind == kind
    ensures !Open(tasks[t])
  {
    if t < |tasks| - 1 { NumZero(tasks[..|tasks| - 1], kind, t); }
  }

  lemma {:induction false} FreshOf(tasks: seq<Task>, now: nat -> int, t: nat)
    requires t < |tasks| && Expires(tasks[t], now(t))
    ensures Fresh(tasks, now) != []
  {
    if t < |tasks| - 1 { FreshOf(tasks[..|tasks| - 1], now, t); }
  }

  lemma FirstFresh(tasks: seq<Task>, now: nat -> int)
    ensures Fresh(tasks, now) != [] ==> Open(Fresh(tasks, now)[0])
  {
    E.FreshIdle(tasks, now);
  }

  lemma ClosedTail(a: seq<Task>, b: seq<Task>)
    requires forall t :: 0 <= t < |a + b| ==> !Open((a + b)[t])
    ensures b != [] ==> !Open(b[0])
  {
    assert b != [] ==> (a + b)[|a|] == b[0];
  }

  /** If nothing is open after the timeouts, nothing has timed out. */
  lemma NoTimeouts(c: Coord, clock: nat -> int)
    requires forall t :: 0 <= t < |Expired(c, clock).tasks| ==> !Open(Expired(c, clock).tasks[t])
    ensures Expired(c, clock).tasks == c.tasks
  {
    FirstFresh(c.tasks, clock);
    assert Expired(c, clock).tasks == Marked(c.tasks, clock) + Fresh(c.tasks, clock);
    ClosedTail(Marked(c.tasks, clock), Fresh(c.tasks, clock));
    forall t | 0 <= t < |c.tasks| ensures Mark(c.tasks[t], clock(t)) == c.tasks[t] {
      if Expires(c.tasks[t], clock(t)) { FreshOf(c.tasks, clock, t); }
    }
    assert Marked(c.tasks, clock) == c.tasks;
  }

  lemma AllClosed(s: E.Machine, inputs: seq<string>)
    requires E.AllDone(s, inputs)
    ensures forall t :: 0 <= t < |s.c.tasks| ==> !Open(s.c.tasks[t])
  {
    forall t | 0 <= t < |s.c.tasks| ensures !Open(s.c.tasks[t]) { NumZero(s.c.tasks, s.c.tasks[t].kind, t); }
  }

  /** Nothing had timed out when Done answered true: it found everything completed. */
  lemma FinalState(job: Job, s: Sys, clock: nat -> int, s': Sys, inputs: seq<string>)
    requires Step(job, s, Done(clock), s') && s'.done && Books(s, inputs)
    ensures s'.m.c.tasks == s.m.c.tasks && s.m.c.phase != MapPhase && E.AllDone(s.m, inputs)
  {
    BooksStep(job, s, Done(clock), s', inputs);
    E.FinishedMeans(s'.m, inputs);
    AllClosed(s'.m, inputs);
    NoTimeouts(s.m.c, clock);
  }

  lemma {:induction false} NumWitness(tasks: seq<Task>, kind: Kind, f: seq<Name>) returns (t: nat)
    requires E.Num(tasks, kind, true, Some(f)) > 0
    ensures t < |tasks| && tasks[t].kind == kind && tasks[t].status == Completed && tasks[t].files == f
  {
    var m := |tasks| - 1;
    if E.Weight(tasks[m], kind, true, Some(f)) == 1 { t := m; } else { t := NumWitness(tasks[..m], kind, f); }
  }

  lemma {:induction false} TimesOf<X>(xs: seq<X>, i: nat)
    requires i < |xs|
    ensures E.Times(xs, xs[i]) > 0
  {
    if i < |xs| - 1 { TimesOf(xs[..|xs| - 1], i); }
  }

  lemma NobodyReduces(job: Job, fs0: Fs, s: Sys, b: nat)
    requires EntriesOk(job, fs0, s) && InBucket(s.outs, b) == []
    ensures forall t :: !Reduces(s.m.c.tasks, t, b)
  {
    forall t: nat ensures !Reduces(s.m.c.tasks, t, b) {
      if t < |s.m.c.tasks| { assert EntryOk(job, fs0, s.m.c.tasks, s.work, s.fs, s.outs, t); }
    }
  }

  /** Some completed task has reduced the bucket. */
  lemma SomebodyReduced(s: Sys, inputs: seq<string>, b: nat) returns (t: nat)
    requires Books(s, inputs) && E.AllDone(s.m, inputs) && InBucket(s.outs, b) != []
    ensures t < |s.m.c.tasks| && s.m.c.tasks[t].kind == Reduce && s.m.c.tasks[t].status == Completed
    ensures s.m.c.tasks[t].files == InBucket(s.outs, b) && BucketOf(s.m.c.tasks[t].files[0]) == b
  {
    var f := InBucket(s.outs, b);
    assert b in s.order;
    var i :| 0 <= i < |s.order| && s.order[i] == b;
    assert s.m.parts[i] == f;
    TimesOf(s.m.parts, i);
    t := NumWitness(s.m.c.tasks, Reduce, f);
    E.InBucketIs(s.outs, b, f[0]);
  }

  /** What a bucket's output consists of when all is done. */
  lemma BucketOutput(job: Job, fs0: Fs, s: Sys, inputs: seq<string>, b: nat)
    requires Books(s, inputs) && ReduceInv(job, fs0, s) && E.AllDone(s.m, inputs)
    ensures Reduced(job, s.fs, b, GroupPairs(job, fs0, s.m.c.tasks, InBucket(s.outs, b)))
  {
    if InBucket(s.outs, b) == [] {
      NobodyReduces(job, fs0, s, b);
      assert KeysOf([], []) && LinesIs(job, s.fs, ReduceOut(b), [], []);
    } else {
      var t := SomebodyReduced(s, inputs, b);
      assert EntryOk(job, fs0, s.m.c.tasks, s.work, s.fs, s.outs, t);
    }
  }

  // ---- All buckets ----

  /** The keys of bucket `b`, each once, and the output made of their lines. */
  ghost predicate BucketDone(job: Job, fs: Fs, all: seq<KeyValue>, b: nat, keys: seq<string>)
  {
    && NoDup(keys) && (forall key :: key in keys <==> HasKey(all, key) && Bucket(job, key) == b)
    && Content(fs, ReduceOut(b)) == Flat(LineOf(job, all), keys)
  }

  lemma BucketValues(job: Job, ps: seq<KeyValue>, all: seq<KeyValue>, b: nat, key: string)
    requires multiset(ps) == multiset(Selected(job, all, b))
    ensures multiset(ValuesOf(ps, key)) == if Bucket(job, key) == b then multiset(ValuesOf(all, key)) else multiset{}
  {
    ValuesOrder(ps, Selected(job, all, b), key);
    SelectedValues(job, all, b, key);
  }

  lemma BucketKeys(job: Job, ps: seq<KeyValue>, all: seq<KeyValue>, b: nat, key: string)
    requires multiset(ps) == multiset(Selected(job, all, b))
    ensures HasKey(ps, key) <==> HasKey(all, key) && Bucket(job, key) == b
  {
    BucketValues(job, ps, all, b, key);
    if Bucket(job, key) == b {
      SameKey(ps, all, key);
    } else {
      ValuesThere(ps, key);
      assert |multiset(ValuesOf(ps, key))| == |ValuesOf(ps, key)|;
    }
  }

  /** The lines of a bucket's keys are made of all their values. */
  lemma KeyLines(job: Job, ps: seq<KeyValue>, all: seq<KeyValue>, b: nat, keys: seq<string>)
    requires OrderInsensitive(job) && multiset(ps) == multiset(Selected(job, all, b))
    requires forall i :: 0 <= i < |keys| ==> Bucket(job, keys[i]) == b
    ensures Flat(LineOf(job, ps), keys) == Flat(LineOf(job, all), keys)
  {
    forall i | 0 <= i < |keys| ensures LineOf(job, ps)(keys[i]) == LineOf(job, all)(keys[i]) {
      BucketValues(job, ps, all, b, keys[i]);
      SameLine(job, ps, all, keys[i]);
    }
    FlatSame(LineOf(job, ps), LineOf(job, all), keys);
  }

  lemma ContentIs(job: Job, fs: Fs, b: nat, ps: seq<KeyValue>, keys: seq<string>)
    requires LinesIs(job, fs, ReduceOut(b), ps, keys)
    ensures Content(fs, ReduceOut(b)) == Flat(LineOf(job, ps), keys)
  {
  }

  lemma BucketLines(job: Job, fs: Fs, ps: seq<KeyValue>, all: seq<KeyValue>, b: nat, keys: seq<string>)
    requires OrderInsensitive(job) && multiset(ps) == multiset(Selected(job, all, b))
    requires KeysOf(keys, ps) && Content(fs, ReduceOut(b)) == Flat(LineOf(job, ps), keys)
    ensures BucketDone(job, fs, all, b, keys)
  {
    KeysHere(job, ps, all, b, keys);
    KeyLines(job, ps, all, b, keys);
  }

  lemma KeysHere(job: Job, ps: seq<KeyValue>, all: seq<KeyValue>, b: nat, keys: seq<string>)
    requires multiset(ps) == multiset(Selected(job, all, b)) && KeysOf(keys, ps)
    ensures forall key :: key in keys <==> HasKey(all, key) && Bucket(job, key) == b
    ensures forall i :: 0 <= i < |keys| ==> Bucket(job, keys[i]) == b
  {
    forall key ensures key in keys <==> HasKey(all, key) && Bucket(job, key) == b { BucketKeys(job, ps, all, b, key); }
    forall i | 0 <= i < |keys| ensures Bucket(job, keys[i]) == b { assert keys[i] in keys; }
  }

  /** The keys of the first `n` buckets in one list; `ks(b)` are those of bucket `b`. */
  ghost function AllKeys(ks: nat -> seq<string>, n: nat): seq<string>
  {
    if n == 0 then [] else AllKeys(ks, n - 1) + ks(n - 1)
  }

  lemma {:induction false} AllKeysHas(job: Job, all: seq<KeyValue>, ks: nat -> seq<string>, n: nat, key: string)
    requires forall b: nat :: b < n ==> (key in ks(b) <==> HasKey(all, key) && Bucket(job, key) == b)
    ensures key in AllKeys(ks, n) <==> HasKey(all, key) && Bucket(job, key) < n
  {
    if n > 0 { AllKeysHas(job, all, ks, n - 1, key); }
  }

  lemma {:induction false} AllKeysNoDup(job: Job, all: seq<KeyValue>, ks: nat -> seq<string>, n: nat)
    requires forall b: nat :: b < n ==> NoDup(ks(b))
    requires forall b: nat, key :: b < n ==> (key in ks(b) <==> HasKey(all, key) && Bucket(job, key) == b)
    ensures NoDup(AllKeys(ks, n))
  {
    if n > 0 {
      AllKeysNoDup(job, all, ks, n - 1);
      var before, here := AllKeys(ks, n - 1), ks(n - 1);
      forall key | key in before ensures key !in here { AllKeysHas(job, all, ks, n - 1, key); }
      JoinNoDup(before, here);
    }
  }

  ghost function BagOf(job: Job, all: seq<KeyValue>): seq<string> -> multiset<string>
  {
    (keys: seq<string>) => LineBag(job, all, keys)
  }

  /** Adding up what adds up bucket by bucket. */
  lemma {:induction false} AddUp<X>(lines: nat -> multiset<X>, bag: seq<string> -> multiset<X>, ks: nat -> seq<string>, n: nat)
    requires bag([]) == multiset{} && forall x, y :: bag(x + y) == bag(x) + bag(y)
    requires forall b: nat :: b < n ==> lines(b) == bag(ks(b))
    ensures SumUpTo(lines, n) == bag(AllKeys(ks, n))
  {
    if n > 0 { AddUp(lines, bag, ks, n - 1); }
  }

  lemma AllLines(job: Job, fs: Fs, all: seq<KeyValue>, ks: nat -> seq<string>, n: nat)
    requires forall b: nat :: b < n ==> Content(fs, ReduceOut(b)) == Flat(LineOf(job, all), ks(b))
    ensures OutputLines(fs, n) == LineBag(job, all, AllKeys(ks, n))
  {
    var bag := BagOf(job, all);
    assert bag([]) == multiset{} by { NoLines(); }
    forall b: nat | b < n ensures FileLines(fs)(b) == bag(ks(b)) { }
    forall x, y ensures bag(x + y) == bag(x) + bag(y) { JoinLines(job, all, x, y); }
    AddUp(FileLines(fs), bag, ks, n);
  }

  lemma JoinNoDup(a: seq<string>, b: seq<string>)
    requires NoDup(a) && NoDup(b) && forall x :: x in a ==> x !in b
    ensures NoDup(a + b)
  {
    forall i, j | 0 <= i < j < |a + b| ensures (a + b)[i] != (a + b)[j] {
      if i < |a| <= j { assert a[i] in a && b[j - |a|] in b; }
    }
  }

  ghost function LineBag(job: Job, all: seq<KeyValue>, keys: seq<string>): multiset<string>
  {
    multiset(FullLines(Flat(LineOf(job, all), keys)))
  }

  lemma JoinLines(job: Job, all: seq<KeyValue>, a: seq<string>, b: seq<string>)
    ensures LineBag(job, all, a + b) == LineBag(job, all, a) + LineBag(job, all, b)
  {
    forall key ensures Terminated(LineOf(job, all)(key)) { LineTerminated(job, all, key); }
    FlatAppend(LineOf(job, all), a, b);
    FlatTerminated(LineOf(job, all), a);
    LinesAdd(Flat(LineOf(job, all), a), Flat(LineOf(job, all), b));
  }

  // ---- The sequential program ----

  /** However the sort arranges equal keys, the sequential output has one line for each key of the inputs. */
  lemma SequentialLines(job: Job, all: seq<KeyValue>, sorted: seq<KeyValue>, text: string)
    requires OrderInsensitive(job) && IsOutput(job, all, sorted, text)
    ensures NoDup(KeyOrder(sorted)) && forall key :: key in KeyOrder(sorted) <==> HasKey(all, key)
    ensures text == Flat(LineOf(job, all), KeyOrder(sorted))
  {
    var keys := KeyOrder(sorted);
    KeyOrderNoDup(sorted);
    GroupLines(job, sorted);
    forall key ensures (key in keys <==> HasKey(all, key)) && LineOf(job, sorted)(key) == LineOf(job, all)(key) {
      KeyOrderHas(sorted, key);
      ValuesOrder(sorted, all, key);
      SameKey(sorted, all, key);
      SameLine(job, sorted, all, key);
    }
    FlatSame(LineOf(job, sorted), LineOf(job, all), keys);
  }

  // ---- The theorem ----

  /** The job is done, and `fs'` is what it leaves. */
  ghost predicate Ended(job: Job, fs0: Fs, s: Sys, fs': Fs, inputs: seq<string>)
  {
    && Books(s, inputs) && ReduceInv(job, fs0, s) && E.AllDone(s.m, inputs) && s.m.c.phase != MapPhase
    && fs' == WithoutMapOuts(s.fs)
  }

  /** A bucket's output: one line for each key of the pairs that hash there, made of its values in some order. */
  lemma OneFile(job: Job, fs0: Fs, s: Sys, fs': Fs, inputs: seq<string>, b: nat) returns (ps: seq<KeyValue>, keys: seq<string>)
    requires Ended(job, fs0, s, fs', inputs)
    ensures multiset(ps) == multiset(Selected(job, Mapped(job, fs0, Inputs(inputs)), b))
                         == multiset(Hashed(job, InputPairs(job, fs0, Inputs(inputs)), b))
    ensures KeysOf(keys, ps) && Content(fs', ReduceOut(b)) == Flat(LineOf(job, ps), keys)
  {
    ps := GroupPairs(job, fs0, s.m.c.tasks, InBucket(s.outs, b));
    BucketOutput(job, fs0, s, inputs, b);
    ReducedKept(job, s.fs, fs', b, ps);
    BucketPairs(job, fs0, s, inputs, b);
    keys :| KeysOf(keys, ps) && LinesIs(job, fs', ReduceOut(b), ps, keys);
    ContentIs(job, fs', b, ps, keys);
  }

  lemma OneBucket(job: Job, fs0: Fs, s: Sys, fs': Fs, inputs: seq<string>, b: nat) returns (keys: seq<string>)
    requires Ended(job, fs0, s, fs', inputs) && OrderInsensitive(job)
    ensures BucketDone(job, fs', Mapped(job, fs0, Inputs(inputs)), b, keys)
  {
    var ps;
    ps, keys := OneFile(job, fs0, s, fs', inputs, b);
    BucketLines(job, fs', ps, Mapped(job, fs0, Inputs(inputs)), b, keys);
  }

  /** The keys of each bucket as its output has them. */
  ghost function Chosen(job: Job, fs: Fs, all: seq<KeyValue>): nat -> seq<string>
  {
    (b: nat) => if exists keys :: BucketDone(job, fs, all, b, keys)
                then var keys :| BucketDone(job, fs, all, b, keys); keys else []
  }

  lemma ChosenOk(job: Job, fs0: Fs, s: Sys, fs': Fs, inputs: seq<string>, b: nat)
    requires Ended(job, fs0, s, fs', inputs) && OrderInsensitive(job)
    ensures var all := Mapped(job, fs0, Inputs(inputs)); BucketDone(job, fs', all, b, Chosen(job, fs', all)(b))
  {
    var keys := OneBucket(job, fs0, s, fs', inputs, b);
  }

  /** All buckets together. */
  lemma AllBuckets(job: Job, fs0: Fs, s: Sys, fs': Fs, inputs: seq<string>) returns (keys: seq<string>)
    requires Ended(job, fs0, s, fs', inputs) && OrderInsensitive(job)
    ensures var all := Mapped(job, fs0, Inputs(inputs));
            && NoDup(keys) && (forall key :: key in keys <==> HasKey(all, key))
            && OutputLines(fs', job.nReduce) == LineBag(job, all, keys)
  {
    var all, n := Mapped(job, fs0, Inputs(inputs)), job.nReduce;
    var ks := Chosen(job, fs', all);
    forall b: nat ensures BucketDone(job, fs', all, b, ks(b)) { ChosenOk(job, fs0, s, fs', inputs, b); }
    keys := AllKeys(ks, n);
    KeysTogether(job, fs', all, ks);
    AllLines(job, fs', all, ks, n);
  }

  lemma KeysTogether(job: Job, fs: Fs, all: seq<KeyValue>, ks: nat -> seq<string>)
    requires forall b: nat :: BucketDone(job, fs, all, b, ks(b))
    ensures NoDup(AllKeys(ks, job.nReduce)) && forall key :: key in AllKeys(ks, job.nReduce) <==> HasKey(all, key)
  {
    var n := job.nReduce;
    AllKeysNoDup(job, all, ks, n);
    forall key ensures key in AllKeys(ks, n) <==> HasKey(all, key) { AllKeysHas(job, all, ks, n, key); }
  }

  /** The state from which Done answered true. */
  lemma EndOfRun(job: Job, ss: seq<Sys>, ls: seq<Label>, inputs: seq<string>)
    requires Run(job, ss, ls, inputs) && ss[|ls|].done && NoReduceTimeout(ss[|ls|]) && CleanJob(job, ss[0].fs, inputs)
    ensures |ls| > 0 && Ended(job, ss[0].fs, ss[|ls| - 1], ss[|ls|].fs, inputs)
  {
    var t := |ls| - 1;
    assert StepAt(job, ss, ls, t);
    OnlyDoneEnds(job, ss[t], ls[t], ss[t + 1]);
    NoneTimedOutBefore(job, ss[t], ls[t], ss[t + 1]);
    MapInvHolds(job, ss, ls, inputs, t);
    ReduceInvHolds(job, ss, ls, inputs, t);
    FinalState(job, ss[t], ls[t].clock, ss[t + 1], inputs);
  }

  /** For every interleaving of workers, crashes, map timeouts and late reports: when Done answers true, the
      lines of all output files are those of the sequential program's output, in some order. */
  lemma SameAsSequential(job: Job, ss: seq<Sys>, ls: seq<Label>, inputs: seq<string>, sorted: seq<KeyValue>, text: string)
    requires Run(job, ss, ls, inputs) && ss[|ls|].done && NoReduceTimeout(ss[|ls|])
    requires OrderInsensitive(job) && CleanJob(job, ss[0].fs, inputs)
    requires IsOutput(job, Mapped(job, ss[0].fs, Inputs(inputs)), sorted, text)
    ensures OutputLines(ss[|ls|].fs, job.nReduce) == multiset(FullLines(text))
  {
    EndOfRun(job, ss, ls, inputs);
    var keys := AllBuckets(job, ss[0].fs, ss[|ls| - 1], ss[|ls|].fs, inputs);
    SameLines(job, Mapped(job, ss[0].fs, Inputs(inputs)), sorted, text, keys);
  }

  lemma OnlyDoneEnds(job: Job, s: Sys, l: Label, s': Sys)
    requires Step(job, s, l, s') && s'.done
    ensures l.Done? && !s.done && s'.fs == WithoutMapOuts(s.fs)
  {
  }

  lemma SameLines(job: Job, all: seq<KeyValue>, sorted: seq<KeyValue>, text: string, keys: seq<string>)
    requires OrderInsensitive(job) && IsOutput(job, all, sorted, text)
    requires NoDup(keys) && forall key :: key in keys <==> HasKey(all, key)
    ensures LineBag(job, all, keys) == multiset(FullLines(text))
  {
    SequentialLines(job, all, sorted, text);
    NoDupSame(keys, KeyOrder(sorted));
    forall key ensures Terminated(LineOf(job, all)(key)) { LineTerminated(job, all, key); }
    LinesOrder(LineOf(job, all), keys, KeyOrder(sorted));
  }
}
