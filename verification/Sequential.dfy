/** The sequential program (mrsequential.go): map everything, sort by key, reduce each run of equal keys. */
module Sequential {
  import opened Rpc
  import opened Bags
  import opened T = Text
  import opened Wire
  import opened Names
  import opened Files
  import opened Work

  ghost predicate SortedByKey(s: seq<KeyValue>)
  {
    forall i, j :: 0 <= i < j < |s| ==> StrLe(s[i].key, s[j].key)
  }

  function Inserted(s: seq<KeyValue>, p: KeyValue): seq<KeyValue>
  {
    if s == [] || StrLe(p.key, s[0].key) then [p] + s else [s[0]] + Inserted(s[1..], p)
  }

  lemma {:induction false} InsertedBag(s: seq<KeyValue>, p: KeyValue)
    ensures multiset(Inserted(s, p)) == multiset(s) + multiset{p}
  {
    if !(s == [] || StrLe(p.key, s[0].key)) {
      InsertedBag(s[1..], p);
      assert s == [s[0]] + s[1..];
    }
  }

  lemma {:induction false} InsertedSorted(s: seq<KeyValue>, p: KeyValue)
    requires SortedByKey(s)
    ensures SortedByKey(Inserted(s, p))
    ensures forall i :: 0 <= i < |Inserted(s, p)| ==> Inserted(s, p)[i] == p || Inserted(s, p)[i] in s
  {
    if s == [] {
    } else if StrLe(p.key, s[0].key) {
      forall j | 0 <= j < |s| ensures StrLe(p.key, s[j].key) {
        if j > 0 { StrTransitive(p.key, s[0].key, s[j].key); }
      }
    } else {
      InsertedSorted(s[1..], p);
      StrTotal(p.key, s[0].key);
      var r := Inserted(s[1..], p);
      forall j | 0 <= j < |r| ensures StrLe(s[0].key, r[j].key) {
        if r[j] != p { assert r[j] in s[1..]; }
      }
    }
  }

  /** sort.Sort(ByKey(...)): any sorted rearrangement will do, equal keys come in any order. */
  method SortByKey(s: seq<KeyValue>) returns (r: seq<KeyValue>)
    ensures SortedByKey(r) && multiset(r) == multiset(s)
  {
    r := [];
    for i := 0 to |s|
      invariant SortedByKey(r) && multiset(r) == multiset(s[..i])
    {
      InsertedBag(r, s[i]);
      InsertedSorted(r, s[i]);
      assert s[..i + 1] == s[..i] + [s[i]];
      r := Inserted(r, s[i]);
    }
    assert s[..|s|] == s;
  }

  // ---- Runs of equal keys ----

  function RunFrom(s: seq<KeyValue>, j: nat): nat
    requires s != []
    decreases |s| - j
  {
    if j < |s| && s[j].key == s[0].key then RunFrom(s, j + 1) else j
  }

  /** The length of the first run of equal keys. */
  function RunLength(s: seq<KeyValue>): (n: nat)
    requires s != []
  {
    RunFrom(s, 1)
  }

  lemma {:induction false} RunFromIs(s: seq<KeyValue>, j: nat)
    requires s != [] && 1 <= j <= |s| && forall k :: 0 <= k < j ==> s[k].key == s[0].key
    ensures var n := RunFrom(s, j);
            j <= n <= |s| && (forall k :: 0 <= k < n ==> s[k].key == s[0].key) && (n < |s| ==> s[n].key != s[0].key)
    decreases |s| - j
  {
    if j < |s| && s[j].key == s[0].key { RunFromIs(s, j + 1); }
  }

  function Values(s: seq<KeyValue>): seq<string>
  {
    seq(|s|, i requires 0 <= i < |s| => s[i].value)
  }

  /** One line per run. */
  function GroupText(job: Job, s: seq<KeyValue>): string
    decreases |s|
  {
    if s == [] then "" else
    var n := RunLength(s);
    RunFromIs(s, 1);
    OutLine(job, s[0].key, Values(s[..n])) + GroupText(job, s[n..])
  }

  /** From `a` to `b` the keys are the same, and the next one is another. */
  ghost predicate RunAt(s: seq<KeyValue>, a: nat, b: nat)
  {
    a < b <= |s| && (forall k :: a <= k < b ==> s[k].key == s[a].key) && (b < |s| ==> s[b].key != s[a].key)
  }

  /** The places at which one run ends and the next begins. */
  ghost predicate IsCuts(s: seq<KeyValue>, cuts: seq<nat>)
  {
    if |cuts| <= 1 then cuts == [0] else
    IsCuts(s, cuts[..|cuts| - 1]) && RunAt(s, cuts[|cuts| - 2], cuts[|cuts| - 1])
  }

  /** A line for each run: its key and what its values are reduced to. */
  ghost function RunText(job: Job, s: seq<KeyValue>, cuts: seq<nat>): string
    requires IsCuts(s, cuts)
  {
    if |cuts| <= 1 then "" else
    var a, b := cuts[|cuts| - 2], cuts[|cuts| - 1];
    RunText(job, s, cuts[..|cuts| - 1]) + (s[a].key + " " + job.reducef(s[a].key, Values(s[a..b])) + "\n")
  }

  lemma NextCut(job: Job, s: seq<KeyValue>, cuts: seq<nat>, a: nat, b: nat)
    requires IsCuts(s, cuts) && cuts[|cuts| - 1] == a && RunAt(s, a, b)
    ensures IsCuts(s, cuts + [b])
    ensures RunText(job, s, cuts + [b]) == RunText(job, s, cuts) + (s[a].key + " " + job.reducef(s[a].key, Values(s[a..b])) + "\n")
  {
    assert (cuts + [b])[..|cuts|] == cuts;
  }

  /** The loop that finds the end of a run. */
  method FindRun(s: seq<KeyValue>, i: nat) returns (j: nat)
    requires i < |s|
    ensures i < j <= |s| && j - i == RunLength(s[i..]) && RunAt(s, i, j)
  {
    j := i + 1;
    ghost var t := s[i..];
    while j < |s| && s[j].key == s[i].key
      invariant i < j <= |s| && RunLength(t) == RunFrom(t, j - i)
      invariant forall k :: i <= k < j ==> s[k].key == s[i].key
    {
      assert t[j - i] == s[j];
      j := j + 1;
    }
  }

  /** The loop that collects the values of a run. */
  method CollectValues(s: seq<KeyValue>, i: nat, j: nat) returns (values: seq<string>)
    requires i <= j <= |s|
    ensures values == Values(s[i..j])
  {
    values := [];
    for k := i to j
      invariant values == Values(s[i..k])
    {
      assert s[i..k + 1] == s[i..k] + [s[k]];
      values := values + [s[k].value];
    }
  }

  /** The loop over the runs; `cuts` are their bounds. */
  method WriteGroups(job: Job, s: seq<KeyValue>) returns (text: string, ghost cuts: seq<nat>)
    ensures text == GroupText(job, s)
    ensures IsCuts(s, cuts) && cuts[|cuts| - 1] == |s| && text == RunText(job, s, cuts)
  {
    text, cuts := "", [0];
    var i := 0;
    while i < |s|
      invariant i <= |s| && text + GroupText(job, s[i..]) == GroupText(job, s)
      invariant IsCuts(s, cuts) && cuts[|cuts| - 1] == i && text == RunText(job, s, cuts)
    {
      var j := FindRun(s, i);
      var values := CollectValues(s, i, j);
      GroupNext(job, s[i..]);
      assert s[i..][..j - i] == s[i..j] && s[i..][j - i..] == s[j..];
      var line := s[i].key + " " + job.reducef(s[i].key, values) + NL;
      Associate(text, line, GroupText(job, s[j..]));
      NextCut(job, s, cuts, i, j);
      cuts := cuts + [j];
      text := text + line;
      i := j;
    }
    assert s[i..] == [] && text + "" == text;
  }

  lemma GroupNext(job: Job, s: seq<KeyValue>)
    requires s != []
    ensures var n := RunLength(s);
            n <= |s| && GroupText(job, s) == OutLine(job, s[0].key, Values(s[..n])) + GroupText(job, s[n..])
  {
    RunFromIs(s, 1);
  }

  function Inputs(files: seq<string>): seq<Name>
  {
    seq(|files|, i requires 0 <= i < |files| => Input(files[i]))
  }

  /** The whole program: what it writes to its output file, unless an input cannot be read. `sorted` is how
      the sort arranged the pairs. */
  method Program(job: Job, dir: Dir, files: seq<string>) returns (out: Option<string>, ghost sorted: seq<KeyValue>)
    ensures out.Some? <==> forall i :: 0 <= i < |files| ==> Input(files[i]) in dir.files
    ensures out.Some? ==> IsOutput(job, Mapped(job, dir.files, Inputs(files)), sorted, out.value)
    ensures out.Some? ==>
              && SortedByKey(sorted) && multiset(sorted) == multiset(InputPairs(job, dir.files, Inputs(files)))
              && KeysOf(KeyOrder(sorted), sorted) && Ascending(KeyOrder(sorted))
              && out.value == OutputText(job, sorted, KeyOrder(sorted))
  {
    var intermediate: seq<KeyValue> := [];
    sorted := [];
    for i := 0 to |files|
      invariant forall k :: 0 <= k < i ==> Input(files[k]) in dir.files
      invariant intermediate == Mapped(job, dir.files, Inputs(files[..i]))
    {
      var content := dir.Read(Input(files[i]));
      if content.None? { return None, []; }
      assert Inputs(files[..i + 1])[..i] == Inputs(files[..i]);
      intermediate := intermediate + job.mapf(files[i], content.value);
    }
    assert files[..|files|] == files;
    var s := SortByKey(intermediate);
    sorted := s;
    var text, _ := WriteGroups(job, s);
    out := Some(text);
    OneLinePerKey(job, s);
    MappedIs(job, dir.files, Inputs(files));
  }

  /** `text` is what the program writes if the sort arranges `pairs` as `sorted`. */
  ghost predicate IsOutput(job: Job, pairs: seq<KeyValue>, sorted: seq<KeyValue>, text: string)
  {
    SortedByKey(sorted) && multiset(sorted) == multiset(pairs) && text == GroupText(job, sorted)
  }

  // ---- What the output consists of ----

  lemma {:induction false} ValuesAppend(a: seq<KeyValue>, b: seq<KeyValue>, key: string)
    ensures ValuesOf(a + b, key) == ValuesOf(a, key) + ValuesOf(b, key)
  {
    if b == [] {
      assert a + b == a;
    } else {
      ValuesAppend(a, b[..|b| - 1], key);
      assert (a + b)[..|a + b| - 1] == a + b[..|b| - 1];
    }
  }

  lemma ValuesLast(s: seq<KeyValue>)
    requires s != []
    ensures Values(s) == Values(s[..|s| - 1]) + [s[|s| - 1].value]
  {
  }

  lemma {:induction false} ValuesOfRun(s: seq<KeyValue>, key: string, mine: bool)
    requires forall i :: 0 <= i < |s| ==> (s[i].key == key) == mine
    ensures ValuesOf(s, key) == if mine then Values(s) else []
  {
    if s != [] {
      ValuesOfRun(s[..|s| - 1], key, mine);
      ValuesLast(s);
    }
  }

  ghost function LineOf(job: Job, s: seq<KeyValue>): string -> seq<char>
  {
    (key: string) => OutLine(job, key, ValuesOf(s, key))
  }

  /** In a sorted sequence the first key does not come back after its run. */
  lemma RunIsAll(s: seq<KeyValue>, n: nat)
    requires SortedByKey(s) && s != [] && n == RunLength(s)
    ensures 1 <= n <= |s| && SortedByKey(s[n..]) && !HasKey(s[n..], s[0].key)
    ensures forall k :: 0 <= k < n ==> s[k].key == s[0].key
  {
    RunFromIs(s, 1);
    forall i | n <= i < |s| ensures s[i].key != s[0].key {
      if s[i].key == s[0].key && i > n { StrAntisymmetric(s[0].key, s[n].key); }
    }
    var t := s[n..];
    assert forall i :: 0 <= i < |t| ==> t[i] == s[n + i];
  }

  /** The values of the first key are its run; those of another key come after it. */
  lemma RunValues(s: seq<KeyValue>, n: nat, key: string)
    requires s != [] && 1 <= n <= |s| && (forall k :: 0 <= k < n ==> s[k].key == s[0].key) && !HasKey(s[n..], s[0].key)
    ensures key == s[0].key ==> ValuesOf(s, key) == Values(s[..n])
    ensures key != s[0].key ==> ValuesOf(s, key) == ValuesOf(s[n..], key)
  {
    assert s == s[..n] + s[n..];
    ValuesAppend(s[..n], s[n..], key);
    ValuesOfRun(s[..n], key, key == s[0].key);
    if key == s[0].key { ValuesOfRun(s[n..], key, false); }
  }

  lemma LineOfIs(job: Job, s: seq<KeyValue>, key: string)
    ensures LineOf(job, s)(key) == OutLine(job, key, ValuesOf(s, key))
  {
  }

  /** The lines of the later keys do not depend on the first run. */
  lemma LaterLines(job: Job, s: seq<KeyValue>, n: nat, tail: seq<string>)
    requires s != [] && 1 <= n <= |s| && (forall k :: 0 <= k < n ==> s[k].key == s[0].key) && !HasKey(s[n..], s[0].key)
    requires s[0].key !in tail
    ensures Flat(LineOf(job, s), tail) == Flat(LineOf(job, s[n..]), tail)
  {
    forall i | 0 <= i < |tail| ensures LineOf(job, s)(tail[i]) == LineOf(job, s[n..])(tail[i]) {
      assert tail[i] in tail;
      RunValues(s, n, tail[i]);
      LineOfIs(job, s, tail[i]);
      LineOfIs(job, s[n..], tail[i]);
    }
    FlatSame(LineOf(job, s), LineOf(job, s[n..]), tail);
  }

  lemma FlatFirst<X, Y>(f: X -> seq<Y>, x: X, rest: seq<X>)
    ensures Flat(f, [x] + rest) == f(x) + Flat(f, rest)
  {
    FlatAppend(f, [x], rest);
    FlatOne(f, [], x);
    assert [] + [x] == [x] && Flat(f, []) + f(x) == f(x);
  }

  /** The keys in the order of their runs. */
  ghost function KeyOrder(s: seq<KeyValue>): seq<string>
    decreases |s|
  {
    if s == [] then [] else
    var n := RunLength(s);
    RunFromIs(s, 1);
    [s[0].key] + KeyOrder(s[n..])
  }

  lemma KeyOrderNext(s: seq<KeyValue>)
    requires s != []
    ensures RunLength(s) <= |s| && KeyOrder(s) == [s[0].key] + KeyOrder(s[RunLength(s)..])
  {
    RunFromIs(s, 1);
  }

  lemma KeysSplit(s: seq<KeyValue>, n: nat, k: string)
    requires s != [] && 1 <= n <= |s| && forall i :: 0 <= i < n ==> s[i].key == s[0].key
    ensures HasKey(s, k) <==> k == s[0].key || HasKey(s[n..], k)
  {
    if i :| 0 <= i < |s| && s[i].key == k { if i >= n { assert s[n..][i - n] == s[i]; } }
    if i :| 0 <= i < |s[n..]| && s[n..][i].key == k { assert s[n + i] == s[n..][i]; }
  }

  lemma {:induction false} KeyOrderHas(s: seq<KeyValue>, k: string)
    requires SortedByKey(s)
    ensures k in KeyOrder(s) <==> HasKey(s, k)
    decreases |s|
  {
    if s != [] {
      var n := RunLength(s);
      RunIsAll(s, n);
      KeysSplit(s, n, k);
      KeyOrderHas(s[n..], k);
      KeyOrderNext(s);
    }
  }

  lemma {:induction false} KeyOrderNoDup(s: seq<KeyValue>)
    requires SortedByKey(s)
    ensures NoDup(KeyOrder(s))
    decreases |s|
  {
    if s != [] {
      var n := RunLength(s);
      RunIsAll(s, n);
      KeyOrderNoDup(s[n..]);
      KeyOrderHas(s[n..], s[0].key);
      KeyOrderNext(s);
    }
  }

  lemma GroupStep(job: Job, s: seq<KeyValue>, n: nat, tail: seq<string>)
    requires s != [] && n == RunLength(s) && 1 <= n <= |s|
    requires (forall k :: 0 <= k < n ==> s[k].key == s[0].key) && !HasKey(s[n..], s[0].key) && s[0].key !in tail
    requires GroupText(job, s[n..]) == Flat(LineOf(job, s[n..]), tail)
    ensures GroupText(job, s) == Flat(LineOf(job, s), [s[0].key] + tail)
  {
    LaterLines(job, s, n, tail);
    FlatFirst(LineOf(job, s), s[0].key, tail);
    LineOfIs(job, s, s[0].key);
    RunValues(s, n, s[0].key);
    GroupNext(job, s);
  }

  /** The text of the runs is that of the keys' lines. */
  lemma {:induction false} GroupLines(job: Job, s: seq<KeyValue>)
    requires SortedByKey(s)
    ensures GroupText(job, s) == Flat(LineOf(job, s), KeyOrder(s))
    decreases |s|
  {
    if s != [] {
      var n := RunLength(s);
      RunIsAll(s, n);
      GroupLines(job, s[n..]);
      KeyOrderHas(s[n..], s[0].key);
      GroupStep(job, s, n, KeyOrder(s[n..]));
      KeyOrderNext(s);
    }
  }

  ghost predicate Ascending(keys: seq<string>)
  {
    forall i, j :: 0 <= i < j < |keys| ==> StrLe(keys[i], keys[j]) && keys[i] != keys[j]
  }

  lemma {:induction false} KeyOrderAscending(s: seq<KeyValue>)
    requires SortedByKey(s)
    ensures Ascending(KeyOrder(s))
    decreases |s|
  {
    if s != [] {
      var n := RunLength(s);
      RunIsAll(s, n);
      KeyOrderAscending(s[n..]);
      var tail := KeyOrder(s[n..]);
      forall j | 0 <= j < |tail| ensures StrLe(s[0].key, tail[j]) && s[0].key != tail[j] {
        assert tail[j] in tail;
        KeyOrderHas(s[n..], tail[j]);
        FirstLeast(s, n, tail[j]);
      }
      KeyOrderNext(s);
    }
  }

  lemma FirstLeast(s: seq<KeyValue>, n: nat, key: string)
    requires SortedByKey(s) && 1 <= n <= |s| && HasKey(s[n..], key)
    ensures StrLe(s[0].key, key)
  {
    var i :| 0 <= i < |s[n..]| && s[n..][i].key == key;
    assert s[n + i].key == key;
  }

  lemma {:induction false} LinesText(job: Job, ps: seq<KeyValue>, keys: seq<string>)
    ensures Flat(LineOf(job, ps), keys) == OutputText(job, ps, keys)
  {
    if keys != [] {
      var m := |keys| - 1;
      LinesText(job, ps, keys[..m]);
      LineOfIs(job, ps, keys[m]);
      OutLineIs(job, keys[m], ValuesOf(ps, keys[m]));
      ValuesIs(ps, keys[m]);
    }
  }

  /** The output of sorted pairs has one line for every key, in ascending order, made of all its values. */
  lemma OneLinePerKey(job: Job, s: seq<KeyValue>)
    requires SortedByKey(s)
    ensures KeysOf(KeyOrder(s), s) && Ascending(KeyOrder(s))
    ensures GroupText(job, s) == OutputText(job, s, KeyOrder(s))
  {
    KeyOrderNoDup(s);
    KeyOrderAscending(s);
    forall k ensures k in KeyOrder(s) <==> HasKey(s, k) { KeyOrderHas(s, k); }
    GroupLines(job, s);
    LinesText(job, s, KeyOrder(s));
  }
}
