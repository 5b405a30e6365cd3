/** The sequential specification of one key that the tests check histories against (models1/kv.go). */
module KvModel {
  import opened Rpc
  import opened Text

  /** 0 is get, 1 is put. */
  datatype KvInput = KvInput(op: nat, key: string, value: string, version: nat)

  datatype KvOutput = KvOutput(value: string, version: nat, err: Err)

  datatype KvState = KvState(value: string, version: nat)

  datatype Operation = Operation(client: nat, input: KvInput, call: nat, output: KvOutput, ret: nat)

  function Init(): KvState { KvState("", 0) }

  function Step(st: KvState, inp: KvInput, out: KvOutput): (bool, KvState)
  {
    if inp.op == 0 then
      (out.value == st.value, st)
    else if inp.op == 1 then
      if st.version == inp.version
      then (out.err == OK || out.err == ErrMaybe, KvState(inp.value, st.version + 1))
      else (out.err == ErrVersion || out.err == ErrMaybe, st)
    else (false, st)
  }

  /** The state after a sequence of operations. */
  ghost function Final(st: KvState, ops: seq<Operation>): KvState
    decreases |ops|
  {
    if ops == [] then st else
    var last := ops[|ops| - 1];
    Step(Final(st, ops[..|ops| - 1]), last.input, last.output).1
  }

  /** The model accepts the operations one after the other. */
  ghost predicate Legal(st: KvState, ops: seq<Operation>)
  {
    forall n :: 0 <= n < |ops| ==> Step(Final(st, ops[..n]), ops[n].input, ops[n].output).0
  }

  lemma LegalAppend(st: KvState, ops: seq<Operation>, op: Operation)
    requires Legal(st, ops) && Step(Final(st, ops), op.input, op.output).0
    ensures Legal(st, ops + [op])
    ensures Final(st, ops + [op]) == Step(Final(st, ops), op.input, op.output).1
  {
    var all := ops + [op];
    assert all[..|ops|] == ops;
    forall n | 0 <= n < |all| ensures Step(Final(st, all[..n]), all[n].input, all[n].output).0 {
      if n < |ops| { assert all[..n] == ops[..n]; }
    }
  }

  /** The operations on one key, in order. */
  ghost function OnKey(ops: seq<Operation>, key: string): seq<Operation>
  {
    if ops == [] then [] else
    var rest := OnKey(ops[..|ops| - 1], key);
    if ops[|ops| - 1].input.key == key then rest + [ops[|ops| - 1]] else rest
  }

  ghost predicate DistinctKeys(keys: seq<string>)
  {
    forall i, j :: 0 <= i < j < |keys| ==> keys[i] != keys[j]
  }

  lemma MultisetDistinct(a: seq<string>, b: seq<string>)
    requires multiset(a) == multiset(b) && DistinctKeys(a)
    ensures DistinctKeys(b)
  {
    forall i, j | 0 <= i < j < |b| ensures b[i] != b[j] {
      if b[i] == b[j] {
        assert b == b[..i] + [b[i]] + b[i + 1..j] + [b[j]] + b[j + 1..];
        assert multiset(b)[b[i]] >= 2;
        CountAtMostOne(a, b[i]);
      }
    }
  }

  lemma {:induction false} CountAtMostOne(a: seq<string>, x: string)
    requires DistinctKeys(a)
    ensures multiset(a)[x] <= 1
  {
    if a != [] {
      var k := |a| - 1;
      assert a == a[..k] + [a[k]];
      CountAtMostOne(a[..k], x);
      if a[k] == x { assert x !in a[..k]; }
    }
  }

  ghost predicate Occurs(history: seq<Operation>, key: string)
  {
    exists i :: 0 <= i < |history| && history[i].input.key == key
  }

  lemma {:induction false} OnKeyEmpty(history: seq<Operation>, key: string)
    requires !Occurs(history, key)
    ensures OnKey(history, key) == []
  {
    if history != [] { OnKeyEmpty(history[..|history| - 1], key); }
  }

  /** Collects the operations of every key. */
  method GroupByKey(history: seq<Operation>) returns (m: map<string, seq<Operation>>)
    ensures forall k :: k in m <==> Occurs(history, k)
    ensures forall k :: k in m ==> m[k] == OnKey(history, k)
  {
    m := map[];
    for i := 0 to |history|
      invariant forall k :: k in m <==> Occurs(history[..i], k)
      invariant forall k :: k in m ==> m[k] == OnKey(history[..i], k)
    {
      var v := history[i];
      var key := v.input.key;
      ghost var next := history[..i + 1];
      assert next[..i] == history[..i] && next[i] == v;
      assert forall k :: Occurs(next, k) <==> k == key || Occurs(history[..i], k);
      if key !in m { OnKeyEmpty(history[..i], key); }
      m := m[key := (if key in m then m[key] else []) + [v]];
    }
    assert history[..|history|] == history;
  }

  /** `groups` are the operations of each key that occurs, in their order, and the keys are in order. */
  ghost predicate Split(history: seq<Operation>, groups: seq<seq<Operation>>)
  {
    && (forall i :: 0 <= i < |groups| ==> groups[i] != [] && groups[i] == OnKey(history, KeyOf(groups[i])))
    && (forall i, j :: 0 <= i < j < |groups| ==>
          KeyOf(groups[i]) != KeyOf(groups[j]) && StrLe(KeyOf(groups[i]), KeyOf(groups[j])))
    && forall k :: Occurs(history, k) ==> exists i :: 0 <= i < |groups| && groups[i] == OnKey(history, k)
  }

  function KeyOf(group: seq<Operation>): string { if group == [] then "" else group[0].input.key }

  lemma {:induction false} OnKeyThere(history: seq<Operation>, key: string)
    requires Occurs(history, key)
    ensures OnKey(history, key) != [] && KeyOf(OnKey(history, key)) == key
  {
    var m := |history| - 1;
    if Occurs(history[..m], key) { OnKeyThere(history[..m], key); } else { OnKeyEmpty(history[..m], key); }
  }

  lemma SplitByKeys(history: seq<Operation>, keys: seq<string>, groups: seq<seq<Operation>>)
    requires |groups| == |keys| && SortedStrings(keys) && DistinctKeys(keys)
    requires forall k :: k in keys <==> Occurs(history, k)
    requires forall i :: 0 <= i < |keys| ==> groups[i] == OnKey(history, keys[i])
    ensures Split(history, groups)
  {
    forall i | 0 <= i < |groups| ensures groups[i] != [] && KeyOf(groups[i]) == keys[i] {
      assert keys[i] in keys;
      OnKeyThere(history, keys[i]);
    }
    forall k | Occurs(history, k) ensures exists i :: 0 <= i < |groups| && groups[i] == OnKey(history, k) {
      assert k in keys;
      var i :| 0 <= i < |keys| && keys[i] == k;
      assert groups[i] == OnKey(history, k);
    }
  }

  /** Splits a history by key: one group per key that occurs, in key order; each group is the history's
      operations on that key in their order, so nothing is lost, duplicated or reordered. */
  method Partition(history: seq<Operation>) returns (groups: seq<seq<Operation>>)
    ensures Split(history, groups)
  {
    var m := GroupByKey(history);
    var unsorted := KeysOf(m.Keys);
    var names := SortStrings(unsorted);
    MultisetDistinct(unsorted, names);
    assert forall k :: k in names <==> k in multiset(names);
    groups := [];
    for i := 0 to |names|
      invariant |groups| == i
      invariant forall j :: 0 <= j < i ==> groups[j] == OnKey(history, names[j])
    {
      assert names[i] in names;
      groups := groups + [m[names[i]]];
    }
    SplitByKeys(history, names, groups);
  }

  /** The keys of a map, in whatever order the iteration yields them. */
  method KeysOf(keys: set<string>) returns (ks: seq<string>)
    ensures DistinctKeys(ks) && forall k :: k in multiset(ks) <==> k in keys
  {
    ks := [];
    var rest := keys;
    while rest != {}
      invariant rest <= keys && DistinctKeys(ks)
      invariant forall k :: k in ks <==> k in keys && k !in rest
      decreases |rest|
    {
      var k :| k in rest;
      ks := ks + [k];
      rest := rest - {k};
    }
  }
}
