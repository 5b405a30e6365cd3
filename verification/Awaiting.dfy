/** What a client that waits for a clerk call can count on. */
module Awaiting {
  import opened Rpc
  import O = Operations

  ghost predicate Awaits<V>(s: O.State<V>, c: nat, call: Call<V>)
  {
    c in s.cur && s.cur[c] < |s.ops| && s.ops[s.cur[c]].call == call
  }

  /** The version of the key when the client's current operation began. */
  ghost function Base<V>(s: O.State<V>, c: nat): nat
    requires c in s.cur && s.cur[c] < |s.ops|
  {
    s.ops[s.cur[c]].base
  }

  /** The write at version `v` is that of the client's current operation. */
  ghost predicate Wrote<V>(s: O.State<V>, h: seq<O.Write<V>>, c: nat, v: nat)
  {
    v < |h| && c in s.cur && h[v].op == s.cur[c]
  }

  /** A Put that has been answered is past: applied, or too old. */
  lemma PutPast<V>(s: O.State<V>, c: nat, key: string, value: V, v: nat, a: Answer<V>)
    requires O.OpsOk(s) && Awaits(s, c, Put(key, value, v)) && v <= Base(s, c)
    requires O.MayReturn(s.ops[s.cur[c]], a, s.failures)
    ensures v < |O.H(s, key)| && a.Status? && (a == Status(ErrNoKey) ==> Base(s, c) == 0 != v)
    ensures a == Status(OK) ==> Wrote(s, O.H(s, key), c, v)
    ensures a == Status(ErrVersion) ==> !Wrote(s, O.H(s, key), c, v)
  {
    var i := s.cur[c];
    assert O.OpOk(s.ops[i], i, O.H(s, key), s.failures);
  }

  lemma GetFound<V>(s: O.State<V>, c: nat, key: string, a: Answer<V>)
    requires O.OpsOk(s) && Awaits(s, c, Get(key)) && O.MayReturn(s.ops[s.cur[c]], a, s.failures)
    ensures a.Found? ==> Base(s, c) <= a.version && 1 <= a.version <= |O.H(s, key)| && O.H(s, key)[a.version - 1].value == a.value
    ensures Base(s, c) > 0 ==> a.Found?
  {
    var i := s.cur[c];
    assert O.OpOk(s.ops[i], i, O.H(s, key), s.failures);
  }
}
