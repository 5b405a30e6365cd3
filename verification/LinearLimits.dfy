/** Where linearizability stops: Puts answered ErrNoKey, and Puts from the future handled late. */
module LinearLimits {
  import opened Rpc
  import KvServer
  import KvModel
  import O = Operations
  import opened Network
  import opened ClerkRuns
  import opened Linearizability
  import opened LinearOrder

  /** The test's own question: can all operations be arranged in real time so that the model accepts? */
  ghost predicate Accepts(ops: seq<Op>, order: seq<nat>)
  {
    && (forall k :: 0 <= k < |order| ==> order[k] < |ops|)
    && (forall j, k :: 0 <= j < k < |order| ==> order[j] != order[k])
    && (forall i :: 0 <= i < |ops| ==> i in order)
    && RealTime(ops, order)
    && forall key :: KvModel.Legal(KvModel.Init(), KvModel.OnKey(Recorded(ops, order), key))
  }

  lemma {:induction false} OnKeyHas(ops: seq<KvModel.Operation>, n: nat) returns (k: nat)
    requires n < |ops|
    ensures var part := KvModel.OnKey(ops, ops[n].input.key); k < |part| && part[k] == ops[n]
  {
    var m := |ops| - 1;
    if n == m {
      k := |KvModel.OnKey(ops[..m], ops[n].input.key)|;
    } else {
      k := OnKeyHas(ops[..m], n);
    }
  }

  /** The model rejects every arrangement that contains a Put answered ErrNoKey. */
  lemma NoKeyRejected(ops: seq<Op>, order: seq<nat>, i: nat)
    requires Accepts(ops, order) && i < |ops|
    ensures !NoKeyPut(ops[i])
  {
    assert i in order;
    var n :| 0 <= n < |order| && order[n] == i;
    var recorded := Recorded(ops, order);
    var key := recorded[n].input.key;
    var k := OnKeyHas(recorded, n);
    var part := KvModel.OnKey(recorded, key);
    assert KvModel.Legal(KvModel.Init(), part);
    assert KvModel.Step(KvModel.Final(KvModel.Init(), part[..k]), part[k].input, part[k].output).0;
  }

  /** A finished history passes the test exactly when no Put in it was answered ErrNoKey. */
  lemma AcceptedExactly(cs: Nets, ls: Labels) returns (ss: States)
    requires Run(cs, ls) && cs[0].m == map[] && cs[|ls|].clerks == map[]
    requires forall i: nat :: Tame(cs, ls, i)
    ensures Runs(cs, ls, ss)
    ensures (exists order :: Accepts(ss[|ls|].ops, order)) <==> forall i :: 0 <= i < |ss[|ls|].ops| ==> !NoKeyPut(ss[|ls|].ops[i])
  {
    var order: seq<nat>;
    ss, order := Linearizable(cs, ls);
    var ops := ss[|ls|].ops;
    AllFinished(cs, ls, ss);
    if forall i :: 0 <= i < |ops| ==> !NoKeyPut(ops[i]) {
      assert Accepts(ops, order);
    }
    forall o, i: nat | Accepts(ops, o) && i < |ops| ensures !NoKeyPut(ops[i]) {
      NoKeyRejected(ops, o, i);
    }
  }

  lemma AllFinished(cs: Nets, ls: Labels, ss: States)
    requires Runs(cs, ls, ss) && cs[|ls|].clerks == map[]
    ensures forall i :: 0 <= i < |ss[|ls|].ops| ==> ss[|ls|].ops[i].answer.Some?
  {
    ClerksAt(cs, ls, ss, |ls|);
    assert ss[|ls|].cur.Keys == {};
  }

  // ---- A Put from the future, handled late ----

  const A := Put("k", "a", 0)
  const X := Put("k", "x", 2)
  const Y := Put("k", "y", 1)
  const G := Get("k")

  /** One client: Put a, Put x for a version not yet reached (its first RPC is abandoned and the resend
      rejected), Put y; then the abandoned handler runs, and the client reads. */
  ghost function LateLabels(): Labels
  {
    [Begin(0, A), Handle(Id(0, 0)), Return(0, Status(OK)),
     Begin(0, X), Retry(0, Abandoned), Handle(Id(1, 1)), Return(0, Status(ErrMaybe)),
     Begin(0, Y), Handle(Id(2, 0)), Return(0, Status(OK)),
     Handle(Id(1, 0)),
     Begin(0, G), Handle(Id(3, 0)), Return(0, Found("x", 3))]
  }

  ghost function LateStates(): Nets
  {
    var late := map[Id(1, 0) := X];
    var orphan := map[Id(1, 0) := Status(OK)];
    var m1, m2, m3 := map["k" := Entry("a", 1)], map["k" := Entry("y", 2)], map["k" := Entry("x", 3)];
    [Net(map[], map[], map[], map[], 0),
     Net(map[], map[0 := Clerk(A, 0, 0)], map[Id(0, 0) := A], map[], 1),
     Net(m1, map[0 := Clerk(A, 0, 0)], map[], map[Id(0, 0) := Status(OK)], 1),
     Net(m1, map[], map[], map[], 1),
     Net(m1, map[0 := Clerk(X, 1, 0)], late, map[], 2),
     Net(m1, map[0 := Clerk(X, 1, 1)], late[Id(1, 1) := X], map[], 2),
     Net(m1, map[0 := Clerk(X, 1, 1)], late, map[Id(1, 1) := Status(ErrVersion)], 2),
     Net(m1, map[], late, map[], 2),
     Net(m1, map[0 := Clerk(Y, 2, 0)], late[Id(2, 0) := Y], map[], 3),
     Net(m2, map[0 := Clerk(Y, 2, 0)], late, map[Id(2, 0) := Status(OK)], 3),
     Net(m2, map[], late, map[], 3),
     Net(m3, map[], map[], orphan, 3),
     Net(m3, map[0 := Clerk(G, 3, 0)], map[Id(3, 0) := G], orphan, 4),
     Net(m3, map[0 := Clerk(G, 3, 0)], map[], orphan[Id(3, 0) := Found("x", 3)], 4),
     Net(m3, map[], map[], orphan, 4)]
  }

  lemma LateRunFirst(t: nat)
    requires t < 7
    ensures StepAt(LateStates(), LateLabels(), t)
  {
  }

  lemma LateRunSecond(t: nat)
    requires 7 <= t < 14
    ensures StepAt(LateStates(), LateLabels(), t)
  {
  }

  lemma LateRun()
    ensures Run(LateStates(), LateLabels())
  {
    forall t: nat | t < |LateLabels()| ensures StepAt(LateStates(), LateLabels(), t) {
      if t < 7 { LateRunFirst(t); } else { LateRunSecond(t); }
    }
  }

  /** Where the four calls begin and return, and what they return. */
  ghost predicate LateOps(ops: seq<Op>)
  {
    && |ops| == 4
    && ops[0].call == A && ops[0].start == 0 && ops[0].end == 2 && ops[0].answer == Some(Status(OK))
    && ops[1].call == X && ops[1].start == 3 && ops[1].end == 6 && ops[1].answer == Some(Status(ErrMaybe))
    && ops[2].call == Y && ops[2].start == 7 && ops[2].end == 9 && ops[2].answer == Some(Status(OK))
    && ops[3].call == G && ops[3].start == 11 && ops[3].end == 13 && ops[3].answer == Some(Found("x", 3))
  }

  lemma LateStart(ss: States, i: nat)
    requires Runs(LateStates(), LateLabels(), ss) && i < 4 && |ss[14].ops| == 4
    ensures ss[14].ops[i].start == [0, 3, 7, 11][i] && ss[14].ops[i].call == [A, X, Y, G][i]
  {
    BeganAt(LateStates(), LateLabels(), ss, 14, i);
    assert ss[14].ops[i].start == [0, 3, 7, 11][i];
  }

  lemma LateEnd(ss: States, i: nat)
    requires Runs(LateStates(), LateLabels(), ss) && i < 4 && |ss[14].ops| == 4 && ss[14].ops[i].answer.Some?
    ensures var op, e := ss[14].ops[i], [2, 6, 9, 13];
            op.end == e[i] && LateLabels()[e[i]] == Return(op.client, op.answer.value)
  {
    var op := ss[14].ops[i];
    ReturnedAt(LateStates(), LateLabels(), ss, 14, i);
    LateClerk(ss, op.end, op.client, i);
    assert op.end == [2, 6, 9, 13][i];
  }

  lemma LateClerk(ss: States, t: nat, client: nat, i: nat)
    requires Runs(LateStates(), LateLabels(), ss) && t < 14 && client in ss[t].cur && ss[t].cur[client] == i
    ensures client in LateStates()[t].clerks && LateStates()[t].clerks[client].op == i
  {
    ClerksAt(LateStates(), LateLabels(), ss, t);
  }

  lemma LateHistory() returns (ss: States)
    ensures Runs(LateStates(), LateLabels(), ss) && LateOps(ss[14].ops)
  {
    LateRun();
    ss := OperationsOf(LateStates(), LateLabels());
    AllFinished(LateStates(), LateLabels(), ss);
    MessagesAt(LateStates(), LateLabels(), ss, 14);
    LateStart(ss, 0);
    LateStart(ss, 1);
    LateStart(ss, 2);
    LateStart(ss, 3);
    LateEnd(ss, 0);
    LateEnd(ss, 1);
    LateEnd(ss, 2);
    LateEnd(ss, 3);
  }

  /** Calls made one after the other can only be arranged one after the other. */
  lemma LateOrder(ops: seq<Op>, order: seq<nat>)
    requires LateOps(ops) && IsLinearization(ops, order)
    ensures order == [0, 1, 2, 3]
  {
    assert 0 in order && 1 in order && 2 in order && 3 in order;
    assert forall a, b :: 0 <= a < b < |order| ==> order[a] < order[b];
    FourAscending(order);
  }

  lemma FourAscending(order: seq<nat>)
    requires forall a, b :: 0 <= a < b < |order| ==> order[a] < order[b]
    requires forall k :: 0 <= k < |order| ==> order[k] < 4
    requires 0 in order && 1 in order && 2 in order && 3 in order
    ensures order == [0, 1, 2, 3]
  {
    var w :| 0 <= w < |order| && order[w] == 0;
    var x :| 0 <= x < |order| && order[x] == 1;
    var y :| 0 <= y < |order| && order[y] == 2;
    var z :| 0 <= z < |order| && order[z] == 3;
    assert w < x < y < z;
    assert order[0] < order[1] < order[2] < order[3];
    AscendingAtLeast(order, |order| - 1);
  }

  lemma {:induction false} AscendingAtLeast(order: seq<nat>, k: nat)
    requires k < |order| && forall a, b :: 0 <= a < b < |order| ==> order[a] < order[b]
    ensures order[k] >= k
  {
    if k > 0 { AscendingAtLeast(order, k - 1); }
  }

  /** The model cannot follow: after Put y it holds y, but the Get returned x. */
  lemma LateIllegal(ops: seq<Op>)
    requires LateOps(ops)
    ensures !KvModel.Legal(KvModel.Init(), KvModel.OnKey(Recorded(ops, [0, 1, 2, 3]), "k"))
  {
    var o := Recorded(ops, [0, 1, 2, 3]);
    OneKeyOnly(o, "k");
    LateFinal(o);
    assert !KvModel.Step(KvModel.Final(KvModel.Init(), o[..3]), o[3].input, o[3].output).0;
  }

  lemma {:induction false} OneKeyOnly(o: seq<KvModel.Operation>, key: string)
    requires forall n :: 0 <= n < |o| ==> o[n].input.key == key
    ensures KvModel.OnKey(o, key) == o
  {
    if o != [] {
      OneKeyOnly(o[..|o| - 1], key);
      assert o == o[..|o| - 1] + [o[|o| - 1]];
    }
  }

  lemma LateFinal(o: seq<KvModel.Operation>)
    requires |o| == 4 && forall n :: 0 <= n < 3 ==> o[n].input == KvModel.KvInput(1, "k", ["a", "x", "y"][n], [0, 2, 1][n])
    ensures KvModel.Final(KvModel.Init(), o[..3]) == KvModel.KvState("y", 2)
  {
    assert o[..1][..0] == o[..0] == [] && o[..2][..1] == o[..1] && o[..3][..2] == o[..2];
    assert KvModel.Final(KvModel.Init(), o[..1]) == KvModel.KvState("a", 1);
    assert KvModel.Final(KvModel.Init(), o[..2]) == KvModel.KvState("a", 1);
  }

  /** Without the condition the history need not be linearizable: this one is not. */
  lemma FutureLateNotLinearizable() returns (ss: States)
    ensures Runs(LateStates(), LateLabels(), ss) && LateStates()[0].m == map[]
    ensures !Tame(LateStates(), LateLabels(), 1)
    ensures forall order :: !IsLinearization(ss[14].ops, order)
  {
    ss := LateHistory();
    forall order ensures !IsLinearization(ss[14].ops, order) {
      if IsLinearization(ss[14].ops, order) {
        LateOrder(ss[14].ops, order);
        LateIllegal(ss[14].ops);
        assert false;
      }
    }
    LateNotTame();
  }

  lemma LateNotTame()
    ensures !Tame(LateStates(), LateLabels(), 1)
  {
    var cs, ls := LateStates(), LateLabels();
    assert ls[3] == Begin(0, X) && cs[3].next == 1;
    assert KvServer.VersionOf(cs[3].m, "k") == 1;
    assert ls[10] == Handle(Id(1, 0)) && cs[10].clerks == map[];
  }
}
