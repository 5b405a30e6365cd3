/** The order in which operations take effect, and the proof that it is a linearization. */
module LinearOrder {
  import opened Rpc
  import KvServer
  import KvModel
  import O = Operations
  import opened Network
  import opened ClerkRuns
  import opened Linearizability

  type Nets = seq<Net<string>>
  type Labels = seq<Label<string>>
  type States = seq<O.State<string>>

  /** In step `u` the server answers `r` to a request of call `i`. */
  ghost predicate AnswersAt(cs: Nets, ls: Labels, u: nat, i: nat, r: Answer<string>)
    requires |cs| == |ls| + 1
  {
    && u < |ls| && ls[u].Handle? && ls[u].id.op == i && ls[u].id in cs[u].flight
    && KvServer.Reply(cs[u].m, cs[u].flight[ls[u].id]) == r
  }

  /** The server's answer that explains what an operation returned when none of its requests is applied. */
  ghost function Explains(op: Op): Answer<string>
    requires op.answer.Some?
  {
    if op.call.Get? then op.answer.value else Status(ErrVersion)
  }

  /** Step `u` is the moment at which operation `i` takes effect: the step that applies it, or else the
      first one whose answer explains what it returned. */
  ghost predicate IsPoint(cs: Nets, ls: Labels, op: Op, i: nat, u: nat)
    requires |cs| == |ls| + 1
  {
    AppliesAt(cs, ls, u, i) ||
    (&& (forall v: nat :: !AppliesAt(cs, ls, v, i))
     && op.answer.Some? && !NoKeyPut(op)
     && AnswersAt(cs, ls, u, i, Explains(op))
     && forall v: nat :: v < u ==> !AnswersAt(cs, ls, v, i, Explains(op)))
  }

  /** Some operation takes effect in step `u`. */
  ghost predicate PointAt(cs: Nets, ls: Labels, ops: seq<Op>, u: nat)
    requires |cs| == |ls| + 1
  {
    u < |ls| && ls[u].Handle? && ls[u].id.op < |ops| && IsPoint(cs, ls, ops[ls[u].id.op], ls[u].id.op, u)
  }

  /** The steps before `t` in which some operation takes effect. */
  ghost function Points(cs: Nets, ls: Labels, ops: seq<Op>, t: nat): (ps: seq<nat>)
    requires |cs| == |ls| + 1 && t <= |ls|
    ensures forall k :: 0 <= k < |ps| ==> ps[k] < t && PointAt(cs, ls, ops, ps[k])
    ensures forall j, k :: 0 <= j < k < |ps| ==> ps[j] < ps[k]
    ensures forall u: nat :: u < t && PointAt(cs, ls, ops, u) ==> u in ps
  {
    if t == 0 then [] else
    var ps := Points(cs, ls, ops, t - 1);
    if PointAt(cs, ls, ops, t - 1) then ps + [t - 1] else ps
  }

  ghost function Order(ls: Labels, ps: seq<nat>): seq<nat>
    requires forall k :: 0 <= k < |ps| ==> ps[k] < |ls| && ls[ps[k]].Handle?
  {
    seq(|ps|, k requires 0 <= k < |ps| => ls[ps[k]].id.op)
  }

  // ---- Points exist, are unique, and lie between call and return ----

  lemma PointUnique(cs: Nets, ls: Labels, ss: States, i: nat, u: nat, v: nat)
    requires Runs(cs, ls, ss) && i < |ss[|ls|].ops|
    requires IsPoint(cs, ls, ss[|ls|].ops[i], i, u) && IsPoint(cs, ls, ss[|ls|].ops[i], i, v)
    ensures u == v
  {
    if AppliesAt(cs, ls, u, i) && AppliesAt(cs, ls, v, i) {
      SameRequest(cs, ls, ss, u, |ls|, i);
      SameRequest(cs, ls, ss, v, |ls|, i);
      OnePerVersion(cs, ls, u, i, v, i);
    }
  }

  /** Every finished operation that the model has a case for takes effect. */
  lemma PointExists(cs: Nets, ls: Labels, ss: States, i: nat) returns (u: nat)
    requires Runs(cs, ls, ss) && i < |ss[|ls|].ops|
    requires ss[|ls|].ops[i].answer.Some? && !NoKeyPut(ss[|ls|].ops[i])
    ensures u < |ls| && ls[u].Handle? && ls[u].id.op == i && IsPoint(cs, ls, ss[|ls|].ops[i], i, u)
  {
    if v: nat :| AppliesAt(cs, ls, v, i) {
      u := v;
    } else {
      u := SomeAnswer(cs, ls, ss, i);
      u := FirstAnswer(cs, ls, i, Explains(ss[|ls|].ops[i]), u);
    }
  }

  lemma SomeAnswer(cs: Nets, ls: Labels, ss: States, i: nat) returns (u: nat)
    requires Runs(cs, ls, ss) && i < |ss[|ls|].ops|
    requires ss[|ls|].ops[i].answer.Some? && !NoKeyPut(ss[|ls|].ops[i])
    requires forall v: nat :: !AppliesAt(cs, ls, v, i)
    ensures u < ss[|ls|].ops[i].end && AnswersAt(cs, ls, u, i, Explains(ss[|ls|].ops[i]))
  {
    var op := ss[|ls|].ops[i];
    ReturnedAt(cs, ls, ss, |ls|, i);
    OpPersists(cs, ls, ss, op.end, |ls|, i);
    NotOk(cs, ls, ss, i);
    assert O.Saw(ss[op.end].ops[i], Explains(op)) by {
      if op.call.Get? { GetAnswers(cs, ls, ss, op.end, i, op.answer.value); }
    }
    var j :| 0 <= j < |ss[op.end].ops[i].execs| && ss[op.end].ops[i].execs[j] == Explains(op);
    u := ExecHappened(cs, ls, ss, op.end, i, j);
  }

  /** A Put of which nothing is applied returns ErrVersion or ErrMaybe (or ErrNoKey). */
  lemma NotOk(cs: Nets, ls: Labels, ss: States, i: nat)
    requires Runs(cs, ls, ss) && i < |ss[|ls|].ops| && ss[|ls|].ops[i].answer.Some?
    requires forall v: nat :: !AppliesAt(cs, ls, v, i)
    ensures var op := ss[|ls|].ops[i];
            op.call.Put? && !NoKeyPut(op) ==> O.Returned(op, Status(ErrVersion)) || O.Returned(op, Status(ErrMaybe))
  {
    var op := ss[|ls|].ops[i];
    if op.call.Put? {
      PutAnswerIsStatus(cs, ls, ss, |ls|, i);
      AsPutReturn(cs, ls, ss, |ls|, i);
      PutMeaning(cs, ls, op.end, i, op.answer.value.err);
    }
  }

  /** A Get returns one of the answers computed for it. */
  lemma GetAnswers(cs: Nets, ls: Labels, ss: States, t: nat, i: nat, a: Answer<string>)
    requires Runs(cs, ls, ss) && t <= |ls| && i < |ss[t].ops| && ss[t].ops[i].call.Get?
    requires O.MayReturn(ss[t].ops[i], a, ss[t].failures)
    ensures O.Saw(ss[t].ops[i], a)
  {
    OpAt(cs, ls, ss, t, i);
  }

  lemma {:induction false} FirstAnswer(cs: Nets, ls: Labels, i: nat, r: Answer<string>, u: nat) returns (w: nat)
    requires |cs| == |ls| + 1 && AnswersAt(cs, ls, u, i, r)
    ensures w <= u && AnswersAt(cs, ls, w, i, r) && forall v: nat :: v < w ==> !AnswersAt(cs, ls, v, i, r)
    decreases u
  {
    w := u;
    if v: nat :| v < u && AnswersAt(cs, ls, v, i, r) {
      w := FirstAnswer(cs, ls, i, r, v);
    }
  }

  lemma PointInside(cs: Nets, ls: Labels, ss: States, i: nat, u: nat)
    requires Runs(cs, ls, ss) && i < |ss[|ls|].ops| && Tame(cs, ls, i)
    requires u < |ls| && ls[u].Handle? && ls[u].id.op == i && IsPoint(cs, ls, ss[|ls|].ops[i], i, u)
    ensures var op := ss[|ls|].ops[i]; op.start < u && (op.answer.Some? ==> u < op.end)
  {
    var op := ss[|ls|].ops[i];
    HandleAt(cs, ls, ss, u);
    BeganAt(cs, ls, ss, u, i);
    OpPersists(cs, ls, ss, u, |ls|, i);
    if op.answer.Some? {
      if AppliesAt(cs, ls, u, i) {
        TameApplied(cs, ls, ss, |ls|, i, u);
      } else {
        var v := SomeAnswer(cs, ls, ss, i);
      }
    }
  }

  // ---- The model follows the server ----

  ghost function ModelState(s: O.State<string>, key: string): KvModel.KvState
  {
    var h := O.H(s, key);
    if h == [] then KvModel.Init() else KvModel.KvState(h[|h| - 1].value, |h|)
  }

  /** A step in which nothing takes effect changes no key. */
  lemma NoPointNoChange(cs: Nets, ls: Labels, ss: States, u: nat, key: string)
    requires Runs(cs, ls, ss) && u < |ls| && !PointAt(cs, ls, ss[|ls|].ops, u)
    ensures ModelState(ss[u + 1], key) == ModelState(ss[u], key)
  {
    assert OpStepAt(ss, ls, u);
    if ls[u].Handle? {
      var i := ls[u].id.op;
      HandleAt(cs, ls, ss, u);
      OpPersists(cs, ls, ss, u, |ls|, i);
      MessagesAt(cs, ls, ss, u);
      ServerAgrees(cs[u].m, ss[u], cs[u].flight[ls[u].id]);
      assert !AppliesAt(cs, ls, u, i);
    }
  }

  /** A step in which operation `i` takes effect is a step that the model accepts. */
  lemma PointStep(cs: Nets, ls: Labels, ss: States, u: nat, key: string)
    requires Runs(cs, ls, ss) && u < |ls| && PointAt(cs, ls, ss[|ls|].ops, u) && Tame(cs, ls, ls[u].id.op)
    ensures var x, st := AsOperation(ss[|ls|].ops[ls[u].id.op]), ModelState(ss[u], key);
            if x.input.key == key
            then KvModel.Step(st, x.input, x.output) == (true, ModelState(ss[u + 1], key))
                 && (x.input.op == 0 ==> x.output.version == st.version)
            else ModelState(ss[u + 1], key) == st
  {
    var i := ls[u].id.op;
    var op := ss[|ls|].ops[i];
    HandleAt(cs, ls, ss, u);
    OpPersists(cs, ls, ss, u, |ls|, i);
    ExecutedAt(cs, ls, ss, u);
    if AppliesAt(cs, ls, u, i) {
      if op.answer.Some? { TameApplied(cs, ls, ss, |ls|, i, u); }
    } else {
      NotOk(cs, ls, ss, i);
    }
  }

  /** The server's answer and effect in step `u`, in terms of the history of the key. */
  lemma ExecutedAt(cs: Nets, ls: Labels, ss: States, u: nat)
    requires Runs(cs, ls, ss) && u < |ls| && ls[u].Handle?
    ensures var i, s := ls[u].id.op, ss[u];
            && i < |s.ops| && ls[u].id in cs[u].flight && ss[u + 1] == O.Executed(s, i)
            && KvServer.Reply(cs[u].m, cs[u].flight[ls[u].id]) == O.ReplyTo(O.H(s, s.ops[i].call.key), s.ops[i].call)
  {
    assert OpStepAt(ss, ls, u) && StepAt(cs, ls, u);
    MessagesAt(cs, ls, ss, u);
    ServerAgrees(cs[u].m, ss[u], cs[u].flight[ls[u].id]);
  }

  // ---- The linearization ----

  /** The history in the order of the points before `t`. */
  ghost function Arranged(cs: Nets, ls: Labels, ops: seq<Op>, t: nat): seq<KvModel.Operation>
    requires |cs| == |ls| + 1 && t <= |ls|
  {
    Recorded(ops, Order(ls, Points(cs, ls, ops, t)))
  }

  lemma ArrangedStep(cs: Nets, ls: Labels, ops: seq<Op>, t: nat)
    requires |cs| == |ls| + 1 && t < |ls|
    ensures Arranged(cs, ls, ops, t + 1) ==
            if PointAt(cs, ls, ops, t) then Arranged(cs, ls, ops, t) + [AsOperation(ops[ls[t].id.op])]
            else Arranged(cs, ls, ops, t)
  {
  }

  lemma OnKeyAppend(ops: seq<KvModel.Operation>, x: KvModel.Operation, key: string)
    ensures KvModel.OnKey(ops + [x], key)
            == if x.input.key == key then KvModel.OnKey(ops, key) + [x] else KvModel.OnKey(ops, key)
  {
    assert (ops + [x])[..|ops|] == ops;
  }

  lemma VersionsRightAppend(part: seq<KvModel.Operation>, x: KvModel.Operation)
    requires VersionsRight(part)
    requires x.input.op == 0 ==> x.output.version == KvModel.Final(KvModel.Init(), part).version
    ensures VersionsRight(part + [x])
  {
    var all := part + [x];
    forall n | 0 <= n < |all| && all[n].input.op == 0
      ensures all[n].output.version == KvModel.Final(KvModel.Init(), all[..n]).version
    {
      assert all[..n] == if n < |part| then part[..n] else part;
    }
  }

  /** The model accepts the part of every key, and then holds what the server holds. */
  ghost predicate Follows(part: seq<KvModel.Operation>, s: O.State<string>, key: string)
  {
    && KvModel.Legal(KvModel.Init(), part) && VersionsRight(part)
    && KvModel.Final(KvModel.Init(), part) == ModelState(s, key)
  }

  ghost predicate FollowsAt(cs: Nets, ls: Labels, ss: States, t: nat, key: string)
    requires |cs| == |ls| + 1 == |ss| && t <= |ls|
  {
    Follows(KvModel.OnKey(Arranged(cs, ls, ss[|ls|].ops, t), key), ss[t], key)
  }

  lemma LegalPoint(cs: Nets, ls: Labels, ss: States, t: nat, key: string)
    requires Runs(cs, ls, ss) && t < |ls| && PointAt(cs, ls, ss[|ls|].ops, t) && Tame(cs, ls, ls[t].id.op)
    requires FollowsAt(cs, ls, ss, t, key)
    ensures FollowsAt(cs, ls, ss, t + 1, key)
  {
    var done := Arranged(cs, ls, ss[|ls|].ops, t);
    var x := AsOperation(ss[|ls|].ops[ls[t].id.op]);
    ArrangedStep(cs, ls, ss[|ls|].ops, t);
    PointStep(cs, ls, ss, t, key);
    OnKeyAppend(done, x, key);
    if x.input.key == key { FollowsAppend(KvModel.OnKey(done, key), x, ss[t], ss[t + 1], key); }
  }

  lemma LegalNoPoint(cs: Nets, ls: Labels, ss: States, t: nat, key: string)
    requires Runs(cs, ls, ss) && t < |ls| && !PointAt(cs, ls, ss[|ls|].ops, t)
    requires FollowsAt(cs, ls, ss, t, key)
    ensures FollowsAt(cs, ls, ss, t + 1, key)
  {
    ArrangedStep(cs, ls, ss[|ls|].ops, t);
    NoPointNoChange(cs, ls, ss, t, key);
  }

  lemma LegalStart(cs: Nets, ls: Labels, ops: seq<Op>, s: O.State<string>, key: string)
    requires |cs| == |ls| + 1 && O.H(s, key) == []
    ensures Follows(KvModel.OnKey(Arranged(cs, ls, ops, 0), key), s, key)
  {
    assert Arranged(cs, ls, ops, 0) == [];
  }

  lemma {:induction false} LegalUpTo(cs: Nets, ls: Labels, ss: States, t: nat, key: string)
    requires Runs(cs, ls, ss) && t <= |ls| && O.H(ss[0], key) == []
    requires forall i: nat :: Tame(cs, ls, i)
    ensures FollowsAt(cs, ls, ss, t, key)
  {
    if t == 0 {
      LegalStart(cs, ls, ss[|ls|].ops, ss[0], key);
    } else {
      LegalUpTo(cs, ls, ss, t - 1, key);
      if PointAt(cs, ls, ss[|ls|].ops, t - 1) {
        LegalPoint(cs, ls, ss, t - 1, key);
      } else {
        LegalNoPoint(cs, ls, ss, t - 1, key);
      }
    }
  }

  lemma FollowsAppend(part: seq<KvModel.Operation>, x: KvModel.Operation, s: O.State<string>, s': O.State<string>, key: string)
    requires Follows(part, s, key)
    requires KvModel.Step(ModelState(s, key), x.input, x.output) == (true, ModelState(s', key))
    requires x.input.op == 0 ==> x.output.version == ModelState(s, key).version
    ensures Follows(part + [x], s', key)
  {
    KvModel.LegalAppend(KvModel.Init(), part, x);
    VersionsRightAppend(part, x);
  }

  lemma OrderRealTime(cs: Nets, ls: Labels, ss: States, ps: seq<nat>)
    requires Runs(cs, ls, ss) && ps == Points(cs, ls, ss[|ls|].ops, |ls|)
    requires forall i: nat :: Tame(cs, ls, i)
    ensures forall j, k :: 0 <= j < k < |ps| ==> Order(ls, ps)[j] != Order(ls, ps)[k]
    ensures RealTime(ss[|ls|].ops, Order(ls, ps))
  {
    var order := Order(ls, ps);
    forall j, k | 0 <= j < k < |ps| ensures order[j] != order[k] {
      if order[j] == order[k] { PointUnique(cs, ls, ss, order[j], ps[j], ps[k]); }
    }
    forall a, b | 0 <= a < b < |order|
      ensures !(ss[|ls|].ops[order[b]].answer.Some? && ss[|ls|].ops[order[b]].end < ss[|ls|].ops[order[a]].start)
    {
      PointInside(cs, ls, ss, order[a], ps[a]);
      PointInside(cs, ls, ss, order[b], ps[b]);
    }
  }

  lemma OrderComplete(cs: Nets, ls: Labels, ss: States, ps: seq<nat>, i: nat)
    requires Runs(cs, ls, ss) && ps == Points(cs, ls, ss[|ls|].ops, |ls|) && i < |ss[|ls|].ops|
    requires ss[|ls|].ops[i].answer.Some? && !NoKeyPut(ss[|ls|].ops[i])
    ensures i in Order(ls, ps)
  {
    var u := PointExists(cs, ls, ss, i);
    assert PointAt(cs, ls, ss[|ls|].ops, u) && u in ps;
    var k :| 0 <= k < |ps| && ps[k] == u;
    assert Order(ls, ps)[k] == i;
  }

  /** Only operations that the model has a case for are arranged. */
  lemma OrderAdmissible(cs: Nets, ls: Labels, ss: States, u: nat)
    requires Runs(cs, ls, ss) && PointAt(cs, ls, ss[|ls|].ops, u) && Tame(cs, ls, ls[u].id.op)
    ensures var op := ss[|ls|].ops[ls[u].id.op]; !NoKeyPut(op) && (O.Pending(op) ==> op.call.Put?)
  {
    var i := ls[u].id.op;
    if AppliesAt(cs, ls, u, i) {
      SameRequest(cs, ls, ss, u, |ls|, i);
      if ss[|ls|].ops[i].answer.Some? { TameApplied(cs, ls, ss, |ls|, i, u); }
    }
  }

  /** Linearizability. Start from an empty server and let any number of clerks run over a network that
      drops requests and replies and runs handlers late. If every Put names a version its key had
      already reached, or is never handled late, then the history has a linearization. */
  lemma Linearizable(cs: Nets, ls: Labels) returns (ss: States, order: seq<nat>)
    requires Run(cs, ls) && cs[0].m == map[]
    requires forall i: nat :: Tame(cs, ls, i)
    ensures Runs(cs, ls, ss) && IsLinearization(ss[|ls|].ops, order)
  {
    ss := OperationsOf(cs, ls);
    var ops := ss[|ls|].ops;
    var ps := Points(cs, ls, ops, |ls|);
    order := Order(ls, ps);
    OrderRealTime(cs, ls, ss, ps);
    forall i: nat | i < |ops| && ops[i].answer.Some? && !NoKeyPut(ops[i]) ensures i in order {
      OrderComplete(cs, ls, ss, ps, i);
    }
    forall k | 0 <= k < |order|
      ensures order[k] < |ops| && !NoKeyPut(ops[order[k]]) && (O.Pending(ops[order[k]]) ==> ops[order[k]].call.Put?)
    {
      OrderAdmissible(cs, ls, ss, ps[k]);
    }
    forall key
      ensures var part := KvModel.OnKey(Recorded(ops, order), key);
              KvModel.Legal(KvModel.Init(), part) && VersionsRight(part)
    {
      assert O.H(ss[0], key) == [];
      LegalUpTo(cs, ls, ss, |ls|, key);
    }
  }
}
