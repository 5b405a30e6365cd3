/** Linearizability: every history of the clerks splits by key into runs that `KvModel` accepts, each
    operation taking effect between its call and its return. */
module Linearizability {
  import opened Rpc
  import KvServer
  import KvModel
  import O = Operations
  import opened Network
  import opened ClerkRuns

  type Op = O.Op<string>

  /** An operation as the tests record it. A Put that has not returned may return ErrMaybe. */
  ghost function AsOperation(op: Op): KvModel.Operation
  {
    var input := match op.call
      case Get(key) => KvModel.KvInput(0, key, "", 0)
      case Put(key, value, version) => KvModel.KvInput(1, key, value, version);
    var output := match op.answer
      case None => KvModel.KvOutput("", 0, ErrMaybe)
      case Some(Found(value, version)) => KvModel.KvOutput(value, version, OK)
      case Some(Status(err)) => KvModel.KvOutput("", 0, err);
    KvModel.Operation(op.client, input, op.start, output, op.end)
  }

  ghost predicate NoKeyPut(op: Op) { op.call.Put? && O.Returned(op, Status(ErrNoKey)) }

  ghost function Recorded(ops: seq<Op>, order: seq<nat>): seq<KvModel.Operation>
    requires forall k :: 0 <= k < |order| ==> order[k] < |ops|
  {
    seq(|order|, k requires 0 <= k < |order| => AsOperation(ops[order[k]]))
  }

  /** No operation is ordered before one that had returned when it began. */
  ghost predicate RealTime(ops: seq<Op>, order: seq<nat>)
    requires forall k :: 0 <= k < |order| ==> order[k] < |ops|
  {
    forall a, b :: 0 <= a < b < |order| ==>
      !(ops[order[b]].answer.Some? && ops[order[b]].end < ops[order[a]].start)
  }

  /** Gets return the version along with the value. */
  ghost predicate VersionsRight(ops: seq<KvModel.Operation>)
  {
    forall n :: 0 <= n < |ops| && ops[n].input.op == 0 ==>
      ops[n].output.version == KvModel.Final(KvModel.Init(), ops[..n]).version
  }

  /** `order` arranges every finished operation (Puts answered ErrNoKey excepted, which the model has no
      case for) and some unfinished Puts so that the model accepts each key's part. */
  ghost predicate IsLinearization(ops: seq<Op>, order: seq<nat>)
  {
    && (forall k :: 0 <= k < |order| ==> order[k] < |ops|)
    && (forall j, k :: 0 <= j < k < |order| ==> order[j] != order[k])
    && (forall i :: 0 <= i < |ops| && ops[i].answer.Some? && !NoKeyPut(ops[i]) ==> i in order)
    && (forall k :: 0 <= k < |order| ==>
          !NoKeyPut(ops[order[k]]) && (O.Pending(ops[order[k]]) ==> ops[order[k]].call.Put?))
    && RealTime(ops, order)
    && forall key :: var part := KvModel.OnKey(Recorded(ops, order), key);
                     KvModel.Legal(KvModel.Init(), part) && VersionsRight(part)
  }

  // ---- The condition ----

  /** Every Put of call `i` names a version the key had already reached when the call began. */
  ghost predicate NotFromFuture(cs: seq<Net<string>>, ls: seq<Label<string>>, i: nat)
    requires |cs| == |ls| + 1
  {
    forall b :: 0 <= b < |ls| && ls[b].Begin? && cs[b].next == i && ls[b].call.Put? ==>
      ls[b].call.version <= KvServer.VersionOf(cs[b].m, ls[b].call.key)
  }

  /** The handler of an RPC of call `i` runs only while the clerk still waits for that RPC. */
  ghost predicate NeverLate(cs: seq<Net<string>>, ls: seq<Label<string>>, i: nat)
    requires |cs| == |ls| + 1
  {
    forall u :: 0 <= u < |ls| && ls[u].Handle? && ls[u].id.op == i ==> IsCurrent(cs[u], ls[u].id)
  }

  ghost predicate IsCurrent(c: Net<string>, id: Id)
  {
    exists client :: client in c.clerks && c.clerks[client].Current() == id
  }

  ghost predicate Tame(cs: seq<Net<string>>, ls: seq<Label<string>>, i: nat)
    requires |cs| == |ls| + 1
  {
    NotFromFuture(cs, ls, i) || NeverLate(cs, ls, i)
  }

  // ---- When operations begin and return ----

  /** Operation `i` began in step `start`, as call number `i`. */
  lemma {:induction false} BeganAt(cs: seq<Net<string>>, ls: seq<Label<string>>, ss: seq<O.State<string>>, t: nat, i: nat)
    requires Runs(cs, ls, ss) && t <= |ls| && i < |ss[t].ops|
    ensures var op := ss[t].ops[i];
            && op.start < t && ls[op.start] == Begin(op.client, op.call) && cs[op.start].next == i
            && op.base == KvServer.VersionOf(cs[op.start].m, op.call.key)
    ensures ss[t].now == t
    decreases t
  {
    Clock(cs, ls, ss, t);
    assert t > 0;
    if i < |ss[t - 1].ops| {
      BeganAt(cs, ls, ss, t - 1, i);
      OpPersists(cs, ls, ss, t - 1, t, i);
    } else {
      Clock(cs, ls, ss, t - 1);
      NewOpFacts(cs, ls, ss, t - 1);
    }
  }

  lemma {:induction false} Clock(cs: seq<Net<string>>, ls: seq<Label<string>>, ss: seq<O.State<string>>, t: nat)
    requires Runs(cs, ls, ss) && t <= |ls|
    ensures ss[t].now == t
  {
    if t > 0 {
      Clock(cs, ls, ss, t - 1);
      assert OpStepAt(ss, ls, t - 1);
    }
  }

  /** The step that adds an operation. */
  lemma NewOpFacts(cs: seq<Net<string>>, ls: seq<Label<string>>, ss: seq<O.State<string>>, b: nat)
    requires Runs(cs, ls, ss) && b < |ls| && |ss[b + 1].ops| > |ss[b].ops|
    ensures var s, s' := ss[b], ss[b + 1];
            && ls[b].Begin? && cs[b].next == |s.ops| && |s'.ops| == |s.ops| + 1
            && var op := s'.ops[|s.ops|];
               && op.start == s.now && ls[b] == Begin(op.client, op.call)
               && op.base == KvServer.VersionOf(cs[b].m, op.call.key)
  {
    var s := ss[b];
    assert OpStepAt(ss, ls, b);
    MessagesAt(cs, ls, ss, b);
    assert ls[b].Begin?;
    ServerAgrees(cs[b].m, s, ls[b].call);
  }

  /** Operation `i` returned in step `end`; until then it was pending, and its answer was justified. */
  lemma {:induction false} ReturnedAt(cs: seq<Net<string>>, ls: seq<Label<string>>, ss: seq<O.State<string>>, t: nat, i: nat)
    requires Runs(cs, ls, ss) && t <= |ls| && i < |ss[t].ops| && ss[t].ops[i].answer.Some?
    ensures var op := ss[t].ops[i];
            && op.end < t && ls[op.end] == Return(op.client, op.answer.value)
            && i < |ss[op.end + 1].ops| && ss[op.end + 1].ops[i].answer == op.answer
            && var s := ss[op.end];
               && i < |s.ops| && O.Pending(s.ops[i]) && op.client in s.cur && s.cur[op.client] == i
               && O.MayReturn(s.ops[i], op.answer.value, s.failures)
    decreases t
  {
    var s := ss[t - 1];
    if i < |s.ops| && s.ops[i].answer.Some? {
      ReturnedAt(cs, ls, ss, t - 1, i);
      OpPersists(cs, ls, ss, t - 1, t, i);
    } else {
      ReturningAt(cs, ls, ss, t - 1, i);
    }
  }

  lemma ReturningAt(cs: seq<Net<string>>, ls: seq<Label<string>>, ss: seq<O.State<string>>, e: nat, i: nat)
    requires Runs(cs, ls, ss) && e < |ls| && i < |ss[e + 1].ops| && ss[e + 1].ops[i].answer.Some?
    requires i < |ss[e].ops| ==> O.Pending(ss[e].ops[i])
    ensures var s, op := ss[e], ss[e + 1].ops[i];
            && op.end == e && ls[e] == Return(op.client, op.answer.value)
            && i < |s.ops| && op.client in s.cur && s.cur[op.client] == i
            && O.MayReturn(s.ops[i], op.answer.value, s.failures)
  {
    Clock(cs, ls, ss, e);
    assert OpStepAt(ss, ls, e);
    ClerksAt(cs, ls, ss, e);
    ReturningStep(ss[e], Abstract(ls[e]), ss[e + 1], i);
  }

  lemma ReturningStep(s: O.State<string>, l: O.Label<string>, s': O.State<string>, i: nat)
    requires O.Step(s, l, s') && O.CurrentOps(s) && i < |s'.ops| && s'.ops[i].answer.Some?
    requires i < |s.ops| ==> O.Pending(s.ops[i])
    ensures i < |s.ops| && l == O.Return(s'.ops[i].client, s'.ops[i].answer.value)
    ensures l.client in s.cur && s.cur[l.client] == i && s'.ops[i].end == s.now
    ensures O.MayReturn(s.ops[i], l.answer, s.failures)
  {
  }

  // ---- Tame operations take effect before they return ----

  lemma AsPutReturn(cs: seq<Net<string>>, ls: seq<Label<string>>, ss: seq<O.State<string>>, t: nat, i: nat)
    requires Runs(cs, ls, ss) && t <= |ls| && i < |ss[t].ops|
    requires var op := ss[t].ops[i]; op.call.Put? && op.answer.Some? && op.answer.value.Status?
    ensures var op := ss[t].ops[i]; PutReturnsAt(cs, ls, op.end, i, op.answer.value.err)
  {
    ReturnedAt(cs, ls, ss, t, i);
    var op := ss[t].ops[i];
    ClerksAt(cs, ls, ss, op.end);
    OpPersists(cs, ls, ss, op.end, t, i);
  }

  /** The answer a Put was given, as a status. */
  lemma PutAnswerIsStatus(cs: seq<Net<string>>, ls: seq<Label<string>>, ss: seq<O.State<string>>, t: nat, i: nat)
    requires Runs(cs, ls, ss) && t <= |ls| && i < |ss[t].ops|
    requires var op := ss[t].ops[i]; op.call.Put? && op.answer.Some?
    ensures ss[t].ops[i].answer.value.Status?
  {
    OpAt(cs, ls, ss, t, i);
  }

  /** When a request is applied, the history of its key is exactly as long as its version. */
  lemma AppliedVersion(cs: seq<Net<string>>, ls: seq<Label<string>>, ss: seq<O.State<string>>, u: nat, i: nat)
    requires Runs(cs, ls, ss) && AppliesAt(cs, ls, u, i)
    ensures var s := ss[u];
            i < |s.ops| && s.ops[i].call.Put? && |O.H(s, s.ops[i].call.key)| == s.ops[i].call.version
  {
    HandleAt(cs, ls, ss, u);
    MessagesAt(cs, ls, ss, u);
    ServerAgrees(cs[u].m, ss[u], cs[u].flight[ls[u].id]);
  }

  /** A Put that is not from the future is not applied after it has returned, and never answered ErrNoKey. */
  lemma NotFutureNotLate(cs: seq<Net<string>>, ls: seq<Label<string>>, ss: seq<O.State<string>>, t: nat, i: nat, u: nat)
    requires Runs(cs, ls, ss) && NotFromFuture(cs, ls, i) && t <= |ls| && i < |ss[t].ops|
    requires var op := ss[t].ops[i]; op.call.Put? && op.answer.Some?
    requires AppliesAt(cs, ls, u, i)
    ensures var op := ss[t].ops[i]; u < op.end && op.answer.value != Status(ErrNoKey)
  {
    var op := ss[t].ops[i];
    BeganAt(cs, ls, ss, t, i);
    ReturnedAt(cs, ls, ss, t, i);
    PutAnswerIsStatus(cs, ls, ss, t, i);
    AsPutReturn(cs, ls, ss, t, i);
    PutMeaning(cs, ls, op.end, i, op.answer.value.err);
    MaybeIsPast(cs, ls, ss, t, i);
    if u >= op.end {
      AppliedVersion(cs, ls, ss, u, i);
      OpPersists(cs, ls, ss, op.end, u, i);
      OpPersists(cs, ls, ss, op.end, t, i);
      HistoryGrows(cs, ls, ss, op.end, u, op.call.key);
    }
  }

  /** What the answer said about the key when it was returned. */
  lemma MaybeIsPast(cs: seq<Net<string>>, ls: seq<Label<string>>, ss: seq<O.State<string>>, t: nat, i: nat)
    requires Runs(cs, ls, ss) && t <= |ls| && i < |ss[t].ops|
    requires var op := ss[t].ops[i];
             op.call.Put? && op.answer.Some? && op.call.version <= op.base
    ensures var op := ss[t].ops[i];
            && op.answer.value != Status(ErrNoKey)
            && (op.answer.value == Status(ErrMaybe) ==> op.end <= |ls| && op.call.version < |O.H(ss[op.end], op.call.key)|)
  {
    var op := ss[t].ops[i];
    ReturnedAt(cs, ls, ss, t, i);
    OpPersists(cs, ls, ss, op.end, t, i);
    OpAt(cs, ls, ss, op.end, i);
  }

  /** While handlers run only for the current RPC, the reply under way is the last answer computed. */
  ghost predicate LastTry(c: Net<string>, s: O.State<string>, i: nat)
  {
    forall cl :: cl in c.clerks && c.clerks[cl].op == i && c.clerks[cl].Current() in c.replies ==>
      && i < |s.ops| && s.ops[i].execs != []
      && s.ops[i].execs[|s.ops[i].execs| - 1] == c.replies[c.clerks[cl].Current()]
  }

  lemma LastTryHandle(c: Net<string>, id: Id, s: O.State<string>, i: nat)
    requires id in c.flight && FlightOk(c.flight, s.ops) && ClerksOk(c.clerks, s) && O.CurrentOps(s) && TableIs(c.m, s)
    requires LastTry(c, s, i) && (id.op == i ==> IsCurrent(c, id))
    ensures LastTry(Handled(c, id), O.Executed(s, id.op), i)
  {
    var c', s' := Handled(c, id), O.Executed(s, id.op);
    HandleRecord(c, id, s);
    forall cl | cl in c'.clerks && c'.clerks[cl].op == i && c'.clerks[cl].Current() in c'.replies
      ensures i < |s'.ops| && s'.ops[i].execs != []
              && s'.ops[i].execs[|s'.ops[i].execs| - 1] == c'.replies[c'.clerks[cl].Current()]
    {
      if id.op == i { OneClerkEach(c, cl, s); }
    }
  }

  lemma LastTryRetry(c: Net<string>, client: nat, fate: Fate, s: O.State<string>, i: nat)
    requires client in c.clerks && TriesOk(c.clerks, c.flight.Keys + c.replies.Keys) && LastTry(c, s, i)
    ensures LastTry(Resent(c, client, fate), s.(now := s.now + 1, failures := true), i)
  {
    var k := c.clerks[client];
    assert Id(k.op, k.tries + 1) !in c.flight.Keys + c.replies.Keys;
  }

  lemma LastTryBegin(c: Net<string>, client: nat, call: Call<string>, s: O.State<string>, i: nat)
    requires client !in c.clerks && LastTry(c, s, i) && Id(c.next, 0) !in c.replies
    ensures LastTry(Begun(c, client, call), O.Began(s, client, call), i)
  {
    var c', s' := Begun(c, client, call), O.Began(s, client, call);
    assert forall j :: 0 <= j < |s.ops| ==> s'.ops[j] == s.ops[j];
  }

  lemma LastTryReturn(c: Net<string>, client: nat, a: Answer<string>, s: O.State<string>, i: nat)
    requires client in c.clerks && client in s.cur && s.cur[client] < |s.ops| && LastTry(c, s, i)
    ensures LastTry(Answered(c, client), O.Answered(s, client, a), i)
  {
    var s' := O.Answered(s, client, a);
    assert forall j :: 0 <= j < |s.ops| ==> s'.ops[j].execs == s.ops[j].execs;
  }

  lemma {:induction false} LastTryHolds(cs: seq<Net<string>>, ls: seq<Label<string>>, ss: seq<O.State<string>>, t: nat, i: nat)
    requires Runs(cs, ls, ss) && NeverLate(cs, ls, i) && t <= |ls|
    ensures LastTry(cs[t], ss[t], i)
  {
    if t > 0 {
      LastTryHolds(cs, ls, ss, t - 1, i);
      LastTryOnce(cs, ls, ss, t - 1, i);
    }
  }

  lemma LastTryOnce(cs: seq<Net<string>>, ls: seq<Label<string>>, ss: seq<O.State<string>>, t: nat, i: nat)
    requires Runs(cs, ls, ss) && NeverLate(cs, ls, i) && t < |ls| && LastTry(cs[t], ss[t], i)
    ensures LastTry(cs[t + 1], ss[t + 1], i)
  {
    assert StepAt(cs, ls, t) && OpStepAt(ss, ls, t);
    MessagesAt(cs, ls, ss, t);
    ClerksAt(cs, ls, ss, t);
    LastTryStep(cs[t], ls[t], cs[t + 1], ss[t], ss[t + 1], i);
  }

  lemma LastTryStep(c: Net<string>, l: Label<string>, c': Net<string>, s: O.State<string>, s': O.State<string>, i: nat)
    requires Step(c, l, c') && O.Step(s, Abstract(l), s') && LastTry(c, s, i)
    requires FlightOk(c.flight, s.ops) && RepliesOk(c.replies, s.ops) && |s.ops| == c.next && TableIs(c.m, s)
    requires ClerksOk(c.clerks, s) && TriesOk(c.clerks, c.flight.Keys + c.replies.Keys) && O.CurrentOps(s)
    requires l.Handle? && l.id.op == i ==> IsCurrent(c, l.id)
    ensures LastTry(c', s', i)
  {
    match l
    case Begin(client, call) => LastTryBegin(c, client, call, s, i);
    case Handle(id) => LastTryHandle(c, id, s, i);
    case Retry(client, fate) => LastTryRetry(c, client, fate, s, i);
    case Return(client, a) => LastTryReturn(c, client, a, s, i);
  }

  /** The same for a Put none of whose handlers run late. */
  lemma NeverLateNotLate(cs: seq<Net<string>>, ls: seq<Label<string>>, ss: seq<O.State<string>>, t: nat, i: nat, u: nat)
    requires Runs(cs, ls, ss) && NeverLate(cs, ls, i) && t <= |ls| && i < |ss[t].ops|
    requires var op := ss[t].ops[i]; op.call.Put? && op.answer.Some?
    requires AppliesAt(cs, ls, u, i)
    ensures var op := ss[t].ops[i]; u < op.end && op.answer.value != Status(ErrNoKey)
  {
    var op := ss[t].ops[i];
    ReturnedAt(cs, ls, ss, t, i);
    if u >= op.end {
      CurrentIsPending(cs, ls, ss, u, i);
      OpPersists(cs, ls, ss, op.end + 1, u, i);
    } else if op.answer.value == Status(ErrNoKey) {
      LastIsNoKey(cs, ls, ss, op.end, i);
      OpPersists(cs, ls, ss, op.end, t, i);
      NoKeyNotApplied(cs, ls, ss, op.end, i, u);
    }
  }

  lemma CurrentIsPending(cs: seq<Net<string>>, ls: seq<Label<string>>, ss: seq<O.State<string>>, u: nat, i: nat)
    requires Runs(cs, ls, ss) && u < |ls| && ls[u].Handle? && ls[u].id.op == i && IsCurrent(cs[u], ls[u].id)
    ensures i < |ss[u].ops| && O.Pending(ss[u].ops[i])
  {
    ClerksAt(cs, ls, ss, u);
  }

  /** If call `i` returns ErrNoKey, the last answer computed for it was ErrNoKey. */
  lemma LastIsNoKey(cs: seq<Net<string>>, ls: seq<Label<string>>, ss: seq<O.State<string>>, e: nat, i: nat)
    requires Runs(cs, ls, ss) && NeverLate(cs, ls, i) && e < |ls| && ls[e].Return?
    requires ls[e].client in ss[e].cur && ss[e].cur[ls[e].client] == i
    requires ls[e].answer == Status(ErrNoKey)
    ensures var s := ss[e];
            i < |s.ops| && s.ops[i].execs != [] && s.ops[i].execs[|s.ops[i].execs| - 1] == Status(ErrNoKey)
  {
    LastTryHolds(cs, ls, ss, e, i);
    ClerksAt(cs, ls, ss, e);
    assert StepAt(cs, ls, e);
    ReturnsLast(cs[e], ls[e].client, Status(ErrNoKey), ss[e]);
  }

  /** The error a clerk returns other than ErrMaybe is the reply it holds. */
  lemma ReturnsLast(c: Net<string>, client: nat, a: Answer<string>, s: O.State<string>)
    requires ClerksOk(c.clerks, s) && client in c.clerks && LastTry(c, s, s.cur[client])
    requires Step(c, Return(client, a), Answered(c, client)) && a != Status(ErrMaybe)
    ensures var i := s.cur[client];
            i < |s.ops| && s.ops[i].execs != [] && s.ops[i].execs[|s.ops[i].execs| - 1] == a
  {
    assert c.clerks[client].op == s.cur[client];
  }

  lemma NoKeyNotApplied(cs: seq<Net<string>>, ls: seq<Label<string>>, ss: seq<O.State<string>>, e: nat, i: nat, u: nat)
    requires Runs(cs, ls, ss) && e <= |ls| && i < |ss[e].ops| && u < e
    requires var op := ss[e].ops[i];
             op.call.Put? && op.execs != [] && op.execs[|op.execs| - 1] == Status(ErrNoKey)
    ensures !AppliesAt(cs, ls, u, i)
  {
    var last := |ss[e].ops[i].execs| - 1;
    var v := ExecHappened(cs, ls, ss, e, i, last);
    SameRequest(cs, ls, ss, v, e, i);
    if AppliesAt(cs, ls, u, i) { AppliedThenNoKey(cs, ls, ss, e, i, u, v); }
  }

  /** A key that has been written is never again missing, and nothing is handled after the last answer. */
  lemma AppliedThenNoKey(cs: seq<Net<string>>, ls: seq<Label<string>>, ss: seq<O.State<string>>, e: nat, i: nat, u: nat, v: nat)
    requires Runs(cs, ls, ss) && e <= |ls| && AppliesAt(cs, ls, u, i) && u < e && v < e
    requires i < |ss[v].ops| && i < |ss[e].ops|
    requires ls[v].Handle? && ls[v].id.op == i && ls[v].id in cs[v].flight && cs[v].flight[ls[v].id].Put?
    requires |ss[v].ops[i].execs| == |ss[e].ops[i].execs| - 1
    ensures KvServer.Reply(cs[v].m, cs[v].flight[ls[v].id]) != Status(ErrNoKey)
  {
    if v < u {
      HandleAt(cs, ls, ss, u);
      HandleAt(cs, ls, ss, v);
      OpPersists(cs, ls, ss, v + 1, u, i);
      OpPersists(cs, ls, ss, u + 1, e, i);
    } else if u < v {
      SameRequest(cs, ls, ss, u, v, i);
      SameRequest(cs, ls, ss, v, v, i);
      assert StepAt(cs, ls, u);
      VersionsGrow(cs, ls, u + 1, v, cs[v].flight[ls[v].id].key);
    }
  }

  lemma TameApplied(cs: seq<Net<string>>, ls: seq<Label<string>>, ss: seq<O.State<string>>, t: nat, i: nat, u: nat)
    requires Runs(cs, ls, ss) && Tame(cs, ls, i) && t <= |ls| && i < |ss[t].ops|
    requires var op := ss[t].ops[i]; op.call.Put? && op.answer.Some?
    requires AppliesAt(cs, ls, u, i)
    ensures var op := ss[t].ops[i];
            u < op.end && (op.answer.value == Status(OK) || op.answer.value == Status(ErrMaybe))
  {
    var op := ss[t].ops[i];
    PutAnswerIsStatus(cs, ls, ss, t, i);
    AsPutReturn(cs, ls, ss, t, i);
    PutMeaning(cs, ls, op.end, i, op.answer.value.err);
    if NotFromFuture(cs, ls, i) {
      NotFutureNotLate(cs, ls, ss, t, i, u);
    } else {
      NeverLateNotLate(cs, ls, ss, t, i, u);
    }
  }
}
