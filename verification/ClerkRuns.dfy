/** What the answers of `Clerk.Put` mean over a whole run of the network. */
module ClerkRuns {
  import opened Rpc
  import KvServer
  import O = Operations
  import opened Network

  ghost predicate StepAt<V>(cs: seq<Net<V>>, ls: seq<Label<V>>, t: nat)
  {
    t < |ls| && t + 1 < |cs| && Step(cs[t], ls[t], cs[t + 1])
  }

  /** A run of the network: its states and the steps between them. */
  ghost predicate Run<V>(cs: seq<Net<V>>, ls: seq<Label<V>>)
  {
    && |cs| == |ls| + 1
    && Init(cs[0])
    && forall t: nat :: t < |ls| ==> StepAt(cs, ls, t)
  }

  /** The operation-level state after `t` steps. */
  ghost function St<V>(c0: Net<V>, ls: seq<Label<V>>, t: nat): O.State<V>
    requires t <= |ls|
  {
    if t == 0 then InitialState(c0) else O.Next(St(c0, ls, t - 1), Abstract(ls[t - 1]))
  }

  ghost predicate OpStepAt<V>(ss: seq<O.State<V>>, ls: seq<Label<V>>, t: nat)
  {
    t < |ls| && t + 1 < |ss| && O.Step(ss[t], Abstract(ls[t]), ss[t + 1])
  }

  ghost predicate SimAt<V>(cs: seq<Net<V>>, ss: seq<O.State<V>>, t: nat)
  {
    t < |cs| && t < |ss| && Sim(cs[t], ss[t])
  }

  /** A run of the network together with the run of `Operations` that it amounts to. */
  ghost predicate Runs<V>(cs: seq<Net<V>>, ls: seq<Label<V>>, ss: seq<O.State<V>>)
  {
    && Run(cs, ls)
    && |ss| == |cs| && ss[0].now == 0 && ss[0].ops == []
    && (forall t: nat :: t < |ls| ==> OpStepAt(ss, ls, t))
    && (forall t: nat :: t <= |ls| ==> SimAt(cs, ss, t))
  }

  lemma {:induction false} RunSim<V>(cs: seq<Net<V>>, ls: seq<Label<V>>, t: nat)
    requires Run(cs, ls) && t <= |ls|
    ensures Sim(cs[t], St(cs[0], ls, t))
  {
    if t == 0 {
      InitSim(cs[0]);
    } else {
      RunSim(cs, ls, t - 1);
      assert StepAt(cs, ls, t - 1);
      StepSim(cs[t - 1], ls[t - 1], cs[t], St(cs[0], ls, t - 1));
    }
  }

  lemma SimStep<V>(cs: seq<Net<V>>, ls: seq<Label<V>>, t: nat)
    requires Run(cs, ls) && t < |ls|
    ensures O.Step(St(cs[0], ls, t), Abstract(ls[t]), St(cs[0], ls, t + 1))
  {
    RunSim(cs, ls, t);
    assert StepAt(cs, ls, t);
    StepSim(cs[t], ls[t], cs[t + 1], St(cs[0], ls, t));
  }

  /** Every run of the network is, step for step, a run of `Operations`. */
  lemma OperationsOf<V>(cs: seq<Net<V>>, ls: seq<Label<V>>) returns (ss: seq<O.State<V>>)
    requires Run(cs, ls)
    ensures Runs(cs, ls, ss) && ss[0] == InitialState(cs[0])
  {
    ss := seq(|cs|, t requires 0 <= t < |cs| => St(cs[0], ls, t));
    forall t: nat | t < |ls| ensures OpStepAt(ss, ls, t) { SimStep(cs, ls, t); }
    forall t: nat | t <= |ls| ensures SimAt(cs, ss, t) { RunSim(cs, ls, t); }
  }

  /** Parts of the simulation at one point of a run. */
  lemma MessagesAt<V>(cs: seq<Net<V>>, ls: seq<Label<V>>, ss: seq<O.State<V>>, t: nat)
    requires Runs(cs, ls, ss) && t <= |ls|
    ensures TableIs(cs[t].m, ss[t]) && FlightOk(cs[t].flight, ss[t].ops) && |ss[t].ops| == cs[t].next
    ensures RepliesOk(cs[t].replies, ss[t].ops)
  {
    assert SimAt(cs, ss, t);
  }

  lemma ClerksAt<V>(cs: seq<Net<V>>, ls: seq<Label<V>>, ss: seq<O.State<V>>, t: nat)
    requires Runs(cs, ls, ss) && t <= |ls|
    ensures ClerksOk(cs[t].clerks, ss[t]) && TriesOk(cs[t].clerks, cs[t].flight.Keys + cs[t].replies.Keys)
    ensures O.CurrentOps(ss[t])
  {
    assert SimAt(cs, ss, t);
  }

  lemma OpAt<V>(cs: seq<Net<V>>, ls: seq<Label<V>>, ss: seq<O.State<V>>, t: nat, i: nat)
    requires Runs(cs, ls, ss) && t <= |ls| && i < |ss[t].ops|
    ensures O.OpOk(ss[t].ops[i], i, O.H(ss[t], ss[t].ops[i].call.key), ss[t].failures)
  {
    assert SimAt(cs, ss, t);
  }

  /** In step `u` the server applies a Put of call number `i`. */
  ghost predicate AppliesAt<V>(cs: seq<Net<V>>, ls: seq<Label<V>>, u: nat, i: nat)
    requires |cs| == |ls| + 1
  {
    && u < |ls| && ls[u].Handle? && ls[u].id.op == i && ls[u].id in cs[u].flight
    && cs[u].flight[ls[u].id].Put?
    && KvServer.Reply(cs[u].m, cs[u].flight[ls[u].id]) == Status(OK)
  }

  /** In step `t` call number `i`, a Put, returns `err`. */
  ghost predicate PutReturnsAt<V>(cs: seq<Net<V>>, ls: seq<Label<V>>, t: nat, i: nat, err: Err)
    requires |cs| == |ls| + 1
  {
    && t < |ls| && ls[t].Return? && ls[t].client in cs[t].clerks
    && cs[t].clerks[ls[t].client].op == i && cs[t].clerks[ls[t].client].call.Put?
    && ls[t].answer == Status(err)
  }

  lemma {:induction false} VersionsGrow<V>(cs: seq<Net<V>>, ls: seq<Label<V>>, u: nat, v: nat, key: string)
    requires Run(cs, ls) && u <= v <= |ls|
    ensures KvServer.VersionOf(cs[u].m, key) <= KvServer.VersionOf(cs[v].m, key)
    decreases v
  {
    if u < v {
      VersionsGrow(cs, ls, u, v - 1, key);
      assert StepAt(cs, ls, v - 1);
    }
  }

  /** How many Puts to `key` the server applies in the first `t` steps. */
  ghost function PutsApplied<V>(cs: seq<Net<V>>, ls: seq<Label<V>>, key: string, t: nat): nat
    requires |cs| == |ls| + 1 && t <= |ls|
  {
    if t == 0 then 0 else
    PutsApplied(cs, ls, key, t - 1)
    + if ls[t - 1].Handle? && AppliesAt(cs, ls, t - 1, ls[t - 1].id.op) && cs[t - 1].flight[ls[t - 1].id].key == key then 1 else 0
  }

  /** The version of a key is the number of Puts that have been applied to it. */
  lemma {:induction false} VersionCountsPuts<V>(cs: seq<Net<V>>, ls: seq<Label<V>>, key: string, t: nat)
    requires Run(cs, ls) && t <= |ls|
    ensures KvServer.VersionOf(cs[t].m, key) == KvServer.VersionOf(cs[0].m, key) + PutsApplied(cs, ls, key, t)
  {
    if t > 0 {
      VersionCountsPuts(cs, ls, key, t - 1);
      assert StepAt(cs, ls, t - 1);
    }
  }

  /** How often calls of client `c` have been answered by `err` in the first `t` steps. */
  ghost function Answers<V>(ls: seq<Label<V>>, c: nat, err: Err, t: nat): nat
    requires t <= |ls|
  {
    if t == 0 then 0 else
    Answers(ls, c, err, t - 1) + if ls[t - 1] == Return(c, Status(err)) then 1 else 0
  }

  /** At most one request per key and version is ever applied, whichever clerks send them. */
  lemma OnePerVersion<V>(cs: seq<Net<V>>, ls: seq<Label<V>>, u: nat, i: nat, u': nat, i': nat)
    requires Run(cs, ls) && AppliesAt(cs, ls, u, i) && AppliesAt(cs, ls, u', i')
    requires var p, p' := cs[u].flight[ls[u].id], cs[u'].flight[ls[u'].id]; p.key == p'.key && p.version == p'.version
    ensures u == u'
  {
    var key := cs[u].flight[ls[u].id].key;
    assert StepAt(cs, ls, u) && StepAt(cs, ls, u');
    if u < u' { VersionsGrow(cs, ls, u + 1, u', key); }
    if u' < u { VersionsGrow(cs, ls, u' + 1, u, key); }
  }

  lemma {:induction false} OpsExtend<V>(cs: seq<Net<V>>, ls: seq<Label<V>>, ss: seq<O.State<V>>, u: nat, v: nat)
    requires Runs(cs, ls, ss) && u <= v <= |ls|
    ensures O.Extends(ss[u], ss[v])
    decreases v
  {
    if u == v {
      ExtendsReflexive(ss[u]);
    } else {
      OpsExtend(cs, ls, ss, u, v - 1);
      ExtendOnce(cs, ls, ss, v - 1);
      ExtendsTransitive(ss[u], ss[v - 1], ss[v]);
    }
  }

  lemma ExtendOnce<V>(cs: seq<Net<V>>, ls: seq<Label<V>>, ss: seq<O.State<V>>, t: nat)
    requires Runs(cs, ls, ss) && t < |ls|
    ensures O.Extends(ss[t], ss[t + 1])
  {
    assert OpStepAt(ss, ls, t);
    ClerksAt(cs, ls, ss, t);
    O.StepExtends(ss[t], Abstract(ls[t]), ss[t + 1]);
  }

  lemma ExtendsReflexive<V>(a: O.State<V>)
    ensures O.Extends(a, a)
  {
  }

  lemma ExtendsTransitive<V>(a: O.State<V>, b: O.State<V>, c: O.State<V>)
    requires O.Extends(a, b) && O.Extends(b, c)
    ensures O.Extends(a, c)
  {
    forall k ensures O.H(a, k) <= O.H(c, k) {
      assert O.H(a, k) <= O.H(b, k) <= O.H(c, k);
    }
  }

  /** `OpsExtend` for one operation. */
  lemma OpPersists<V>(cs: seq<Net<V>>, ls: seq<Label<V>>, ss: seq<O.State<V>>, u: nat, v: nat, i: nat)
    requires Runs(cs, ls, ss) && u <= v <= |ls| && i < |ss[u].ops|
    ensures i < |ss[v].ops|
    ensures var op, op' := ss[u].ops[i], ss[v].ops[i];
            && op'.call == op.call && op'.client == op.client && op'.start == op.start && op'.base == op.base
            && |op.execs| <= |op'.execs|
            && (op.answer.Some? ==> op'.answer == op.answer && op'.end == op.end)
  {
    OpsExtend(cs, ls, ss, u, v);
  }

  /** `OpsExtend` for one key. */
  lemma HistoryGrows<V>(cs: seq<Net<V>>, ls: seq<Label<V>>, ss: seq<O.State<V>>, u: nat, v: nat, key: string)
    requires Runs(cs, ls, ss) && u <= v <= |ls|
    ensures O.H(ss[u], key) <= O.H(ss[v], key)
  {
    OpsExtend(cs, ls, ss, u, v);
  }

  /** What one handler run does to the record of its operation. */
  lemma HandleRecord<V>(c: Net<V>, id: Id, s: O.State<V>)
    requires TableIs(c.m, s) && FlightOk(c.flight, s.ops) && id in c.flight
    ensures id.op < |s.ops| && c.flight[id] == s.ops[id.op].call && !s.ops[id.op].closed
    ensures O.Executed(s, id.op).ops[id.op].execs
            == s.ops[id.op].execs + [KvServer.Reply(c.m, c.flight[id])]
  {
    ServerAgrees(c.m, s, c.flight[id]);
  }

  /** The same, in step `u` of a run. */
  lemma HandleAt<V>(cs: seq<Net<V>>, ls: seq<Label<V>>, ss: seq<O.State<V>>, u: nat)
    requires Runs(cs, ls, ss) && u < |ls| && ls[u].Handle?
    ensures var id, s, s' := ls[u].id, ss[u], ss[u + 1];
            && id in cs[u].flight && id.op < |s.ops| && id.op < |s'.ops|
            && cs[u].flight[id] == s.ops[id.op].call && !s.ops[id.op].closed
            && s'.ops[id.op].execs == s.ops[id.op].execs + [KvServer.Reply(cs[u].m, cs[u].flight[id])]
            && |s'.ops| == |s.ops|
  {
    MessagesAt(cs, ls, ss, u);
    assert StepAt(cs, ls, u) && OpStepAt(ss, ls, u);
    HandleRecord(cs[u], ls[u].id, ss[u]);
  }

  /** Every answer recorded for an operation was computed by a handler in some step. */
  lemma {:induction false} ExecHappened<V>(cs: seq<Net<V>>, ls: seq<Label<V>>, ss: seq<O.State<V>>, t: nat, i: nat, j: nat) returns (u: nat)
    requires Runs(cs, ls, ss) && t <= |ls|
    requires i < |ss[t].ops| && j < |ss[t].ops[i].execs|
    ensures u < t && ls[u].Handle? && ls[u].id.op == i && ls[u].id in cs[u].flight
    ensures KvServer.Reply(cs[u].m, cs[u].flight[ls[u].id]) == ss[t].ops[i].execs[j]
    ensures i < |ss[u].ops| && |ss[u].ops[i].execs| == j
    decreases t
  {
    u := t - 1;
    var s := ss[u];
    if i < |s.ops| && j < |s.ops[i].execs| {
      OpsExtend(cs, ls, ss, u, t);
      u := ExecHappened(cs, ls, ss, u, i, j);
    } else {
      assert OpStepAt(ss, ls, u);
      OnlyHandlersAnswer(s, Abstract(ls[u]), ss[t], i, j);
      HandleAt(cs, ls, ss, u);
    }
  }

  lemma OnlyHandlersAnswer<V>(s: O.State<V>, l: O.Label<V>, s': O.State<V>, i: nat, j: nat)
    requires O.Step(s, l, s') && i < |s'.ops| && j < |s'.ops[i].execs|
    requires i >= |s.ops| || j >= |s.ops[i].execs|
    ensures l == O.Execute(i)
  {
  }

  /** Requests of one call all carry the same Put. */
  lemma SameRequest<V>(cs: seq<Net<V>>, ls: seq<Label<V>>, ss: seq<O.State<V>>, u: nat, t: nat, i: nat)
    requires Runs(cs, ls, ss) && u < |ls| && ls[u].Handle? && ls[u].id.op == i
    requires t <= |ls| && i < |ss[t].ops|
    ensures ls[u].id in cs[u].flight && cs[u].flight[ls[u].id] == ss[t].ops[i].call
  {
    HandleAt(cs, ls, ss, u);
    if u <= t { OpsExtend(cs, ls, ss, u, t); } else { OpsExtend(cs, ls, ss, t, u); }
  }

  /** A request that is applied leaves an OK in the record of its operation from then on. */
  lemma AppliedIsSeen<V>(cs: seq<Net<V>>, ls: seq<Label<V>>, ss: seq<O.State<V>>, u: nat, t: nat, i: nat)
    requires Runs(cs, ls, ss) && AppliesAt(cs, ls, u, i) && u < t <= |ls|
    ensures i < |ss[t].ops| && O.Saw(ss[t].ops[i], Status(OK))
  {
    HandleAt(cs, ls, ss, u);
    OpsExtend(cs, ls, ss, u + 1, t);
    var j := |ss[u].ops[i].execs|;
    assert ss[t].ops[i].execs[j] == ss[u + 1].ops[i].execs[j];
  }

  /** The state in which a Put returns, seen from its operation. */
  lemma ReturnFacts<V>(cs: seq<Net<V>>, ls: seq<Label<V>>, ss: seq<O.State<V>>, t: nat, i: nat, err: Err)
    requires Runs(cs, ls, ss) && PutReturnsAt(cs, ls, t, i, err)
    ensures var s, s' := ss[t], ss[t + 1];
            && i < |s.ops| && i < |s'.ops| && s.ops[i].call.Put?
            && O.MayReturn(s.ops[i], Status(err), s.failures)
            && (err == ErrVersion ==> s'.ops[i].closed)
  {
    ClerksAt(cs, ls, ss, t);
    assert OpStepAt(ss, ls, t);
  }

  /** The operation of the call that returns in step `t`. */
  lemma ReturningOp<V>(cs: seq<Net<V>>, ls: seq<Label<V>>, ss: seq<O.State<V>>, t: nat)
    requires Runs(cs, ls, ss) && t < |ls| && ls[t].Return?
    ensures var c, s := ls[t].client, ss[t];
            && c in s.cur && s.cur[c] < |s.ops| && O.MayReturn(s.ops[s.cur[c]], ls[t].answer, s.failures)
            && c in cs[t].clerks && cs[t].clerks[c].op == s.cur[c] && cs[t].clerks[c].call == s.ops[s.cur[c]].call
  {
    assert OpStepAt(ss, ls, t) && StepAt(cs, ls, t);
    ClerksAt(cs, ls, ss, t);
  }

  lemma OkHasHappened<V>(cs: seq<Net<V>>, ls: seq<Label<V>>, ss: seq<O.State<V>>, t: nat, i: nat) returns (u: nat)
    requires Runs(cs, ls, ss) && t <= |ls|
    requires var s := ss[t]; i < |s.ops| && s.ops[i].call.Put? && O.Saw(s.ops[i], Status(OK))
    ensures u < t && AppliesAt(cs, ls, u, i)
  {
    var op := ss[t].ops[i];
    var j :| 0 <= j < |op.execs| && op.execs[j] == Status(OK);
    u := ExecHappened(cs, ls, ss, t, i, j);
    SameRequest(cs, ls, ss, u, t, i);
  }

  /** In step `u` the server stores, for call number `i`, `value` at the version after `v`. */
  ghost predicate Stores<V>(cs: seq<Net<V>>, ls: seq<Label<V>>, u: nat, i: nat, key: string, value: V, v: nat)
    requires |cs| == |ls| + 1
  {
    && AppliesAt(cs, ls, u, i) && KvServer.VersionOf(cs[u].m, key) == v
    && key in cs[u + 1].m && cs[u + 1].m[key] == Entry(value, v + 1)
  }

  /** A write in the history was made by a request that the server handled in some step, when the key was
      at the write's version. */
  lemma WriteHappened<V>(cs: seq<Net<V>>, ls: seq<Label<V>>, ss: seq<O.State<V>>, t: nat, i: nat, key: string, value: V, v: nat)
    returns (u: nat)
    requires Runs(cs, ls, ss) && t <= |ls| && i < |ss[t].ops| && ss[t].ops[i].call == Put(key, value, v)
    requires v < |O.H(ss[t], key)| && O.H(ss[t], key)[v].op == i
    ensures u < t && Stores(cs, ls, u, i, key, value, v)
    ensures v > 0 ==> key in cs[u].m && cs[u].m[key] == Entry(O.H(ss[t], key)[v - 1].value, v)
  {
    OpAt(cs, ls, ss, t, i);
    u := OkHasHappened(cs, ls, ss, t, i);
    SameRequest(cs, ls, ss, u, t, i);
    assert StepAt(cs, ls, u);
    MessagesAt(cs, ls, ss, u);
    OpsExtend(cs, ls, ss, u, t);
    assert O.H(ss[u], key) <= O.H(ss[t], key);
  }

  lemma VersionErrorIsFinal<V>(cs: seq<Net<V>>, ls: seq<Label<V>>, ss: seq<O.State<V>>, t: nat, u: nat, i: nat)
    requires Runs(cs, ls, ss) && PutReturnsAt(cs, ls, t, i, ErrVersion)
    ensures !AppliesAt(cs, ls, u, i)
  {
    ReturnFacts(cs, ls, ss, t, i, ErrVersion);
    if AppliesAt(cs, ls, u, i) {
      if u < t {
        AppliedIsSeen(cs, ls, ss, u, t, i);
      } else {
        OpsExtend(cs, ls, ss, t + 1, u);
        HandleAt(cs, ls, ss, u);
      }
    }
  }

  /** OK: exactly one request of this call is applied in the whole run, and before it returned.
      ErrVersion: none ever is. ErrMaybe and ErrNoKey: at most one. */
  lemma PutMeaning<V>(cs: seq<Net<V>>, ls: seq<Label<V>>, t: nat, i: nat, err: Err)
    requires Run(cs, ls) && PutReturnsAt(cs, ls, t, i, err)
    ensures forall u: nat, u': nat :: AppliesAt(cs, ls, u, i) && AppliesAt(cs, ls, u', i) ==> u == u'
    ensures err == OK ==> exists u: nat :: u < t && AppliesAt(cs, ls, u, i)
    ensures err == ErrVersion ==> forall u: nat :: !AppliesAt(cs, ls, u, i)
  {
    var ss := OperationsOf(cs, ls);
    ReturnFacts(cs, ls, ss, t, i, err);
    forall u: nat, u': nat | AppliesAt(cs, ls, u, i) && AppliesAt(cs, ls, u', i) ensures u == u' {
      SameRequest(cs, ls, ss, u, t, i);
      SameRequest(cs, ls, ss, u', t, i);
      OnePerVersion(cs, ls, u, i, u', i);
    }
    if err == OK {
      var u := OkHasHappened(cs, ls, ss, t, i);
    }
    if err == ErrVersion {
      forall u: nat ensures !AppliesAt(cs, ls, u, i) {
        VersionErrorIsFinal(cs, ls, ss, t, u, i);
      }
    }
  }
}
