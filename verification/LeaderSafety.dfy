/** One leader at a time, and no leadership lost through ErrMaybe, for any number of controllers. */
module LeaderSafety {
  import opened Rpc
  import O = Operations
  import Network
  import opened Awaiting
  import opened ClerkRuns
  import opened Leadership

  type State = O.State<string>
  type Hist = seq<O.Write<string>>
  type Users = map<nat, Local>

  /** The lock key and the ids that controllers store under it. */
  datatype Config = Config(key: string, id: nat -> string)

  /** Ids are not empty, and no two controllers share one. */
  ghost predicate GoodIds(g: Config, x: Users)
  {
    && (forall c :: c in x ==> g.id(c) != "")
    && (forall c, d :: c in x && d in x && g.id(c) == g.id(d) ==> c == d)
  }

  /** One step of the controllers. A controller releases only what it holds. */
  ghost predicate UserStep(g: Config, x: Users, l: O.Label<string>, x': Users)
  {
    match l
    case Begin(c, call) =>
      if c in x then NextCall(g.key, g.id(c), x[c]) == Some(call) && x' == x[c := Calling(x[c])]
      else call.key != g.key && x' == x
    case Return(c, a) => x' == if c in x then x[c := Resume(g.id(c), x[c], a)] else x
    case _ => x' == x
  }

  /** The last value stored is `id`. */
  ghost predicate Mine(h: Hist, id: string)
  {
    h != [] && h[|h| - 1].value == id
  }

  ghost predicate FreeAt(h: Hist, v: nat)
  {
    1 <= v <= |h| && h[v - 1].value == ""
  }

  /** What holds of a controller in each phase. */
  ghost predicate UserOk(g: Config, s: State, u: Local, c: nat)
  {
    var h, id := O.H(s, g.key), g.id(c);
    match u.pc
    case Idle => !Mine(h, id)
    case AcqGet => !Mine(h, id) && Awaits(s, c, Get(g.key))
    case AcqPut(v) => !Mine(h, id) && FreeAt(h, v)
    case AcqPutting(v) =>
      && Awaits(s, c, Put(g.key, id, v)) && v <= Base(s, c) && FreeAt(h, v)
      && (Mine(h, id) <==> Wrote(s, h, c, v)) && (Mine(h, id) ==> |h| == v + 1)
    case AcqCheck(v) => v < |h| && (Mine(h, id) ==> |h| == v + 1)
    case AcqChecking(v) =>
      && v < |h| && Awaits(s, c, Get(g.key)) && 1 <= Base(s, c) <= |h|
      && (Mine(h, id) ==> Base(s, c) == |h| == v + 1)
      && forall n :: Base(s, c) - 1 <= n < |h| && h[n].value == id ==> n == |h| - 1
    case Leading => Mine(h, id) && u.lkVer == |h|
    case RelGet => Mine(h, id) && Awaits(s, c, Get(g.key)) && Base(s, c) == |h|
    case RelPut(v) => Mine(h, id) && v == |h|
    case RelPutting(v) =>
      && Awaits(s, c, Put(g.key, "", v)) && 1 <= v == Base(s, c)
      && (if |h| == v then Mine(h, id) else !Mine(h, id) && Wrote(s, h, c, v))
  }

  ghost predicate UsersOk(g: Config, s: State, x: Users)
  {
    forall c :: c in x ==> UserOk(g, s, x[c], c)
  }

  /** A Put on the lock key takes it where it was free or gives back what its client stored; and it is too
      old to be applied unless its client is still waiting for it. */
  ghost predicate LeadOp(g: Config, s: State, x: Users, i: nat)
    requires i < |s.ops|
  {
    var op, h := s.ops[i], O.H(s, g.key);
    op.call.Put? && op.call.key == g.key ==>
      var v, c := op.call.version, op.client;
      && c in x && 1 <= v <= |h|
      && (if op.call.value == "" then h[v - 1].value == g.id(c) else op.call.value == g.id(c) && h[v - 1].value == "")
      && (v < |h| || (c in s.cur && s.cur[c] == i && x[c].pc == if op.call.value == "" then RelPutting(v) else AcqPutting(v)))
  }

  ghost predicate LeadOps(g: Config, s: State, x: Users)
  {
    forall i: nat :: i < |s.ops| ==> LeadOp(g, s, x, i)
  }

  ghost predicate LeadInv(g: Config, s: State, x: Users)
  {
    && O.Inv(s) && GoodIds(g, x) && O.H(s, g.key) != []
    && UsersOk(g, s, x) && LeadOps(g, s, x)
  }

  // ---- Executing a request ----

  /** A controller that has not stored its id, while another one writes. */
  lemma OthersKept(g: Config, s: State, i: nat, u: Local, c: nat)
    requires i < |s.ops| && UserOk(g, s, u, c) && s.ops[i].call.key == g.key && O.Applies(O.H(s, g.key), s.ops[i].call)
    requires !Mine(O.H(s, g.key), g.id(c)) && s.ops[i].call.value != g.id(c) && (c in s.cur ==> s.cur[c] != i)
    requires O.H(s, g.key) != []
    ensures UserOk(g, O.Executed(s, i), u, c)
  {
    var h, h' := O.H(s, g.key), O.H(O.Executed(s, i), g.key);
    assert h' == h + [O.Write(s.ops[i].call.value, i)];
    assert forall n :: 0 <= n < |h| ==> h'[n] == h[n];
  }

  /** The controller whose own request is applied. */
  lemma OwnApplied(g: Config, s: State, x: Users, i: nat, c: nat)
    requires i < |s.ops| && c in x && UserOk(g, s, x[c], c) && c in s.cur && s.cur[c] == i
    requires s.ops[i].call.key == g.key && O.Applies(O.H(s, g.key), s.ops[i].call)
    requires LeadOp(g, s, x, i) && s.ops[i].client == c && g.id(c) != ""
    ensures UserOk(g, O.Executed(s, i), x[c], c)
  {
    var h, h' := O.H(s, g.key), O.H(O.Executed(s, i), g.key);
    assert h' == h + [O.Write(s.ops[i].call.value, i)];
  }

  /** A request that is not applied changes nothing a controller can see. */
  lemma NotApplied(g: Config, s: State, i: nat, u: Local, c: nat)
    requires i < |s.ops| && UserOk(g, s, u, c)
    requires s.ops[i].call.key == g.key ==> !O.Applies(O.H(s, g.key), s.ops[i].call)
    ensures UserOk(g, O.Executed(s, i), u, c)
  {
    assert O.H(O.Executed(s, i), g.key) == O.H(s, g.key);
  }

  lemma ExecuteUser(g: Config, s: State, i: nat, x: Users, c: nat)
    requires i < |s.ops| && c in x && UsersOk(g, s, x) && LeadOp(g, s, x, i) && GoodIds(g, x)
    requires O.H(s, g.key) != [] && O.CurrentOps(s)
    ensures UserOk(g, O.Executed(s, i), x[c], c)
  {
    assert UserOk(g, s, x[c], c);
    var call, h := s.ops[i].call, O.H(s, g.key);
    if call.key == g.key && O.Applies(h, call) {
      var d := s.ops[i].client;
      if c == d { OwnApplied(g, s, x, i, c); } else { OthersKept(g, s, i, x[c], c); }
    } else {
      NotApplied(g, s, i, x[c], c);
    }
  }

  lemma ExecuteOps(g: Config, s: State, i: nat, x: Users)
    requires i < |s.ops| && LeadOps(g, s, x)
    ensures LeadOps(g, O.Executed(s, i), x)
  {
    var s' := O.Executed(s, i);
    assert O.H(s, g.key) <= O.H(s', g.key);
    forall j: nat | j < |s'.ops| ensures LeadOp(g, s', x, j) { assert LeadOp(g, s, x, j); }
  }

  // ---- Beginning a call ----

  lemma BeginUser(g: Config, s: State, c: nat, call: Call<string>, u: Local)
    requires c !in s.cur && UserOk(g, s, u, c) && NextCall(g.key, g.id(c), u) == Some(call) && O.H(s, g.key) != []
    requires O.WritesHaveOps(s)
    ensures UserOk(g, O.Began(s, c, call), Calling(u), c)
  {
    assert O.H(O.Began(s, c, call), g.key) == O.H(s, g.key);
  }

  lemma BeginOther(g: Config, s: State, c: nat, call: Call<string>, u: Local, d: nat)
    requires O.CurrentOps(s) && c !in s.cur && UserOk(g, s, u, d) && d != c
    ensures UserOk(g, O.Began(s, c, call), u, d)
  {
    assert O.H(O.Began(s, c, call), g.key) == O.H(s, g.key);
  }

  lemma BeginOps(g: Config, s: State, c: nat, call: Call<string>, x: Users, x': Users)
    requires O.CurrentOps(s) && c !in s.cur && LeadOps(g, s, x) && UsersOk(g, s, x) && GoodIds(g, x)
    requires UserStep(g, x, O.Begin(c, call), x')
    ensures LeadOps(g, O.Began(s, c, call), x')
  {
    var s' := O.Began(s, c, call);
    assert O.H(s', g.key) == O.H(s, g.key);
    forall j: nat | j < |s'.ops| ensures LeadOp(g, s', x', j) {
      if j < |s.ops| {
        assert LeadOp(g, s, x, j);
      } else if c in x {
        assert UserOk(g, s, x[c], c);
      }
    }
  }

  // ---- Returning ----

  lemma ReturnUser(g: Config, s: State, c: nat, a: Answer<string>, u: Local)
    requires O.OpsOk(s) && UserOk(g, s, u, c) && c in s.cur && s.cur[c] < |s.ops|
    requires Waiting(u.pc) && O.MayReturn(s.ops[s.cur[c]], a, s.failures)
    ensures UserOk(g, O.Answered(s, c, a), Resume(g.id(c), u, a), c)
  {
    assert O.H(O.Answered(s, c, a), g.key) == O.H(s, g.key);
    match u.pc
    case AcqGet => GetFound(s, c, g.key, a);
    case AcqPutting(v) => PutPast(s, c, g.key, g.id(c), v, a);
    case AcqChecking(v) => GetFound(s, c, g.key, a);
    case RelGet => GetFound(s, c, g.key, a);
    case RelPutting(v) => PutPast(s, c, g.key, "", v, a);
    case _ =>
  }

  lemma ReturnOther(g: Config, s: State, c: nat, a: Answer<string>, u: Local, d: nat)
    requires O.CurrentOps(s) && c in s.cur && UserOk(g, s, u, d) && d != c
    ensures UserOk(g, O.Answered(s, c, a), u, d)
  {
    assert O.H(O.Answered(s, c, a), g.key) == O.H(s, g.key);
  }

  /** The operation that returns is past. */
  lemma ReturnOwnOp(g: Config, s: State, c: nat, a: Answer<string>, x: Users)
    requires O.OpsOk(s) && c in s.cur && s.cur[c] < |s.ops| && LeadOp(g, s, x, s.cur[c])
    requires c in x && UserOk(g, s, x[c], c) && s.ops[s.cur[c]].client == c
    requires O.MayReturn(s.ops[s.cur[c]], a, s.failures)
    ensures var call := s.ops[s.cur[c]].call; call.Put? && call.key == g.key ==> call.version < |O.H(s, g.key)|
  {
    var call := s.ops[s.cur[c]].call;
    if call.Put? && call.key == g.key && call.version == |O.H(s, g.key)| {
      PutPast(s, c, g.key, call.value, call.version, a);
    }
  }

  lemma ReturnOps(g: Config, s: State, c: nat, a: Answer<string>, x: Users, x': Users)
    requires O.CurrentOps(s) && c in s.cur && LeadOps(g, s, x) && UserStep(g, x, O.Return(c, a), x')
    requires var call := s.ops[s.cur[c]].call; call.Put? && call.key == g.key ==> call.version < |O.H(s, g.key)|
    ensures LeadOps(g, O.Answered(s, c, a), x')
  {
    var s' := O.Answered(s, c, a);
    assert O.H(s', g.key) == O.H(s, g.key);
    forall j: nat | j < |s'.ops| ensures LeadOp(g, s', x', j) { assert LeadOp(g, s, x, j); }
  }

  // ---- Every step keeps the invariant ----

  lemma LeadInvExecute(g: Config, s: State, i: nat, x: Users)
    requires LeadInv(g, s, x) && i < |s.ops| && O.Inv(O.Executed(s, i))
    ensures LeadInv(g, O.Executed(s, i), x)
  {
    ExecuteOps(g, s, i, x);
    assert O.H(s, g.key) <= O.H(O.Executed(s, i), g.key);
    forall c | c in x ensures UserOk(g, O.Executed(s, i), x[c], c) {
      assert LeadOp(g, s, x, i);
      ExecuteUser(g, s, i, x, c);
    }
  }

  lemma LeadInvBegin(g: Config, s: State, c: nat, call: Call<string>, x: Users, x': Users)
    requires LeadInv(g, s, x) && c !in s.cur && UserStep(g, x, O.Begin(c, call), x') && O.Inv(O.Began(s, c, call))
    ensures LeadInv(g, O.Began(s, c, call), x')
  {
    BeginOps(g, s, c, call, x, x');
    assert O.H(O.Began(s, c, call), g.key) == O.H(s, g.key);
    forall d | d in x' ensures UserOk(g, O.Began(s, c, call), x'[d], d) {
      assert UserOk(g, s, x[d], d);
      if d == c { BeginUser(g, s, c, call, x[c]); } else { BeginOther(g, s, c, call, x[d], d); }
    }
  }

  lemma LeadInvReturn(g: Config, s: State, c: nat, a: Answer<string>, x: Users, x': Users)
    requires LeadInv(g, s, x) && c in s.cur && UserStep(g, x, O.Return(c, a), x') && O.Inv(O.Answered(s, c, a))
    requires O.MayReturn(s.ops[s.cur[c]], a, s.failures)
    requires c in x ==> Waiting(x[c].pc)
    ensures LeadInv(g, O.Answered(s, c, a), x')
  {
    assert LeadOp(g, s, x, s.cur[c]);
    if c in x { ReturnOwnOp(g, s, c, a, x); }
    ReturnOps(g, s, c, a, x, x');
    assert O.H(O.Answered(s, c, a), g.key) == O.H(s, g.key);
    forall d | d in x' ensures UserOk(g, O.Answered(s, c, a), x'[d], d) {
      assert UserOk(g, s, x[d], d);
      if d == c { ReturnUser(g, s, c, a, x[c]); } else { ReturnOther(g, s, c, a, x[d], d); }
    }
  }

  lemma LeadInvFail(g: Config, s: State, s': State, x: Users)
    requires LeadInv(g, s, x) && s' == s.(now := s'.now, failures := s'.failures) && O.Inv(s')
    ensures LeadInv(g, s', x)
  {
    assert O.H(s', g.key) == O.H(s, g.key);
    forall j: nat | j < |s'.ops| ensures LeadOp(g, s', x, j) { assert LeadOp(g, s, x, j); }
    forall c | c in x ensures UserOk(g, s', x[c], c) { UserFails(g, s, s', x[c], c); }
  }

  lemma UserFails(g: Config, s: State, s': State, u: Local, c: nat)
    requires UserOk(g, s, u, c) && s' == s.(now := s'.now, failures := s'.failures)
    ensures UserOk(g, s', u, c)
  {
    assert O.H(s', g.key) == O.H(s, g.key);
  }

  /** A controller with an operation under way is waiting for it. */
  ghost predicate Attentive(s: State, x: Users)
  {
    forall c :: c in x && c in s.cur ==> Waiting(x[c].pc)
  }

  lemma AttentiveStep(g: Config, s: State, l: O.Label<string>, s': State, x: Users, x': Users)
    requires O.Step(s, l, s') && UserStep(g, x, l, x') && Attentive(s, x)
    ensures Attentive(s', x')
  {
  }

  lemma LeadInvStep(g: Config, s: State, l: O.Label<string>, s': State, x: Users, x': Users)
    requires O.Step(s, l, s') && UserStep(g, x, l, x') && LeadInv(g, s, x) && Attentive(s, x)
    ensures LeadInv(g, s', x')
  {
    O.StepInv(s, l, s');
    match l
    case Begin(c, call) => LeadInvBegin(g, s, c, call, x, x');
    case Execute(i) => LeadInvExecute(g, s, i, x);
    case Return(c, a) => LeadInvReturn(g, s, c, a, x, x');
    case Fail => LeadInvFail(g, s, s', x);
  }

  // ---- Runs over the network ----

  ghost predicate UserStepAt(g: Config, ls: seq<Network.Label<string>>, xs: seq<Users>, t: nat)
  {
    t < |ls| && t + 1 < |xs| && UserStep(g, xs[t], Network.Abstract(ls[t]), xs[t + 1])
  }

  /** A run of controllers over the network; at the start the lock key holds "". */
  ghost predicate LeaderRun(g: Config, cs: seq<Network.Net<string>>, ls: seq<Network.Label<string>>, xs: seq<Users>)
  {
    && Run(cs, ls) && |xs| == |cs| && GoodIds(g, xs[0])
    && g.key in cs[0].m && cs[0].m[g.key].value == ""
    && (forall c :: c in xs[0] ==> xs[0][c].pc == Idle)
    && forall t: nat :: t < |ls| ==> UserStepAt(g, ls, xs, t)
  }

  lemma LeadInvStart(g: Config, cs: seq<Network.Net<string>>, ls: seq<Network.Label<string>>, xs: seq<Users>)
    requires LeaderRun(g, cs, ls, xs)
    ensures LeadInv(g, Network.InitialState(cs[0]), xs[0]) && Attentive(Network.InitialState(cs[0]), xs[0])
  {
    Network.InitSim(cs[0]);
    var h := O.H(Network.InitialState(cs[0]), g.key);
    assert |h| == cs[0].m[g.key].version && h[|h| - 1].value == "";
  }

  lemma {:induction false} LeadInvHolds(g: Config, cs: seq<Network.Net<string>>, ls: seq<Network.Label<string>>,
                                        ss: seq<State>, xs: seq<Users>, t: nat)
    requires LeaderRun(g, cs, ls, xs) && Runs(cs, ls, ss) && ss[0] == Network.InitialState(cs[0]) && t <= |ls|
    ensures LeadInv(g, ss[t], xs[t]) && Attentive(ss[t], xs[t])
  {
    if t == 0 {
      LeadInvStart(g, cs, ls, xs);
    } else {
      LeadInvHolds(g, cs, ls, ss, xs, t - 1);
      assert OpStepAt(ss, ls, t - 1) && UserStepAt(g, ls, xs, t - 1);
      LeadInvStep(g, ss[t - 1], Network.Abstract(ls[t - 1]), ss[t], xs[t - 1], xs[t]);
      AttentiveStep(g, ss[t - 1], Network.Abstract(ls[t - 1]), ss[t], xs[t - 1], xs[t]);
    }
  }

  /** A controller that holds leadership: from the return of AcquireLeadership to the call of ReleaseLeadership's Put. */
  predicate Holding(pc: Pc) { pc.Leading? || pc.RelGet? || pc.RelPut? }

  /** A controller that is acquiring, holding or releasing. */
  predicate Engaged(pc: Pc)
  {
    pc.AcqPutting? || pc.AcqCheck? || pc.AcqChecking? || Holding(pc) || pc.RelPutting?
  }

  /** At most one controller holds leadership, and while it leads the server stores its id at its `lk.ver`;
      a stored id always belongs to a controller that is acquiring, holding or releasing: none is lost. */
  lemma LeadershipSafe(g: Config, cs: seq<Network.Net<string>>, ls: seq<Network.Label<string>>, xs: seq<Users>, t: nat)
    requires LeaderRun(g, cs, ls, xs) && t <= |ls|
    ensures forall c, d :: c in xs[t] && d in xs[t] && Holding(xs[t][c].pc) && Holding(xs[t][d].pc) ==> c == d
    ensures forall c :: c in xs[t] && xs[t][c].pc == Leading ==>
              g.key in cs[t].m && cs[t].m[g.key] == Entry(g.id(c), xs[t][c].lkVer)
    ensures forall c :: c in xs[t] && g.key in cs[t].m && cs[t].m[g.key].value == g.id(c) ==> Engaged(xs[t][c].pc)
  {
    var ss := OperationsOf(cs, ls);
    LeadInvHolds(g, cs, ls, ss, xs, t);
    MessagesAt(cs, ls, ss, t);
    SafeState(g, ss[t], xs[t], cs[t].m);
  }

  lemma SafeState(g: Config, s: State, x: Users, m: map<string, Entry<string>>)
    requires GoodIds(g, x) && UsersOk(g, s, x) && Network.TableIs(m, s)
    ensures forall c, d :: c in x && d in x && Holding(x[c].pc) && Holding(x[d].pc) ==> c == d
    ensures forall c :: c in x && x[c].pc == Leading ==> g.key in m && m[g.key] == Entry(g.id(c), x[c].lkVer)
    ensures forall c :: c in x && g.key in m && m[g.key].value == g.id(c) ==> Engaged(x[c].pc)
  {
    forall c, d | c in x && d in x && Holding(x[c].pc) && Holding(x[d].pc) ensures c == d {
      assert UserOk(g, s, x[c], c) && UserOk(g, s, x[d], d);
    }
    forall c | c in x
      ensures x[c].pc == Leading ==> g.key in m && m[g.key] == Entry(g.id(c), x[c].lkVer)
      ensures g.key in m && m[g.key].value == g.id(c) ==> Engaged(x[c].pc)
    {
      assert UserOk(g, s, x[c], c);
    }
  }

  /** Both ways of becoming leader set `lk.ver` to the version read before the Put plus one, and
      ReleaseLeadership always returns OK. */
  lemma LeaderVersion(g: Config, cs: seq<Network.Net<string>>, ls: seq<Network.Label<string>>, xs: seq<Users>, t: nat)
    requires LeaderRun(g, cs, ls, xs) && t < |ls| && ls[t].Return? && ls[t].client in xs[t]
    ensures ls[t].client in xs[t + 1]
    ensures var u, u' := xs[t][ls[t].client], xs[t + 1][ls[t].client];
            && ((u.pc.AcqPutting? || u.pc.AcqChecking?) && u'.pc == Leading ==> u'.lkVer == u.pc.ver + 1)
            && (u.pc.RelPutting? ==> ls[t].answer == Status(OK) || ls[t].answer == Status(ErrMaybe))
  {
    var ss := OperationsOf(cs, ls);
    LeadInvHolds(g, cs, ls, ss, xs, t);
    assert OpStepAt(ss, ls, t) && UserStepAt(g, ls, xs, t);
    ReturnVersion(g, ss[t], ls[t].client, ls[t].answer, xs[t][ls[t].client]);
  }

  lemma ReturnVersion(g: Config, s: State, c: nat, a: Answer<string>, u: Local)
    requires O.OpsOk(s) && UserOk(g, s, u, c) && c in s.cur && s.cur[c] < |s.ops|
    requires O.MayReturn(s.ops[s.cur[c]], a, s.failures)
    ensures (u.pc.AcqPutting? || u.pc.AcqChecking?) && Resume(g.id(c), u, a).pc == Leading ==>
              Resume(g.id(c), u, a).lkVer == u.pc.ver + 1
    ensures u.pc.RelPutting? ==> a == Status(OK) || a == Status(ErrMaybe)
  {
    match u.pc
    case AcqChecking(v) => GetFound(s, c, g.key, a);
    case RelPutting(v) => PutPast(s, c, g.key, "", v, a);
    case _ =>
  }

  /** Giving up leadership gives it up: when the Put of ReleaseLeadership returns, that very Put has replaced
      the controller's id by "". */
  lemma ReleaseClears(g: Config, cs: seq<Network.Net<string>>, ls: seq<Network.Label<string>>, xs: seq<Users>, t: nat)
    returns (u: nat)
    requires LeaderRun(g, cs, ls, xs) && t < |ls| && ls[t].Return? && ls[t].client in xs[t]
    requires xs[t][ls[t].client].pc.RelPutting?
    ensures var c := ls[t].client;
            var v := xs[t][c].pc.ver;
            && u < t && c in cs[t].clerks && Stores(cs, ls, u, cs[t].clerks[c].op, g.key, "", v)
            && g.key in cs[u].m && cs[u].m[g.key] == Entry(g.id(c), v)
  {
    var c := ls[t].client;
    var ss := OperationsOf(cs, ls);
    AtRelease(g, cs, ls, ss, xs, t);
    u := WriteHappened(cs, ls, ss, t, ss[t].cur[c], g.key, "", xs[t][c].pc.ver);
  }

  lemma AtRelease(g: Config, cs: seq<Network.Net<string>>, ls: seq<Network.Label<string>>, ss: seq<State>, xs: seq<Users>, t: nat)
    requires LeaderRun(g, cs, ls, xs) && Runs(cs, ls, ss) && ss[0] == Network.InitialState(cs[0])
    requires t < |ls| && ls[t].Return? && ls[t].client in xs[t] && xs[t][ls[t].client].pc.RelPutting?
    ensures var c, s := ls[t].client, ss[t];
            var v, h := xs[t][c].pc.ver, O.H(s, g.key);
            && c in cs[t].clerks && Awaits(s, c, Put(g.key, "", v)) && cs[t].clerks[c].op == s.cur[c]
            && 1 <= v && Wrote(s, h, c, v) && h[v - 1].value == g.id(c)
  {
    var c := ls[t].client;
    LeadInvHolds(g, cs, ls, ss, xs, t);
    ReturningOp(cs, ls, ss, t);
    ReleaseWrote(g, ss[t], c, ls[t].answer, xs[t]);
  }

  lemma ReleaseWrote(g: Config, s: State, c: nat, a: Answer<string>, x: Users)
    requires O.OpsOk(s) && O.CurrentOps(s) && LeadOps(g, s, x) && c in x && UserOk(g, s, x[c], c) && x[c].pc.RelPutting?
    requires c in s.cur && O.MayReturn(s.ops[s.cur[c]], a, s.failures)
    ensures var v, h := x[c].pc.ver, O.H(s, g.key);
            1 <= v && Awaits(s, c, Put(g.key, "", v)) && Wrote(s, h, c, v) && h[v - 1].value == g.id(c)
  {
    PutPast(s, c, g.key, "", x[c].pc.ver, a);
    assert LeadOp(g, s, x, s.cur[c]);
  }
}
