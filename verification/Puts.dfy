/** The concurrent put test of kvtest.go: clients that keep writing one key, over a network that loses
    messages; and the proof that its final count is right after every run. */
module Puts {
  import opened Rpc
  import O = Operations
  import KvServer
  import Network
  import opened Awaiting
  import opened ClerkRuns
  import opened AppendCheck
  import opened PutCheck

  const KEY := "k"

  /** What a client writes: its number and the version it expects. */
  datatype EntryV = EntryV(id: nat, v: nat)

  type State = O.State<EntryV>
  type Hist = seq<O.Write<EntryV>>

  /** Where a client is; `ver` is the version it takes the key to have. `Fatal` is a failed check. */
  datatype Pc =
    | Loop(ver: nat) | Retry(ver: nat)
    | Putting(ver: nat)
    | Put1(err: Err, ver: nat) | Getting(err: Err, ver: nat)
    | Fatal

  datatype Local = Local(nok: nat, nmay: nat, pc: Pc)

  type Clients = map<nat, Local>

  function NextCall(me: nat, u: Local): Option<Call<EntryV>>
  {
    match u.pc
    case Loop(ver) => Some(Put(KEY, EntryV(me, ver), ver))
    case Retry(ver) => Some(Put(KEY, EntryV(me, ver), ver))
    case Put1(_, _) => Some(Get(KEY))
    case _ => None
  }

  function Calling(u: Local): Local
  {
    match u.pc
    case Loop(ver) => u.(pc := Putting(ver))
    case Retry(ver) => u.(pc := Putting(ver))
    case Put1(err, ver) => u.(pc := Getting(err, ver))
    case _ => u
  }

  function Resume(me: nat, u: Local, a: Answer<EntryV>): Local
  {
    match u.pc
    case Putting(ver) =>
      if a == Status(OK) || a == Status(ErrVersion) || a == Status(ErrMaybe) then u.(pc := Put1(a.err, ver)) else u.(pc := Fatal)
    case Getting(err, ver) =>
      if !a.Found? then u.(pc := Fatal)
      else if err == OK && a.version == ver + 1 && a.value.id != me && a.value.v != ver then u.(pc := Fatal)
      else if err == OK then Local(u.nok + 1, u.nmay, Loop(a.version))
      else if err == ErrMaybe then Local(u.nok, u.nmay + 1, Loop(a.version))
      else u.(pc := Retry(a.version))
    case _ => u
  }

  predicate Waiting(pc: Pc) { pc.Putting? || pc.Getting? }

  /** One step of the clients; other clerks leave the key alone. */
  ghost predicate UserStep(x: Clients, l: O.Label<EntryV>, x': Clients)
  {
    match l
    case Begin(c, call) =>
      if c in x then NextCall(c, x[c]) == Some(call) && x' == x[c := Calling(x[c])]
      else call.key != KEY && x' == x
    case Return(c, a) => x' == if c in x then x[c := Resume(c, x[c], a)] else x
    case _ => x' == x
  }

  // ---- The invariant ----

  /** How many of the writes are the client's. */
  ghost function Writes(h: Hist, c: nat): nat
  {
    if h == [] then 0 else Writes(h[..|h| - 1], c) + (if h[|h| - 1].value.id == c then 1 else 0)
  }

  lemma WritesMore(h: Hist, w: O.Write<EntryV>, c: nat)
    ensures Writes(h + [w], c) == Writes(h, c) + (if w.value.id == c then 1 else 0)
  {
    assert (h + [w])[..|h|] == h;
  }

  ghost predicate Between(h: Hist, c: nat, lo: nat, hi: nat)
  {
    lo <= Writes(h, c) <= hi
  }

  /** A Put has been answered by `err`, and the client has not yet counted it. */
  ghost predicate Answered1(s: State, u: Local, c: nat, err: Err, ver: nat)
  {
    var h := O.H(s, KEY);
    && ver < |h| && (err == OK ==> h[ver].value == EntryV(c, ver)) && (err == ErrMaybe ==> s.failures)
    && match err
       case OK => Between(h, c, u.nok + 1, u.nok + u.nmay + 1)
       case ErrMaybe => Between(h, c, u.nok, u.nok + u.nmay + 1)
       case ErrVersion => Between(h, c, u.nok, u.nok + u.nmay)
       case ErrNoKey => false
  }

  ghost predicate UserOk(s: State, u: Local, c: nat)
  {
    var h := O.H(s, KEY);
    (!s.failures ==> u.nmay == 0) &&
    match u.pc
    case Loop(ver) => ver <= |h| && Between(h, c, u.nok, u.nok + u.nmay)
    case Retry(ver) => ver <= |h| && Between(h, c, u.nok, u.nok + u.nmay)
    case Putting(ver) =>
      && Awaits(s, c, Put(KEY, EntryV(c, ver), ver)) && ver <= Base(s, c) && ver <= |h|
      && (if Wrote(s, h, c, ver) then Between(h, c, u.nok + 1, u.nok + u.nmay + 1)
          else Between(h, c, u.nok, u.nok + u.nmay))
    case Put1(err, ver) => Answered1(s, u, c, err, ver)
    case Getting(err, ver) => Answered1(s, u, c, err, ver) && Awaits(s, c, Get(KEY)) && Base(s, c) > 0
    case Fatal => false
  }

  ghost predicate UsersOk(s: State, x: Clients)
  {
    forall c :: c in x ==> UserOk(s, x[c], c)
  }

  /** A Put on the key is too old to be applied unless its client still waits for it. */
  ghost predicate PutOp(s: State, x: Clients, i: nat)
    requires i < |s.ops|
  {
    var op, h := s.ops[i], O.H(s, KEY);
    op.call.Put? && op.call.key == KEY ==>
      && op.client in x && op.call.value == EntryV(op.client, op.call.version)
      && (op.call.version < |h| || (op.client in s.cur && s.cur[op.client] == i && x[op.client].pc == Putting(op.call.version)))
  }

  ghost predicate PutOps(s: State, x: Clients)
  {
    forall i: nat :: i < |s.ops| ==> PutOp(s, x, i)
  }

  /** Only the clients write. */
  ghost predicate Ours(h: Hist, x: Clients)
  {
    forall n :: 0 <= n < |h| ==> h[n].value.id in x
  }

  ghost predicate PutInv(s: State, x: Clients)
  {
    O.Inv(s) && Ours(O.H(s, KEY), x) && UsersOk(s, x) && PutOps(s, x)
  }

  // ---- Executing a request ----

  lemma ExecuteUser(s: State, x: Clients, i: nat, c: nat)
    requires i < |s.ops| && c in x && UserOk(s, x[c], c) && PutOp(s, x, i) && O.CurrentOps(s)
    ensures UserOk(O.Executed(s, i), x[c], c)
  {
    var h, h' := O.H(s, KEY), O.H(O.Executed(s, i), KEY);
    if s.ops[i].call.key == KEY && O.Applies(h, s.ops[i].call) {
      assert h' == h + [O.Write(s.ops[i].call.value, i)];
      WritesMore(h, O.Write(s.ops[i].call.value, i), c);
    } else {
      assert h' == h;
    }
  }

  lemma ExecuteOps(s: State, i: nat, x: Clients)
    requires i < |s.ops| && PutOps(s, x)
    ensures PutOps(O.Executed(s, i), x)
  {
    var s' := O.Executed(s, i);
    assert O.H(s, KEY) <= O.H(s', KEY);
    forall j: nat | j < |s'.ops| ensures PutOp(s', x, j) { assert PutOp(s, x, j); }
  }

  // ---- Beginning a call ----

  lemma BeginUser(s: State, c: nat, call: Call<EntryV>, u: Local)
    requires c !in s.cur && UserOk(s, u, c) && NextCall(c, u) == Some(call) && O.WritesHaveOps(s)
    ensures UserOk(O.Began(s, c, call), Calling(u), c)
  {
    assert O.H(O.Began(s, c, call), KEY) == O.H(s, KEY);
  }

  lemma BeginOther(s: State, c: nat, call: Call<EntryV>, u: Local, d: nat)
    requires O.CurrentOps(s) && UserOk(s, u, d) && d != c
    ensures UserOk(O.Began(s, c, call), u, d)
  {
    assert O.H(O.Began(s, c, call), KEY) == O.H(s, KEY);
  }

  lemma BeginOps(s: State, c: nat, call: Call<EntryV>, x: Clients, x': Clients)
    requires O.CurrentOps(s) && c !in s.cur && PutOps(s, x) && UserStep(x, O.Begin(c, call), x')
    ensures PutOps(O.Began(s, c, call), x')
  {
    var s' := O.Began(s, c, call);
    assert O.H(s', KEY) == O.H(s, KEY);
    forall j: nat | j < |s'.ops| ensures PutOp(s', x', j) {
      if j < |s.ops| { assert PutOp(s, x, j); }
    }
  }

  // ---- Returning ----

  /** An OK means that the version after the client's is its own value. */
  lemma ReturnPut(s: State, c: nat, a: Answer<EntryV>, u: Local)
    requires O.Inv(s) && UserOk(s, u, c) && c in s.cur && u.pc.Putting?
    requires O.MayReturn(s.ops[s.cur[c]], a, s.failures)
    ensures UserOk(O.Answered(s, c, a), Resume(c, u, a), c)
  {
    var h, ver := O.H(s, KEY), u.pc.ver;
    assert O.H(O.Answered(s, c, a), KEY) == h;
    PutPast(s, c, KEY, EntryV(c, ver), ver, a);
    assert h[ver].op == s.cur[c] ==> h[ver].value == EntryV(c, ver);
  }

  lemma ReturnGet(s: State, c: nat, a: Answer<EntryV>, u: Local)
    requires O.OpsOk(s) && UserOk(s, u, c) && c in s.cur && u.pc.Getting?
    requires O.MayReturn(s.ops[s.cur[c]], a, s.failures)
    ensures UserOk(O.Answered(s, c, a), Resume(c, u, a), c)
    ensures u.pc.err == OK && a.Found? && a.version == u.pc.ver + 1 ==> a.value == EntryV(c, u.pc.ver)
  {
    assert O.H(O.Answered(s, c, a), KEY) == O.H(s, KEY);
    GetFound(s, c, KEY, a);
  }

  lemma ReturnOther(s: State, c: nat, a: Answer<EntryV>, u: Local, d: nat)
    requires O.CurrentOps(s) && c in s.cur && UserOk(s, u, d) && d != c
    ensures UserOk(O.Answered(s, c, a), u, d)
  {
    assert O.H(O.Answered(s, c, a), KEY) == O.H(s, KEY);
  }

  /** The operation that returns is past. */
  lemma ReturnOwnOp(s: State, c: nat, a: Answer<EntryV>, u: Local)
    requires O.OpsOk(s) && UserOk(s, u, c) && c in s.cur && s.cur[c] < |s.ops| && Waiting(u.pc)
    requires O.MayReturn(s.ops[s.cur[c]], a, s.failures)
    ensures var call := s.ops[s.cur[c]].call; call.Put? && call.key == KEY ==> call.version < |O.H(s, KEY)|
  {
    match u.pc
    case Putting(ver) => PutPast(s, c, KEY, EntryV(c, ver), ver, a);
    case _ =>
  }

  lemma ReturnOps(s: State, c: nat, a: Answer<EntryV>, x: Clients, x': Clients)
    requires O.CurrentOps(s) && c in s.cur && PutOps(s, x) && UserStep(x, O.Return(c, a), x')
    requires var call := s.ops[s.cur[c]].call; call.Put? && call.key == KEY ==> call.version < |O.H(s, KEY)|
    ensures PutOps(O.Answered(s, c, a), x')
  {
    var s' := O.Answered(s, c, a);
    assert O.H(s', KEY) == O.H(s, KEY);
    forall j: nat | j < |s'.ops| ensures PutOp(s', x', j) { assert PutOp(s, x, j); }
  }

  // ---- Every step keeps the invariant ----

  lemma InvExecute(s: State, i: nat, x: Clients)
    requires PutInv(s, x) && i < |s.ops| && O.Inv(O.Executed(s, i))
    ensures PutInv(O.Executed(s, i), x)
  {
    assert PutOp(s, x, i);
    ExecuteOps(s, i, x);
    forall c | c in x ensures UserOk(O.Executed(s, i), x[c], c) {
      assert UserOk(s, x[c], c);
      ExecuteUser(s, x, i, c);
    }
  }

  lemma InvBegin(s: State, c: nat, call: Call<EntryV>, x: Clients, x': Clients)
    requires PutInv(s, x) && c !in s.cur && UserStep(x, O.Begin(c, call), x') && O.Inv(O.Began(s, c, call))
    ensures PutInv(O.Began(s, c, call), x')
  {
    BeginOps(s, c, call, x, x');
    assert O.H(O.Began(s, c, call), KEY) == O.H(s, KEY);
    forall d | d in x' ensures UserOk(O.Began(s, c, call), x'[d], d) {
      assert UserOk(s, x[d], d);
      if d == c { BeginUser(s, c, call, x[c]); } else { BeginOther(s, c, call, x[d], d); }
    }
  }

  lemma InvReturn(s: State, c: nat, a: Answer<EntryV>, x: Clients, x': Clients)
    requires PutInv(s, x) && c in s.cur && UserStep(x, O.Return(c, a), x') && O.Inv(O.Answered(s, c, a))
    requires O.MayReturn(s.ops[s.cur[c]], a, s.failures)
    requires c in x ==> Waiting(x[c].pc)
    ensures PutInv(O.Answered(s, c, a), x')
  {
    assert PutOp(s, x, s.cur[c]);
    if c in x { ReturnOwnOp(s, c, a, x[c]); }
    ReturnOps(s, c, a, x, x');
    assert O.H(O.Answered(s, c, a), KEY) == O.H(s, KEY);
    forall d | d in x' ensures UserOk(O.Answered(s, c, a), x'[d], d) {
      assert UserOk(s, x[d], d);
      if d != c { ReturnOther(s, c, a, x[d], d); }
      else if x[c].pc.Putting? { ReturnPut(s, c, a, x[c]); }
      else { ReturnGet(s, c, a, x[c]); }
    }
  }

  lemma InvFail(s: State, s': State, x: Clients)
    requires PutInv(s, x) && s' == s.(now := s'.now, failures := true) && O.Inv(s')
    ensures PutInv(s', x)
  {
    assert O.H(s', KEY) == O.H(s, KEY);
    forall j: nat | j < |s'.ops| ensures PutOp(s', x, j) { assert PutOp(s, x, j); }
    forall c | c in x ensures UserOk(s', x[c], c) { UserFails(s, s', x[c], c); }
  }

  lemma UserFails(s: State, s': State, u: Local, c: nat)
    requires UserOk(s, u, c) && s' == s.(now := s'.now, failures := true)
    ensures UserOk(s', u, c)
  {
    assert O.H(s', KEY) == O.H(s, KEY);
  }

  /** A client with an operation under way is waiting for it. */
  ghost predicate Attentive(s: State, x: Clients)
  {
    forall c :: c in x && c in s.cur ==> Waiting(x[c].pc)
  }

  lemma AttentiveStep(s: State, l: O.Label<EntryV>, s': State, x: Clients, x': Clients)
    requires O.Step(s, l, s') && UserStep(x, l, x') && Attentive(s, x)
    ensures Attentive(s', x')
  {
  }

  lemma InvStep(s: State, l: O.Label<EntryV>, s': State, x: Clients, x': Clients)
    requires O.Step(s, l, s') && UserStep(x, l, x') && PutInv(s, x) && Attentive(s, x)
    ensures PutInv(s', x')
  {
    O.StepInv(s, l, s');
    match l
    case Begin(c, call) => InvBegin(s, c, call, x, x');
    case Execute(i) => InvExecute(s, i, x);
    case Return(c, a) => InvReturn(s, c, a, x, x');
    case Fail => InvFail(s, s', x);
  }

  // ---- Runs over the network ----

  ghost predicate UserStepAt(ls: seq<Network.Label<EntryV>>, xs: seq<Clients>, t: nat)
  {
    t < |ls| && t + 1 < |xs| && UserStep(xs[t], Network.Abstract(ls[t]), xs[t + 1])
  }

  /** A run of writing clients; at the start there is no such key. */
  ghost predicate PutRun(cs: seq<Network.Net<EntryV>>, ls: seq<Network.Label<EntryV>>, xs: seq<Clients>)
  {
    && Run(cs, ls) && |xs| == |cs| && KEY !in cs[0].m
    && (forall c :: c in xs[0] ==> xs[0][c] == Local(0, 0, Loop(0)))
    && forall t: nat :: t < |ls| ==> UserStepAt(ls, xs, t)
  }

  lemma InvStart(cs: seq<Network.Net<EntryV>>, ls: seq<Network.Label<EntryV>>, xs: seq<Clients>)
    requires PutRun(cs, ls, xs)
    ensures PutInv(Network.InitialState(cs[0]), xs[0]) && Attentive(Network.InitialState(cs[0]), xs[0])
  {
    Network.InitSim(cs[0]);
    assert O.H(Network.InitialState(cs[0]), KEY) == [];
  }

  lemma {:induction false} InvHolds(cs: seq<Network.Net<EntryV>>, ls: seq<Network.Label<EntryV>>,
                                    ss: seq<State>, xs: seq<Clients>, t: nat)
    requires PutRun(cs, ls, xs) && Runs(cs, ls, ss) && ss[0] == Network.InitialState(cs[0]) && t <= |ls|
    ensures PutInv(ss[t], xs[t]) && Attentive(ss[t], xs[t])
  {
    if t == 0 {
      InvStart(cs, ls, xs);
    } else {
      InvHolds(cs, ls, ss, xs, t - 1);
      assert OpStepAt(ss, ls, t - 1) && UserStepAt(ls, xs, t - 1);
      InvStep(ss[t - 1], Network.Abstract(ls[t - 1]), ss[t], xs[t - 1], xs[t]);
      AttentiveStep(ss[t - 1], Network.Abstract(ls[t - 1]), ss[t], xs[t - 1], xs[t]);
    }
  }

  /** No call has failed before step `t`. */
  ghost predicate Reliable(ls: seq<Network.Label<EntryV>>, t: nat)
  {
    forall u :: 0 <= u < t && u < |ls| ==> !ls[u].Retry?
  }

  lemma {:induction false} ReliableState(cs: seq<Network.Net<EntryV>>, ls: seq<Network.Label<EntryV>>, ss: seq<State>, t: nat)
    requires Runs(cs, ls, ss) && ss[0] == Network.InitialState(cs[0]) && t <= |ls| && Reliable(ls, t)
    ensures !ss[t].failures
  {
    if t > 0 {
      ReliableState(cs, ls, ss, t - 1);
      assert OpStepAt(ss, ls, t - 1);
    }
  }

  /** What the clients report once all of them have stopped. */
  ghost function Reports(x: Clients, n: nat): seq<ClntRes>
    requires forall c: nat :: c < n ==> c in x
  {
    seq(n, c requires 0 <= c < n => ClntRes(x[c].nok, x[c].nmay))
  }

  /** Every write is counted once, for one client. */
  ghost function Shared(h: Hist, n: nat): nat
  {
    if n == 0 then 0 else Shared(h, n - 1) + Writes(h, n - 1)
  }

  lemma {:induction false} SharedMore(h: Hist, w: O.Write<EntryV>, n: nat)
    ensures Shared(h + [w], n) == Shared(h, n) + (if w.value.id < n then 1 else 0)
  {
    if n > 0 {
      SharedMore(h, w, n - 1);
      WritesMore(h, w, n - 1);
    }
  }

  lemma {:induction false} SharedIsAll(h: Hist, n: nat)
    requires forall k :: 0 <= k < |h| ==> h[k].value.id < n
    ensures Shared(h, n) == |h|
  {
    if h == [] {
      SharedNone(n);
    } else {
      var m := |h| - 1;
      assert h == h[..m] + [h[m]];
      SharedIsAll(h[..m], n);
      SharedMore(h[..m], h[m], n);
    }
  }

  lemma {:induction false} SharedNone(n: nat)
    ensures Shared([], n) == 0
  {
    if n > 0 { SharedNone(n - 1); }
  }

  lemma {:induction false} SharedBetween(s: State, x: Clients, n: nat)
    requires UsersOk(s, x) && (forall c: nat :: c < n ==> c in x && x[c].pc.Loop?)
    ensures Oks(Reports(x, n)) <= Shared(O.H(s, KEY), n) <= Oks(Reports(x, n)) + Maybes(Reports(x, n))
    ensures !s.failures ==> Maybes(Reports(x, n)) == 0
  {
    if n > 0 {
      SharedBetween(s, x, n - 1);
      assert Reports(x, n)[..n - 1] == Reports(x, n - 1);
      assert UserOk(s, x[n - 1], n - 1);
    }
  }

  /** The version is the number of Puts applied. Whenever every client is between Puts, the test's check passes:
      at most one version per OK or ErrMaybe, at least one per OK, and exactly one per OK if no call failed. No
      client ever fails a check of its own. */
  lemma PutsPass(cs: seq<Network.Net<EntryV>>, ls: seq<Network.Label<EntryV>>, xs: seq<Clients>, t: nat, n: nat)
    requires PutRun(cs, ls, xs) && t <= |ls| && forall c :: c in xs[t] <==> c < n
    ensures forall c :: c in xs[t] ==> xs[t][c].pc != Fatal
    ensures KvServer.VersionOf(cs[t].m, KEY) == PutsApplied(cs, ls, KEY, t)
    ensures var ver, rs := KvServer.VersionOf(cs[t].m, KEY), Reports(xs[t], n);
            (forall c :: c in xs[t] ==> xs[t][c].pc.Loop?) ==>
              && Oks(rs) <= ver
              && Tallied(ver, rs, false)
              && (Reliable(ls, t) ==> Tallied(ver, rs, true))
  {
    var ss := OperationsOf(cs, ls);
    InvHolds(cs, ls, ss, xs, t);
    MessagesAt(cs, ls, ss, t);
    VersionCountsPuts(cs, ls, KEY, t);
    assert KvServer.VersionOf(cs[t].m, KEY) == |O.H(ss[t], KEY)|;
    forall c | c in xs[t] ensures xs[t][c].pc != Fatal { assert UserOk(ss[t], xs[t][c], c); }
    if forall c :: c in xs[t] ==> xs[t][c].pc.Loop? {
      SharedBetween(ss[t], xs[t], n);
      SharedIsAll(O.H(ss[t], KEY), n);
      if Reliable(ls, t) { ReliableState(cs, ls, ss, t); }
    }
  }

  /** The client has been answered `err` and is about to count it. */
  ghost predicate Owes(pc: Pc, err: Err) { (pc.Put1? || pc.Getting?) && pc.err == err }

  lemma TallyStep(s: State, l: O.Label<EntryV>, s': State, x: Clients, x': Clients, c: nat, err: Err)
    requires O.Step(s, l, s') && UserStep(x, l, x') && Attentive(s, x) && c in x' && x'[c].pc != Fatal
    requires err == OK || err == ErrMaybe
    ensures c in x
    ensures Tally(x'[c], err) == Tally(x[c], err) + if l == O.Return(c, Status(err)) then 1 else 0
  {
  }

  lemma ClientAt(cs: seq<Network.Net<EntryV>>, ls: seq<Network.Label<EntryV>>, ss: seq<State>, xs: seq<Clients>, t: nat)
    requires PutRun(cs, ls, xs) && Runs(cs, ls, ss) && ss[0] == Network.InitialState(cs[0]) && t <= |ls|
    ensures Attentive(ss[t], xs[t]) && forall c :: c in xs[t] ==> xs[t][c].pc != Fatal
  {
    InvHolds(cs, ls, ss, xs, t);
    forall c | c in xs[t] ensures xs[t][c].pc != Fatal { assert UserOk(ss[t], xs[t][c], c); }
  }

  /** What the client has counted or is about to count. */
  ghost function Tally(u: Local, err: Err): nat
  {
    (if err == OK then u.nok else u.nmay) + if Owes(u.pc, err) then 1 else 0
  }

  lemma TallyAt(cs: seq<Network.Net<EntryV>>, ls: seq<Network.Label<EntryV>>, xs: seq<Clients>, t: nat, c: nat, err: Err)
    requires PutRun(cs, ls, xs) && t < |ls| && c in xs[t + 1] && (err == OK || err == ErrMaybe)
    ensures c in xs[t]
    ensures Tally(xs[t + 1][c], err) == Tally(xs[t][c], err) + if ls[t] == Network.Return(c, Status(err)) then 1 else 0
  {
    var ss := OperationsOf(cs, ls);
    ClientAt(cs, ls, ss, xs, t);
    ClientAt(cs, ls, ss, xs, t + 1);
    assert OpStepAt(ss, ls, t) && UserStepAt(ls, xs, t);
    TallyStep(ss[t], Network.Abstract(ls[t]), ss[t + 1], xs[t], xs[t + 1], c, err);
  }

  lemma {:induction false} TallyHolds(cs: seq<Network.Net<EntryV>>, ls: seq<Network.Label<EntryV>>, xs: seq<Clients>, t: nat, c: nat, err: Err)
    requires PutRun(cs, ls, xs) && t <= |ls| && c in xs[t] && (err == OK || err == ErrMaybe)
    ensures Tally(xs[t][c], err) == Answers(ls, c, err, t)
  {
    if t > 0 {
      TallyAt(cs, ls, xs, t - 1, c, err);
      TallyHolds(cs, ls, xs, t - 1, c, err);
    }
  }

  /** A client reports as many OKs and ErrMaybes as it was answered. */
  lemma PutsTallied(cs: seq<Network.Net<EntryV>>, ls: seq<Network.Label<EntryV>>, xs: seq<Clients>, t: nat, c: nat)
    requires PutRun(cs, ls, xs) && t <= |ls| && c in xs[t]
    ensures xs[t][c].nok + (if Owes(xs[t][c].pc, OK) then 1 else 0) == Answers(ls, c, OK, t)
    ensures xs[t][c].nmay + (if Owes(xs[t][c].pc, ErrMaybe) then 1 else 0) == Answers(ls, c, ErrMaybe, t)
  {
    TallyHolds(cs, ls, xs, t, c, OK);
    TallyHolds(cs, ls, xs, t, c, ErrMaybe);
  }

  /** After an OK, a Get that finds the very next version finds the client's own value. */
  lemma OwnValue(cs: seq<Network.Net<EntryV>>, ls: seq<Network.Label<EntryV>>, xs: seq<Clients>, t: nat)
    requires PutRun(cs, ls, xs) && t < |ls| && ls[t].Return? && ls[t].client in xs[t]
    requires var pc, a := xs[t][ls[t].client].pc, ls[t].answer;
             pc.Getting? && pc.err == OK && a.Found? && a.version == pc.ver + 1
    ensures ls[t].answer.value == EntryV(ls[t].client, xs[t][ls[t].client].pc.ver)
  {
    var ss := OperationsOf(cs, ls);
    InvHolds(cs, ls, ss, xs, t);
    assert OpStepAt(ss, ls, t);
    assert UserOk(ss[t], xs[t][ls[t].client], ls[t].client);
    ReturnGet(ss[t], ls[t].client, ls[t].answer, xs[t][ls[t].client]);
  }
}
