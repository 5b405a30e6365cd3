/** The append test of kvtest.go: clients that append to a shared list by Get and conditional Put, over a
    network that loses messages; and the proof that its final check passes after every run. */
module Appends {
  import opened Rpc
  import O = Operations
  import Network
  import opened Awaiting
  import opened ClerkRuns
  import opened AppendCheck

  const KEY := "k"

  type List = seq<Item>
  type State = O.State<List>
  type Hist = seq<O.Write<List>>

  /** Where a client is: between items, about to retry one, reading, writing. `Fatal` is a failed check. */
  datatype Pc =
    | Top | Again
    | Getting | Got(es: List, ver: nat)
    | Putting(es: List, ver: nat)
    | Fatal

  /** The client is at item `i`. */
  datatype Local = Local(i: nat, nok: nat, nmay: nat, pc: Pc)

  type Clients = map<nat, Local>

  function NextCall(me: nat, u: Local): Option<Call<List>>
  {
    match u.pc
    case Top => Some(Get(KEY))
    case Again => Some(Get(KEY))
    case Got(es, ver) => Some(Put(KEY, es + [Item(me, u.i)], ver))
    case _ => None
  }

  function Calling(u: Local): Local
  {
    u.(pc := if u.pc.Got? then Putting(u.pc.es, u.pc.ver) else Getting)
  }

  function Resume(u: Local, a: Answer<List>): Local
  {
    match u.pc
    case Getting => u.(pc := if a.Found? then Got(a.value, a.version) else Fatal)
    case Putting(_, _) =>
      if a == Status(OK) then Local(u.i + 1, u.nok + 1, u.nmay, Top)
      else if a == Status(ErrMaybe) then Local(u.i + 1, u.nok, u.nmay + 1, Top)
      else u.(pc := Again)
    case _ => u
  }

  /** One step of the clients; other clerks leave the key alone. */
  ghost predicate UserStep(x: Clients, l: O.Label<List>, x': Clients)
  {
    match l
    case Begin(c, call) =>
      if c in x then NextCall(c, x[c]) == Some(call) && x' == x[c := Calling(x[c])]
      else call.key != KEY && x' == x
    case Return(c, a) => x' == if c in x then x[c := Resume(x[c], a)] else x
    case _ => x' == x
  }

  // ---- The invariant ----

  ghost function Last(h: Hist): List
    requires h != []
  {
    h[|h| - 1].value
  }

  /** The client's items in the list: `items` of them are known to have got there, numbers below `next`. */
  ghost predicate Counted(es: List, c: nat, items: nat, next: nat)
  {
    items <= Count(es, c) && Expect(es, c) <= next
  }

  ghost predicate ReadAt(h: Hist, es: List, ver: nat)
  {
    1 <= ver <= |h| && h[ver - 1].value == es
  }

  ghost predicate UserOk(s: State, u: Local, c: nat)
  {
    var h := O.H(s, KEY);
    h != [] && u.i == u.nok + u.nmay &&
    match u.pc
    case Getting => Counted(Last(h), c, u.nok, u.i) && Awaits(s, c, Get(KEY)) && Base(s, c) > 0
    case Got(es, ver) => Counted(Last(h), c, u.nok, u.i) && ReadAt(h, es, ver)
    case Putting(es, ver) =>
      && ReadAt(h, es, ver) && Awaits(s, c, Put(KEY, es + [Item(c, u.i)], ver)) && ver <= Base(s, c)
      && (if Wrote(s, h, c, ver) then Counted(Last(h), c, u.nok + 1, u.i + 1) else Counted(Last(h), c, u.nok, u.i))
    case Fatal => false
    case _ => Counted(Last(h), c, u.nok, u.i)
  }

  ghost predicate UsersOk(s: State, x: Clients)
  {
    forall c :: c in x ==> UserOk(s, x[c], c)
  }

  /** A Put on the list is too old to be applied unless its client still waits for it. */
  ghost predicate AppendOp(s: State, x: Clients, i: nat)
    requires i < |s.ops|
  {
    var op, h := s.ops[i], O.H(s, KEY);
    op.call.Put? && op.call.key == KEY ==>
      && op.client in x
      && (op.call.version < |h| || (op.client in s.cur && s.cur[op.client] == i && x[op.client].pc.Putting?))
  }

  ghost predicate AppendOps(s: State, x: Clients)
  {
    forall i: nat :: i < |s.ops| ==> AppendOp(s, x, i)
  }

  /** Each value extends the ones before it by one item; the items are the clients', in order. */
  ghost predicate ListOk(h: Hist, x: Clients)
  {
    && h != [] && |Last(h)| + 1 == |h| && Increasing(Last(h))
    && (forall n :: 0 <= n < |h| ==> h[n].value <= Last(h))
    && forall k :: 0 <= k < |Last(h)| ==> Last(h)[k].id in x
  }

  ghost predicate AppendInv(s: State, x: Clients)
  {
    O.Inv(s) && ListOk(O.H(s, KEY), x) && UsersOk(s, x) && AppendOps(s, x)
  }

  // ---- Executing a request ----

  /** The request that appends is its client's, and its value is the list with one more item. */
  lemma Appending(s: State, x: Clients, i: nat)
    requires i < |s.ops| && s.ops[i].call.key == KEY && O.Applies(O.H(s, KEY), s.ops[i].call)
    requires UsersOk(s, x) && AppendOp(s, x, i)
    ensures var c := s.ops[i].client;
            && c in x && x[c].pc.Putting? && c in s.cur && s.cur[c] == i && O.H(s, KEY) != []
            && s.ops[i].call.value == Last(O.H(s, KEY)) + [Item(c, x[c].i)]
            && Counted(Last(O.H(s, KEY)), c, x[c].nok, x[c].i)
  {
    assert UserOk(s, x[s.ops[i].client], s.ops[i].client);
  }

  lemma ExecuteList(s: State, x: Clients, i: nat)
    requires i < |s.ops| && UsersOk(s, x) && AppendOp(s, x, i) && ListOk(O.H(s, KEY), x)
    ensures ListOk(O.H(O.Executed(s, i), KEY), x)
  {
    var h, h' := O.H(s, KEY), O.H(O.Executed(s, i), KEY);
    if s.ops[i].call.key == KEY && O.Applies(h, s.ops[i].call) {
      Appending(s, x, i);
      var c := s.ops[i].client;
      assert h' == h + [O.Write(s.ops[i].call.value, i)];
      IncreasingAppend(Last(h), Item(c, x[c].i));
    } else {
      assert h' == h;
    }
  }

  lemma ExecuteUser(s: State, x: Clients, i: nat, c: nat)
    requires i < |s.ops| && c in x && UsersOk(s, x) && AppendOp(s, x, i) && O.CurrentOps(s)
    ensures UserOk(O.Executed(s, i), x[c], c)
  {
    assert UserOk(s, x[c], c);
    var h, h' := O.H(s, KEY), O.H(O.Executed(s, i), KEY);
    if s.ops[i].call.key == KEY && O.Applies(h, s.ops[i].call) {
      Appending(s, x, i);
      var d := s.ops[i].client;
      assert h' == h + [O.Write(s.ops[i].call.value, i)];
      IncreasingAppend(Last(h), Item(d, x[d].i));
    } else {
      assert h' == h;
    }
  }

  lemma ExecuteOps(s: State, i: nat, x: Clients)
    requires i < |s.ops| && AppendOps(s, x)
    ensures AppendOps(O.Executed(s, i), x)
  {
    var s' := O.Executed(s, i);
    assert O.H(s, KEY) <= O.H(s', KEY);
    forall j: nat | j < |s'.ops| ensures AppendOp(s', x, j) { assert AppendOp(s, x, j); }
  }

  // ---- Beginning a call ----

  lemma BeginUser(s: State, c: nat, call: Call<List>, u: Local)
    requires c !in s.cur && UserOk(s, u, c) && NextCall(c, u) == Some(call) && O.WritesHaveOps(s)
    ensures UserOk(O.Began(s, c, call), Calling(u), c)
  {
    assert O.H(O.Began(s, c, call), KEY) == O.H(s, KEY);
  }

  lemma BeginOther(s: State, c: nat, call: Call<List>, u: Local, d: nat)
    requires O.CurrentOps(s) && UserOk(s, u, d) && d != c
    ensures UserOk(O.Began(s, c, call), u, d)
  {
    assert O.H(O.Began(s, c, call), KEY) == O.H(s, KEY);
  }

  lemma BeginOps(s: State, c: nat, call: Call<List>, x: Clients, x': Clients)
    requires O.CurrentOps(s) && c !in s.cur && AppendOps(s, x) && UserStep(x, O.Begin(c, call), x')
    ensures AppendOps(O.Began(s, c, call), x')
  {
    var s' := O.Began(s, c, call);
    assert O.H(s', KEY) == O.H(s, KEY);
    forall j: nat | j < |s'.ops| ensures AppendOp(s', x', j) {
      if j < |s.ops| { assert AppendOp(s, x, j); }
    }
  }

  // ---- Returning ----

  lemma ReturnUser(s: State, c: nat, a: Answer<List>, u: Local)
    requires O.OpsOk(s) && UserOk(s, u, c) && c in s.cur && s.cur[c] < |s.ops|
    requires u.pc.Getting? || u.pc.Putting?
    requires O.MayReturn(s.ops[s.cur[c]], a, s.failures)
    ensures UserOk(O.Answered(s, c, a), Resume(u, a), c)
  {
    assert O.H(O.Answered(s, c, a), KEY) == O.H(s, KEY);
    match u.pc
    case Getting => GetFound(s, c, KEY, a);
    case Putting(es, ver) => PutPast(s, c, KEY, es + [Item(c, u.i)], ver, a);
    case _ =>
  }

  lemma ReturnOther(s: State, c: nat, a: Answer<List>, u: Local, d: nat)
    requires O.CurrentOps(s) && c in s.cur && UserOk(s, u, d) && d != c
    ensures UserOk(O.Answered(s, c, a), u, d)
  {
    assert O.H(O.Answered(s, c, a), KEY) == O.H(s, KEY);
  }

  /** The operation that returns is past. */
  lemma ReturnOwnOp(s: State, c: nat, a: Answer<List>, u: Local)
    requires O.OpsOk(s) && UserOk(s, u, c) && c in s.cur && s.cur[c] < |s.ops|
    requires u.pc.Getting? || u.pc.Putting?
    requires O.MayReturn(s.ops[s.cur[c]], a, s.failures)
    ensures var call := s.ops[s.cur[c]].call; call.Put? && call.key == KEY ==> call.version < |O.H(s, KEY)|
  {
    match u.pc
    case Putting(es, ver) => PutPast(s, c, KEY, es + [Item(c, u.i)], ver, a);
    case _ =>
  }

  lemma ReturnOps(s: State, c: nat, a: Answer<List>, x: Clients, x': Clients)
    requires O.CurrentOps(s) && c in s.cur && AppendOps(s, x) && UserStep(x, O.Return(c, a), x')
    requires var call := s.ops[s.cur[c]].call; call.Put? && call.key == KEY ==> call.version < |O.H(s, KEY)|
    ensures AppendOps(O.Answered(s, c, a), x')
  {
    var s' := O.Answered(s, c, a);
    assert O.H(s', KEY) == O.H(s, KEY);
    forall j: nat | j < |s'.ops| ensures AppendOp(s', x', j) { assert AppendOp(s, x, j); }
  }

  // ---- Every step keeps the invariant ----

  lemma InvExecute(s: State, i: nat, x: Clients)
    requires AppendInv(s, x) && i < |s.ops| && O.Inv(O.Executed(s, i))
    ensures AppendInv(O.Executed(s, i), x)
  {
    assert AppendOp(s, x, i);
    ExecuteOps(s, i, x);
    ExecuteList(s, x, i);
    forall c | c in x ensures UserOk(O.Executed(s, i), x[c], c) { ExecuteUser(s, x, i, c); }
  }

  lemma InvBegin(s: State, c: nat, call: Call<List>, x: Clients, x': Clients)
    requires AppendInv(s, x) && c !in s.cur && UserStep(x, O.Begin(c, call), x') && O.Inv(O.Began(s, c, call))
    ensures AppendInv(O.Began(s, c, call), x')
  {
    BeginOps(s, c, call, x, x');
    assert O.H(O.Began(s, c, call), KEY) == O.H(s, KEY);
    forall d | d in x' ensures UserOk(O.Began(s, c, call), x'[d], d) {
      assert UserOk(s, x[d], d);
      if d == c { BeginUser(s, c, call, x[c]); } else { BeginOther(s, c, call, x[d], d); }
    }
  }

  lemma InvReturn(s: State, c: nat, a: Answer<List>, x: Clients, x': Clients)
    requires AppendInv(s, x) && c in s.cur && UserStep(x, O.Return(c, a), x') && O.Inv(O.Answered(s, c, a))
    requires O.MayReturn(s.ops[s.cur[c]], a, s.failures)
    requires c in x ==> x[c].pc.Getting? || x[c].pc.Putting?
    ensures AppendInv(O.Answered(s, c, a), x')
  {
    assert AppendOp(s, x, s.cur[c]);
    if c in x { ReturnOwnOp(s, c, a, x[c]); }
    ReturnOps(s, c, a, x, x');
    assert O.H(O.Answered(s, c, a), KEY) == O.H(s, KEY);
    forall d | d in x' ensures UserOk(O.Answered(s, c, a), x'[d], d) {
      assert UserOk(s, x[d], d);
      if d == c { ReturnUser(s, c, a, x[c]); } else { ReturnOther(s, c, a, x[d], d); }
    }
  }

  lemma InvFail(s: State, s': State, x: Clients)
    requires AppendInv(s, x) && s' == s.(now := s'.now, failures := s'.failures) && O.Inv(s')
    ensures AppendInv(s', x)
  {
    assert O.H(s', KEY) == O.H(s, KEY);
    forall j: nat | j < |s'.ops| ensures AppendOp(s', x, j) { assert AppendOp(s, x, j); }
    forall c | c in x ensures UserOk(s', x[c], c) { UserFails(s, s', x[c], c); }
  }

  lemma UserFails(s: State, s': State, u: Local, c: nat)
    requires UserOk(s, u, c) && s' == s.(now := s'.now, failures := s'.failures)
    ensures UserOk(s', u, c)
  {
    assert O.H(s', KEY) == O.H(s, KEY);
  }

  /** A client with an operation under way is waiting for it. */
  ghost predicate Attentive(s: State, x: Clients)
  {
    forall c :: c in x && c in s.cur ==> x[c].pc.Getting? || x[c].pc.Putting?
  }

  lemma AttentiveStep(s: State, l: O.Label<List>, s': State, x: Clients, x': Clients)
    requires O.Step(s, l, s') && UserStep(x, l, x') && Attentive(s, x)
    ensures Attentive(s', x')
  {
  }

  lemma InvStep(s: State, l: O.Label<List>, s': State, x: Clients, x': Clients)
    requires O.Step(s, l, s') && UserStep(x, l, x') && AppendInv(s, x) && Attentive(s, x)
    ensures AppendInv(s', x')
  {
    O.StepInv(s, l, s');
    match l
    case Begin(c, call) => InvBegin(s, c, call, x, x');
    case Execute(i) => InvExecute(s, i, x);
    case Return(c, a) => InvReturn(s, c, a, x, x');
    case Fail => InvFail(s, s', x);
  }

  // ---- Runs over the network ----

  ghost predicate UserStepAt(ls: seq<Network.Label<List>>, xs: seq<Clients>, t: nat)
  {
    t < |ls| && t + 1 < |xs| && UserStep(xs[t], Network.Abstract(ls[t]), xs[t + 1])
  }

  /** A run of appending clients; at the start the key holds the empty list at version 1. */
  ghost predicate AppendRun(cs: seq<Network.Net<List>>, ls: seq<Network.Label<List>>, xs: seq<Clients>)
  {
    && Run(cs, ls) && |xs| == |cs|
    && KEY in cs[0].m && cs[0].m[KEY] == Entry([], 1)
    && (forall c :: c in xs[0] ==> xs[0][c] == Local(0, 0, 0, Top))
    && forall t: nat :: t < |ls| ==> UserStepAt(ls, xs, t)
  }

  lemma InvStart(cs: seq<Network.Net<List>>, ls: seq<Network.Label<List>>, xs: seq<Clients>)
    requires AppendRun(cs, ls, xs)
    ensures AppendInv(Network.InitialState(cs[0]), xs[0]) && Attentive(Network.InitialState(cs[0]), xs[0])
  {
    Network.InitSim(cs[0]);
    assert O.H(Network.InitialState(cs[0]), KEY) == [O.Write([], -1)];
  }

  lemma {:induction false} InvHolds(cs: seq<Network.Net<List>>, ls: seq<Network.Label<List>>,
                                    ss: seq<State>, xs: seq<Clients>, t: nat)
    requires AppendRun(cs, ls, xs) && Runs(cs, ls, ss) && ss[0] == Network.InitialState(cs[0]) && t <= |ls|
    ensures AppendInv(ss[t], xs[t]) && Attentive(ss[t], xs[t])
  {
    if t == 0 {
      InvStart(cs, ls, xs);
    } else {
      InvHolds(cs, ls, ss, xs, t - 1);
      assert OpStepAt(ss, ls, t - 1) && UserStepAt(ls, xs, t - 1);
      InvStep(ss[t - 1], Network.Abstract(ls[t - 1]), ss[t], xs[t - 1], xs[t]);
      AttentiveStep(ss[t - 1], Network.Abstract(ls[t - 1]), ss[t], xs[t - 1], xs[t]);
    }
  }

  /** What the clients report once all of them have stopped. */
  ghost function Reports(x: Clients, n: nat): seq<ClntRes>
    requires forall c: nat :: c < n ==> c in x
  {
    seq(n, c requires 0 <= c < n => ClntRes(x[c].nok, x[c].nmay))
  }

  /** Whenever every client is between items, the test's check passes on what the server stores: no item is
      lost, doubled or out of order, and every OK is in the list. No client ever fails a check of its own. */
  lemma AppendsPass(cs: seq<Network.Net<List>>, ls: seq<Network.Label<List>>, xs: seq<Clients>, t: nat, n: nat)
    requires AppendRun(cs, ls, xs) && t <= |ls| && forall c :: c in xs[t] <==> c < n
    ensures KEY in cs[t].m
    ensures forall c :: c in xs[t] ==> xs[t][c].pc != Fatal
    ensures (forall c :: c in xs[t] ==> xs[t][c].pc == Top) ==>
              Passes(cs[t].m[KEY].value, Reports(xs[t], n), cs[t].m[KEY].version)
  {
    var ss := OperationsOf(cs, ls);
    InvHolds(cs, ls, ss, xs, t);
    MessagesAt(cs, ls, ss, t);
    forall c | c in xs[t] ensures xs[t][c].pc != Fatal { assert UserOk(ss[t], xs[t][c], c); }
    if forall c :: c in xs[t] ==> xs[t][c].pc == Top { QuietPasses(ss[t], xs[t], n); }
  }

  lemma QuietPasses(s: State, x: Clients, n: nat)
    requires AppendInv(s, x) && (forall c :: c in x <==> c < n) && forall c :: c in x ==> x[c].pc == Top
    ensures Passes(Last(O.H(s, KEY)), Reports(x, n), |O.H(s, KEY)|)
  {
    var es, rs := Last(O.H(s, KEY)), Reports(x, n);
    forall c | 0 <= c < |rs|
      ensures Expect(es, c) <= Count(es, c) + rs[c].nmaybe && Expect(es, c) <= rs[c].nok + rs[c].nmaybe
    {
      assert UserOk(s, x[c], c);
    }
  }

  lemma TallyStep(s: State, l: O.Label<List>, s': State, x: Clients, x': Clients, c: nat)
    requires O.Step(s, l, s') && UserStep(x, l, x') && Attentive(s, x) && UsersOk(s', x') && c in x'
    ensures c in x
    ensures x'[c].nok == x[c].nok + if l == O.Return(c, Status(OK)) then 1 else 0
    ensures x'[c].nmay == x[c].nmay + if l == O.Return(c, Status(ErrMaybe)) then 1 else 0
  {
    assert UserOk(s', x'[c], c);
  }

  lemma TallyAt(cs: seq<Network.Net<List>>, ls: seq<Network.Label<List>>, xs: seq<Clients>, t: nat, c: nat)
    requires AppendRun(cs, ls, xs) && t < |ls| && c in xs[t + 1]
    ensures c in xs[t]
    ensures xs[t + 1][c].nok == xs[t][c].nok + if ls[t] == Network.Return(c, Status(OK)) then 1 else 0
    ensures xs[t + 1][c].nmay == xs[t][c].nmay + if ls[t] == Network.Return(c, Status(ErrMaybe)) then 1 else 0
  {
    var ss := OperationsOf(cs, ls);
    InvHolds(cs, ls, ss, xs, t);
    InvHolds(cs, ls, ss, xs, t + 1);
    assert OpStepAt(ss, ls, t) && UserStepAt(ls, xs, t);
    TallyStep(ss[t], Network.Abstract(ls[t]), ss[t + 1], xs[t], xs[t + 1], c);
  }

  /** A client reports as many OKs and ErrMaybes as it was answered. */
  lemma {:induction false} AppendsTallied(cs: seq<Network.Net<List>>, ls: seq<Network.Label<List>>, xs: seq<Clients>, t: nat, c: nat)
    requires AppendRun(cs, ls, xs) && t <= |ls| && c in xs[t]
    ensures xs[t][c].nok == Answers(ls, c, OK, t) && xs[t][c].nmay == Answers(ls, c, ErrMaybe, t)
  {
    if t > 0 {
      TallyAt(cs, ls, xs, t - 1, c);
      AppendsTallied(cs, ls, xs, t - 1, c);
    }
  }

  /** Nothing that was ever in the list leaves it or moves. */
  lemma AppendsStay(cs: seq<Network.Net<List>>, ls: seq<Network.Label<List>>, xs: seq<Clients>, u: nat, t: nat)
    requires AppendRun(cs, ls, xs) && u <= t <= |ls|
    ensures KEY in cs[u].m && KEY in cs[t].m && cs[u].m[KEY].value <= cs[t].m[KEY].value
  {
    var ss := OperationsOf(cs, ls);
    InvHolds(cs, ls, ss, xs, u);
    InvHolds(cs, ls, ss, xs, t);
    MessagesAt(cs, ls, ss, u);
    MessagesAt(cs, ls, ss, t);
    HistoryGrows(cs, ls, ss, u, t, KEY);
    StaysIn(O.H(ss[u], KEY), O.H(ss[t], KEY), xs[t]);
  }

  lemma StaysIn(h: Hist, h': Hist, x: Clients)
    requires h != [] && h <= h' && ListOk(h', x)
    ensures Last(h) <= Last(h')
  {
    assert h'[|h| - 1] == h[|h| - 1];
  }
}
