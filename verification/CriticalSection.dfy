/** The lock test's client (lock_test.go): acquire, read "l0", write to it twice, release; and the proof
    that none of its checks can fail. */
module CriticalSection {
  import opened Rpc
  import O = Operations
  import Network
  import opened ClerkRuns
  import L = Lock
  import LockSafety

  const LOCK := "l"
  const DATA := "l0"

  /** Where a client is outside the lock code. `Fatal` is a failed check. */
  datatype Body =
    | Start | Put0
    | Outside
    | Getting | Got(ver: nat)
    | Put1(ver: nat) | Mid(ver: nat)
    | Put2(ver: nat) | Leaving
    | Fatal

  datatype Client = Client(lock: L.Local, body: Body)

  type Clients = map<nat, Client>

  /** The clerk call that a client makes next; `name` is what it writes while inside. */
  function NextCall(name: string, u: Client): Option<Call<string>>
  {
    match u.body
    case Start => if u.lock.pc == L.Free then Some(Put(DATA, "", 0)) else L.NextCall(LOCK, u.lock)
    case Outside => if u.lock.pc == L.Held then Some(Get(DATA)) else L.NextCall(LOCK, u.lock)
    case Got(ver) => Some(Put(DATA, name, ver))
    case Mid(ver) => Some(Put(DATA, "", ver + 1))
    case Leaving => L.NextCall(LOCK, u.lock)
    case _ => None
  }

  function Calling(name: string, u: Client): Client
    requires NextCall(name, u).Some?
  {
    match u.body
    case Start => if u.lock.pc == L.Free then u.(body := Put0) else u.(lock := L.Calling(u.lock))
    case Outside => if u.lock.pc == L.Held then u.(body := Getting) else u.(lock := L.Calling(u.lock))
    case Got(ver) => u.(body := Put1(ver))
    case Mid(ver) => u.(body := Put2(ver))
    case Leaving => Client(L.Calling(u.lock), Outside)
  }

  predicate Accepted(a: Answer<string>) { a == Status(OK) || a == Status(ErrMaybe) }

  function Resume(u: Client, a: Answer<string>): Client
  {
    if L.Waiting(u.lock) then u.(lock := L.Resume(u.lock, a)) else
    match u.body
    case Put0 => u.(body := Outside)
    case Getting => u.(body := if a.Found? && a.value == "" then Got(a.version) else Fatal)
    case Put1(ver) => u.(body := if Accepted(a) then Mid(ver) else Fatal)
    case Put2(ver) => u.(body := if Accepted(a) then Leaving else Fatal)
    case _ => u
  }

  /** One step of the clients; `names` gives the string that each of them writes. */
  ghost predicate ClientStep(names: nat -> string, y: Clients, l: O.Label<string>, y': Clients)
  {
    match l
    case Begin(c, call) => c in y && NextCall(names(c), y[c]) == Some(call) && y' == y[c := Calling(names(c), y[c])]
    case Return(c, a) => c in y && y' == y[c := Resume(y[c], a)]
    case _ => y' == y
  }

  ghost function Locks(y: Clients): LockSafety.Users
  {
    map c | c in y :: y[c].lock
  }

  /** Parts of the loop that only the holder of the lock runs. */
  predicate Inside(b: Body)
  {
    b.Getting? || b.Got? || b.Put1? || b.Mid? || b.Put2? || b.Leaving?
  }

  predicate Writing(b: Body) { b.Put1? || b.Mid? || b.Put2? }

  ghost predicate Shape(u: Client)
  {
    && (Inside(u.body) ==> u.lock.pc == L.Held)
    && (u.body == Put0 ==> u.lock.pc == L.Free)
  }

  lemma ShapeKept(name: string, u: Client)
    requires Shape(u)
    ensures NextCall(name, u).Some? ==> Shape(Calling(name, u))
    ensures forall a :: Shape(Resume(u, a))
  {
  }

  ghost predicate Shapes(y: Clients)
  {
    forall c :: c in y ==> Shape(y[c])
  }

  /** A step of the clients is a step of the lock's users. */
  lemma IsUserStep(names: nat -> string, y: Clients, l: O.Label<string>, y': Clients)
    requires ClientStep(names, y, l, y') && Shapes(y)
    ensures LockSafety.UserStep(LOCK, Locks(y), l, Locks(y')) && Shapes(y')
  {
    match l
    case Begin(c, call) =>
      ShapeKept(names(c), y[c]);
      assert Locks(y') == Locks(y)[c := y'[c].lock];
      assert Shape(y[c]);
    case Return(c, a) =>
      ShapeKept(names(c), y[c]);
      assert Locks(y') == Locks(y)[c := y'[c].lock];
      assert Locks(y)[c := y[c].lock] == Locks(y);
    case _ =>
  }

  // ---- The data key ----

  type State = O.State<string>

  ghost function Data(s: State): seq<O.Write<string>> { O.H(s, DATA) }

  ghost predicate Awaits(s: State, c: nat, call: Call<string>)
  {
    c in s.cur && s.cur[c] < |s.ops| && s.ops[s.cur[c]].call == call
  }

  /** The client's Put of version `v` is the only one that can still be applied, and its effect is all
      that can have happened to the data since it began. */
  ghost predicate Pushing(s: State, c: nat, value: string, v: nat)
  {
    && Awaits(s, c, Put(DATA, value, v)) && s.ops[s.cur[c]].base == v
    && (|Data(s)| == v || (|Data(s)| == v + 1 && Data(s)[v].op == s.cur[c]))
  }

  ghost predicate BodyOk(s: State, name: string, b: Body, c: nat)
  {
    && !b.Fatal?
    && (!b.Start? && !b.Put0? ==> Data(s) != [])
    && (b.Put0? ==> Awaits(s, c, Put(DATA, "", 0)))
    && (b.Getting? ==> Awaits(s, c, Get(DATA)) && s.ops[s.cur[c]].base == |Data(s)|)
    && (b.Got? ==> |Data(s)| == b.ver)
    && (b.Put1? ==> Pushing(s, c, name, b.ver) && b.ver > 0)
    && (b.Mid? ==> |Data(s)| == b.ver + 1 && Data(s)[b.ver].value == name)
    && (b.Put2? ==> Pushing(s, c, "", b.ver + 1))
  }

  ghost predicate BodiesOk(names: nat -> string, s: State, y: Clients)
  {
    forall c :: c in y ==> BodyOk(s, names(c), y[c].body, c)
  }

  /** Unless somebody is writing, the data is "". */
  ghost predicate Quiet(s: State, y: Clients)
  {
    (forall c :: c in y ==> !Writing(y[c].body)) && Data(s) != [] ==> Data(s)[|Data(s)| - 1].value == ""
  }

  /** The client whose current operation is `i` is about to write version `v`. */
  ghost predicate Owns(s: State, y: Clients, i: nat, c: nat, v: nat)
  {
    c in y && c in s.cur && s.cur[c] == i && (y[c].body == Put1(v) || (v > 0 && y[c].body == Put2(v - 1)))
  }

  /** A Put on the data key is the initial one, or too old to be applied, or the current one of the client
      inside the critical section. */
  ghost predicate DataOp(s: State, y: Clients, i: nat)
    requires i < |s.ops|
  {
    var op := s.ops[i];
    op.call.Put? && op.call.key == DATA ==>
      || (op.call.version == 0 && op.call.value == "")
      || op.call.version < |Data(s)|
      || Owns(s, y, i, op.client, op.call.version)
  }

  ghost predicate DataOps(s: State, y: Clients)
  {
    forall i: nat :: i < |s.ops| ==> DataOp(s, y, i)
  }

  ghost predicate DataInv(names: nat -> string, s: State, y: Clients)
  {
    LockSafety.LockInv(LOCK, s, Locks(y)) && Shapes(y) && BodyInv(names, s, y)
  }

  /** Only one client is inside the critical section. */
  lemma OneInside(s: State, y: Clients, c: nat, d: nat)
    requires LockSafety.UsersOk(LOCK, s, Locks(y)) && Shapes(y)
    requires c in y && d in y && Inside(y[c].body) && Inside(y[d].body)
    ensures c == d
  {
    var x := Locks(y);
    assert Shape(y[c]) && Shape(y[d]);
    assert LockSafety.UserOk(LOCK, s, x[c], c) && LockSafety.UserOk(LOCK, s, x[d], d);
    LockSafety.OneHolder(LOCK, s, c, x[c].version, d, x[d].version);
  }

  // ---- Executing a request ----

  lemma ExecuteBody(names: nat -> string, s: State, i: nat, y: Clients, c: nat)
    requires i < |s.ops| && c in y && BodiesOk(names, s, y) && DataOps(s, y)
    requires LockSafety.UsersOk(LOCK, s, Locks(y)) && Shapes(y)
    ensures BodyOk(O.Executed(s, i), names(c), y[c].body, c)
  {
    var s', op := O.Executed(s, i), s.ops[i];
    assert BodyOk(s, names(c), y[c].body, c);
    if op.call.key == DATA && O.Applies(Data(s), op.call) {
      assert DataOp(s, y, i);
      assert Data(s') == Data(s) + [O.Write(op.call.value, i)];
      var d := op.client;
      if Owns(s, y, i, d, op.call.version) && d != c && Inside(y[c].body) { OneInside(s, y, c, d); }
    } else {
      assert Data(s') == Data(s);
    }
  }

  lemma ExecuteQuiet(s: State, i: nat, y: Clients)
    requires i < |s.ops| && Quiet(s, y) && DataOps(s, y)
    ensures Quiet(O.Executed(s, i), y)
  {
    var s', op := O.Executed(s, i), s.ops[i];
    if op.call.key == DATA && O.Applies(Data(s), op.call) {
      assert DataOp(s, y, i);
      assert Data(s') == Data(s) + [O.Write(op.call.value, i)];
    } else {
      assert Data(s') == Data(s);
    }
  }

  lemma ExecuteOps(s: State, i: nat, y: Clients)
    requires i < |s.ops| && DataOps(s, y)
    ensures DataOps(O.Executed(s, i), y)
  {
    var s' := O.Executed(s, i);
    assert Data(s) <= Data(s');
    forall j: nat | j < |s'.ops| ensures DataOp(s', y, j) { assert DataOp(s, y, j); }
  }

  // ---- Beginning a call ----

  lemma BeginBody(names: nat -> string, s: State, c: nat, call: Call<string>, y: Clients, d: nat)
    requires O.CurrentOps(s) && c !in s.cur && BodiesOk(names, s, y) && c in y && d in y
    requires NextCall(names(c), y[c]) == Some(call)
    ensures BodyOk(O.Began(s, c, call), names(d), y[c := Calling(names(c), y[c])][d].body, d)
  {
    assert BodyOk(s, names(d), y[d].body, d);
    assert Data(O.Began(s, c, call)) == Data(s);
  }

  lemma BeginOps(names: nat -> string, s: State, c: nat, call: Call<string>, y: Clients)
    requires O.CurrentOps(s) && c !in s.cur && DataOps(s, y) && c in y && NextCall(names(c), y[c]) == Some(call)
    ensures DataOps(O.Began(s, c, call), y[c := Calling(names(c), y[c])])
  {
    var s', y' := O.Began(s, c, call), y[c := Calling(names(c), y[c])];
    assert Data(s') == Data(s);
    forall j: nat | j < |s'.ops| ensures DataOp(s', y', j) {
      if j < |s.ops| { assert DataOp(s, y, j); }
    }
  }

  // ---- Returning ----

  /** What an answer to a Put inside the critical section says: it was applied. */
  lemma PushAnswered(s: State, c: nat, value: string, v: nat, a: Answer<string>)
    requires O.OpsOk(s) && O.WritesHaveOps(s) && Pushing(s, c, value, v) && v > 0
    requires O.MayReturn(s.ops[s.cur[c]], a, s.failures)
    ensures Accepted(a) && |Data(s)| == v + 1 && Data(s)[v].value == value
  {
    var i := s.cur[c];
    assert O.OpOk(s.ops[i], i, Data(s), s.failures);
  }

  /** Inside the critical section the client reads "". */
  lemma GetAnswered(s: State, c: nat, a: Answer<string>)
    requires O.OpsOk(s) && Awaits(s, c, Get(DATA)) && s.ops[s.cur[c]].base == |Data(s)| > 0
    requires O.MayReturn(s.ops[s.cur[c]], a, s.failures)
    ensures a.Found? && a.version == |Data(s)| && a.value == Data(s)[|Data(s)| - 1].value
  {
    var i := s.cur[c];
    assert O.OpOk(s.ops[i], i, Data(s), s.failures);
  }

  /** After the initial Put the data key exists, whatever the answer. */
  lemma InitialPutAnswered(s: State, c: nat, a: Answer<string>)
    requires O.OpsOk(s) && Awaits(s, c, Put(DATA, "", 0)) && O.MayReturn(s.ops[s.cur[c]], a, s.failures)
    ensures Data(s) != []
  {
    var i := s.cur[c];
    assert O.OpOk(s.ops[i], i, Data(s), s.failures);
  }

  /** While a client is inside but not writing, the data is "". */
  lemma InsideQuiet(s: State, y: Clients, c: nat)
    requires LockSafety.UsersOk(LOCK, s, Locks(y)) && Shapes(y) && Quiet(s, y)
    requires c in y && Inside(y[c].body) && !Writing(y[c].body) && Data(s) != []
    ensures Data(s)[|Data(s)| - 1].value == ""
  {
    forall d | d in y ensures !Writing(y[d].body) {
      if Writing(y[d].body) { OneInside(s, y, c, d); }
    }
  }

  /** What the answer that client `c` gets tells about the data. */
  ghost predicate AnswerFits(s: State, name: string, b: Body, a: Answer<string>)
  {
    && (b.Put0? ==> Data(s) != [])
    && (b.Getting? ==> a.Found? && a.value == "" && a.version == |Data(s)|)
    && (b.Put1? ==> Accepted(a) && |Data(s)| == b.ver + 1 && Data(s)[b.ver].value == name)
    && (b.Put2? ==> Accepted(a) && |Data(s)| == b.ver + 2)
  }

  lemma AnswerDoesFit(names: nat -> string, s: State, c: nat, a: Answer<string>, y: Clients)
    requires O.OpsOk(s) && O.WritesHaveOps(s) && BodiesOk(names, s, y) && Quiet(s, y)
    requires LockSafety.UsersOk(LOCK, s, Locks(y)) && Shapes(y)
    requires c in y && c in s.cur && s.cur[c] < |s.ops| && O.MayReturn(s.ops[s.cur[c]], a, s.failures)
    ensures AnswerFits(s, names(c), y[c].body, a)
  {
    assert BodyOk(s, names(c), y[c].body, c);
    match y[c].body
    case Put0 => InitialPutAnswered(s, c, a);
    case Getting => GetAnswered(s, c, a); InsideQuiet(s, y, c);
    case Put1(v) => PushAnswered(s, c, names(c), v, a);
    case Put2(v) => PushAnswered(s, c, "", v + 1, a);
    case _ =>
  }

  lemma ReturnBody(names: nat -> string, s: State, c: nat, a: Answer<string>, y: Clients, d: nat)
    requires BodiesOk(names, s, y) && Shapes(y) && c in y && d in y && c in s.cur && s.cur[c] < |s.ops|
    requires AnswerFits(s, names(c), y[c].body, a) && O.CurrentOps(s)
    ensures BodyOk(O.Answered(s, c, a), names(d), y[c := Resume(y[c], a)][d].body, d)
  {
    assert Data(O.Answered(s, c, a)) == Data(s);
    assert BodyOk(s, names(d), y[d].body, d) && Shape(y[d]);
  }

  /** The data after the second Put is its value. */
  lemma LastPush(s: State, c: nat, v: nat)
    requires O.WritesHaveOps(s) && Pushing(s, c, "", v) && |Data(s)| == v + 1
    ensures Data(s)[v].value == ""
  {
  }

  /** Only the answer to the second Put ends the writing. */
  lemma StillWriting(u: Client, a: Answer<string>)
    requires Writing(u.body) && !u.body.Put2? && (u.body.Put1? ==> Accepted(a))
    ensures Writing(Resume(u, a).body)
  {
  }

  lemma ReturnQuiet(names: nat -> string, s: State, c: nat, a: Answer<string>, y: Clients)
    requires O.WritesHaveOps(s) && BodiesOk(names, s, y) && Quiet(s, y)
    requires c in y && c in s.cur && s.cur[c] < |s.ops| && AnswerFits(s, names(c), y[c].body, a)
    ensures Quiet(O.Answered(s, c, a), y[c := Resume(y[c], a)])
  {
    var s', y' := O.Answered(s, c, a), y[c := Resume(y[c], a)];
    assert Data(s') == Data(s);
    if y[c].body.Put2? {
      assert BodyOk(s, names(c), y[c].body, c);
      LastPush(s, c, y[c].body.ver + 1);
    } else {
      if Writing(y[c].body) { StillWriting(y[c], a); }
      assert forall d :: d in y && Writing(y[d].body) ==> d in y' && Writing(y'[d].body);
    }
  }

  lemma ReturnOps(names: nat -> string, s: State, c: nat, a: Answer<string>, y: Clients)
    requires BodiesOk(names, s, y) && DataOps(s, y) && O.CurrentOps(s)
    requires c in y && c in s.cur && AnswerFits(s, names(c), y[c].body, a)
    ensures DataOps(O.Answered(s, c, a), y[c := Resume(y[c], a)])
  {
    var s', y' := O.Answered(s, c, a), y[c := Resume(y[c], a)];
    assert Data(s') == Data(s);
    forall j: nat | j < |s'.ops| ensures DataOp(s', y', j) {
      assert DataOp(s, y, j);
      assert BodyOk(s, names(c), y[c].body, c);
    }
  }

  // ---- Every step keeps the invariant ----

  ghost predicate BodyInv(names: nat -> string, s: State, y: Clients)
  {
    BodiesOk(names, s, y) && Quiet(s, y) && DataOps(s, y)
  }

  lemma BodyInvExecute(names: nat -> string, s: State, i: nat, y: Clients)
    requires i < |s.ops| && BodyInv(names, s, y) && LockSafety.UsersOk(LOCK, s, Locks(y)) && Shapes(y)
    ensures BodyInv(names, O.Executed(s, i), y)
  {
    ExecuteQuiet(s, i, y);
    ExecuteOps(s, i, y);
    forall c | c in y ensures BodyOk(O.Executed(s, i), names(c), y[c].body, c) {
      ExecuteBody(names, s, i, y, c);
    }
  }

  lemma BodyInvBegin(names: nat -> string, s: State, c: nat, call: Call<string>, y: Clients)
    requires BodyInv(names, s, y) && O.CurrentOps(s) && c !in s.cur && c in y && NextCall(names(c), y[c]) == Some(call)
    ensures BodyInv(names, O.Began(s, c, call), y[c := Calling(names(c), y[c])])
  {
    var s', y' := O.Began(s, c, call), y[c := Calling(names(c), y[c])];
    BeginOps(names, s, c, call, y);
    assert Quiet(s', y') by {
      assert Data(s') == Data(s);
      assert forall d :: d in y ==> (Writing(y[d].body) ==> Writing(y'[d].body));
    }
    forall d | d in y' ensures BodyOk(s', names(d), y'[d].body, d) {
      BeginBody(names, s, c, call, y, d);
    }
  }

  lemma BodyInvReturn(names: nat -> string, s: State, c: nat, a: Answer<string>, y: Clients)
    requires BodyInv(names, s, y) && O.CurrentOps(s) && O.WritesHaveOps(s) && Shapes(y)
    requires c in y && c in s.cur && AnswerFits(s, names(c), y[c].body, a)
    ensures BodyInv(names, O.Answered(s, c, a), y[c := Resume(y[c], a)])
  {
    ReturnQuiet(names, s, c, a, y);
    ReturnOps(names, s, c, a, y);
    forall d | d in y ensures BodyOk(O.Answered(s, c, a), names(d), y[c := Resume(y[c], a)][d].body, d) {
      ReturnBody(names, s, c, a, y, d);
    }
  }

  lemma BodyInvFail(names: nat -> string, s: State, s': State, y: Clients)
    requires BodyInv(names, s, y) && s' == s.(now := s'.now, failures := s'.failures)
    ensures BodyInv(names, s', y)
  {
    assert Data(s') == Data(s);
    forall j: nat | j < |s'.ops| ensures DataOp(s', y, j) { assert DataOp(s, y, j); }
    forall c | c in y ensures BodyOk(s', names(c), y[c].body, c) { assert BodyOk(s, names(c), y[c].body, c); }
  }

  lemma DataInvStep(names: nat -> string, s: State, l: O.Label<string>, s': State, y: Clients, y': Clients)
    requires O.Step(s, l, s') && ClientStep(names, y, l, y') && DataInv(names, s, y)
    ensures DataInv(names, s', y')
  {
    IsUserStep(names, y, l, y');
    LockSafety.LockInvStep(LOCK, s, l, s', Locks(y), Locks(y'));
    match l
    case Begin(c, call) => BodyInvBegin(names, s, c, call, y);
    case Execute(i) => BodyInvExecute(names, s, i, y);
    case Return(c, a) => AnswerDoesFit(names, s, c, a, y); BodyInvReturn(names, s, c, a, y);
    case Fail => BodyInvFail(names, s, s', y);
  }

  // ---- Runs over the network ----

  ghost predicate ClientStepAt(names: nat -> string, ls: seq<Network.Label<string>>, ys: seq<Clients>, t: nat)
  {
    t < |ls| && t + 1 < |ys| && ClientStep(names, ys[t], Network.Abstract(ls[t]), ys[t + 1])
  }

  /** A run of the test: any number of clients, starting from an empty server. */
  ghost predicate TestRun(names: nat -> string, cs: seq<Network.Net<string>>, ls: seq<Network.Label<string>>, ys: seq<Clients>)
  {
    && Run(cs, ls) && |ys| == |cs|
    && cs[0].m == map[] && (forall c :: c in ys[0] ==> ys[0][c] == Client(L.Local(L.New, 0), Start))
    && forall t: nat :: t < |ls| ==> ClientStepAt(names, ls, ys, t)
  }

  lemma {:induction false} DataInvHolds(names: nat -> string, cs: seq<Network.Net<string>>, ls: seq<Network.Label<string>>,
                                        ss: seq<State>, ys: seq<Clients>, t: nat)
    requires TestRun(names, cs, ls, ys) && Runs(cs, ls, ss) && ss[0] == Network.InitialState(cs[0]) && t <= |ls|
    ensures DataInv(names, ss[t], ys[t])
  {
    if t == 0 {
      Network.InitSim(cs[0]);
    } else {
      DataInvHolds(names, cs, ls, ss, ys, t - 1);
      assert OpStepAt(ss, ls, t - 1) && ClientStepAt(names, ls, ys, t - 1);
      DataInvStep(names, ss[t - 1], Network.Abstract(ls[t - 1]), ss[t], ys[t - 1], ys[t]);
    }
  }

  /** No check of the test can fail: a client that has acquired the lock reads "" from "l0", and both of
      its Puts there return OK or ErrMaybe. */
  lemma NoFatal(names: nat -> string, cs: seq<Network.Net<string>>, ls: seq<Network.Label<string>>, ys: seq<Clients>, t: nat)
    requires TestRun(names, cs, ls, ys) && t <= |ls|
    ensures forall c :: c in ys[t] ==> !ys[t][c].body.Fatal?
    ensures t < |ls| && ls[t].Return? ==>
              var c, a := ls[t].client, ls[t].answer;
              && c in ys[t]
              && (ys[t][c].body.Getting? ==> a.Found? && a.value == "")
              && (ys[t][c].body.Put1? || ys[t][c].body.Put2? ==> a == Status(OK) || a == Status(ErrMaybe))
  {
    var ss := OperationsOf(cs, ls);
    DataInvHolds(names, cs, ls, ss, ys, t);
    forall c | c in ys[t] ensures !ys[t][c].body.Fatal? {
      assert BodyOk(ss[t], names(c), ys[t][c].body, c);
    }
    if t < |ls| && ls[t].Return? {
      assert OpStepAt(ss, ls, t) && ClientStepAt(names, ls, ys, t);
      AnswerDoesFit(names, ss[t], ls[t].client, ls[t].answer, ys[t]);
    }
  }

  lemma DataState(names: nat -> string, s: State, y: Clients, m: map<string, Entry<string>>, c: nat)
    requires LockSafety.UsersOk(LOCK, s, Locks(y)) && Shapes(y) && BodiesOk(names, s, y) && Quiet(s, y)
    requires Network.TableIs(m, s) && c in y
    ensures var b := y[c].body;
            && (b.Got? ==> DATA in m && m[DATA] == Entry("", b.ver))
            && (b.Mid? ==> DATA in m && m[DATA] == Entry(names(c), b.ver + 1))
            && (b.Leaving? ==> DATA in m && m[DATA].value == "")
  {
    assert BodyOk(s, names(c), y[c].body, c);
    if y[c].body.Got? || y[c].body.Leaving? { InsideQuiet(s, y, c); }
  }

  /** What the server holds while a client is inside: "" when it has read, its own string between its two
      Puts, and "" again when it leaves. */
  lemma DataMeans(names: nat -> string, cs: seq<Network.Net<string>>, ls: seq<Network.Label<string>>, ys: seq<Clients>, t: nat, c: nat)
    requires TestRun(names, cs, ls, ys) && t <= |ls| && c in ys[t]
    ensures var b, m := ys[t][c].body, cs[t].m;
            && (b.Got? ==> DATA in m && m[DATA] == Entry("", b.ver))
            && (b.Mid? ==> DATA in m && m[DATA] == Entry(names(c), b.ver + 1))
            && (b.Leaving? ==> DATA in m && m[DATA].value == "")
  {
    var ss := OperationsOf(cs, ls);
    DataInvHolds(names, cs, ls, ss, ys, t);
    MessagesAt(cs, ls, ss, t);
    DataState(names, ss[t], ys[t], cs[t].m, c);
  }
}
