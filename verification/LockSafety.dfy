/** Mutual exclusion of the lock, for any number of users over the lossy network. */
module LockSafety {
  import opened Rpc
  import O = Operations
  import Network
  import opened ClerkRuns
  import opened Lock

  type Users = map<nat, Local>
  type Op = O.Op<string>
  type Hist = seq<O.Write<string>>

  /** One step of the users: they run the lock code, and between acquiring and releasing (or when they
      do not want the lock) they may call the clerk on any other key. */
  ghost predicate UserStep(key: string, x: Users, l: O.Label<string>, x': Users)
  {
    match l
    case Begin(c, call) =>
      if call.key == key
      then c in x && NextCall(key, x[c]) == Some(call) && x' == x[c := Calling(x[c])]
      else x' == x && (c in x ==> x[c].pc == Free || x[c].pc == Held)
    case Return(c, a) =>
      if c in x && Waiting(x[c]) then x' == x[c := Resume(x[c], a)] else x' == x
    case _ => x' == x
  }

  /** Operation `i` is a successful acquire of `client`. */
  ghost predicate AcquiredBy(ops: seq<Op>, i: int, client: nat)
  {
    0 <= i < |ops| && ops[i].client == client && O.Returned(ops[i], Status(OK))
  }

  /** Every Put on the lock key creates the lock, or takes it at a version at which it was free, or
      releases it at a version that the releasing client wrote, and it had been told so. */
  ghost predicate LockPut(key: string, h: Hist, ops: seq<Op>, op: Op)
  {
    op.call.Put? && op.call.key == key ==>
      var v := op.call.version;
      if op.call.value == "1" then 1 <= v <= |h| && h[v - 1].value != "1"
      else op.call.value == "0" &&
           (v == 0 || (v <= |h| && h[v - 1].value == "1" && AcquiredBy(ops, h[v - 1].op, op.client)))
  }

  ghost predicate LockPuts(key: string, s: O.State<string>)
  {
    forall i :: 0 <= i < |s.ops| ==> LockPut(key, O.H(s, key), s.ops, s.ops[i])
  }

  /** The holder's write is the last one, and nobody has asked to release it. */
  ghost predicate Holds(key: string, s: O.State<string>, c: nat, v: nat)
  {
    var h := O.H(s, key);
    && 1 <= v == |h| && h[v - 1].value == "1" && AcquiredBy(s.ops, h[v - 1].op, c)
    && forall i :: 0 <= i < |s.ops| ==> s.ops[i].call != Put(key, "0", v)
  }

  ghost predicate UserOk(key: string, s: O.State<string>, u: Local, c: nat)
  {
    && (Waiting(u) ==> c in s.cur && s.cur[c] < |s.ops| && s.ops[s.cur[c]].call == Awaited(key, u))
    && (c in s.cur && s.cur[c] < |s.ops| && s.ops[s.cur[c]].call.key == key ==> Waiting(u))
    && ((u.pc == MkPut || u.pc == MkPutting) ==> u.version == 0)
    && (u.pc == TryPut ==> 1 <= u.version <= |O.H(s, key)| && O.H(s, key)[u.version - 1].value != "1")
    && (u.pc == Held ==> Holds(key, s, c, u.version))
  }

  ghost predicate UsersOk(key: string, s: O.State<string>, x: Users)
  {
    forall c :: c in x ==> UserOk(key, s, x[c], c)
  }

  /** Nothing but the users' Puts has been written to the lock key. */
  ghost predicate OwnWrites(key: string, s: O.State<string>)
  {
    forall n :: 0 <= n < |O.H(s, key)| ==> O.H(s, key)[n].op != -1
  }

  ghost predicate LockInv(key: string, s: O.State<string>, x: Users)
  {
    O.Inv(s) && OwnWrites(key, s) && LockPuts(key, s) && UsersOk(key, s, x)
  }

  // ---- Consequences ----

  /** At most one user holds the lock. */
  lemma OneHolder(key: string, s: O.State<string>, c: nat, v: nat, d: nat, w: nat)
    requires Holds(key, s, c, v) && Holds(key, s, d, w)
    ensures c == d
  {
  }

  /** A write of "1" is followed by another one, and a release of it is asked for, only after its writer
      has been told of its success. */
  lemma NothingFollows(key: string, s: O.State<string>, n: nat)
    requires O.WritesHaveOps(s) && OwnWrites(key, s) && LockPuts(key, s)
    requires n < |O.H(s, key)| && O.H(s, key)[n].value == "1"
    requires var i := O.H(s, key)[n].op; 0 <= i < |s.ops| && O.Pending(s.ops[i])
    ensures |O.H(s, key)| == n + 1
    ensures forall i :: 0 <= i < |s.ops| ==> s.ops[i].call != Put(key, "0", n + 1)
  {
    if n + 1 < |O.H(s, key)| { FollowerReleased(key, s, n); }
    forall i | 0 <= i < |s.ops| ensures s.ops[i].call != Put(key, "0", n + 1) {
      assert LockPut(key, O.H(s, key), s.ops, s.ops[i]);
    }
  }

  lemma FollowerReleased(key: string, s: O.State<string>, n: nat)
    requires O.WritesHaveOps(s) && OwnWrites(key, s) && LockPuts(key, s)
    requires n + 1 < |O.H(s, key)| && O.H(s, key)[n].value == "1"
    ensures var i := O.H(s, key)[n].op; 0 <= i < |s.ops| && O.Returned(s.ops[i], Status(OK))
  {
    var w := O.H(s, key)[n + 1];
    assert s.ops[w.op].call == Put(key, w.value, n + 1);
    assert LockPut(key, O.H(s, key), s.ops, s.ops[w.op]);
  }

  /** While somebody holds the lock, no request changes it. */
  lemma HolderUndisturbed(key: string, s: O.State<string>, c: nat, v: nat, i: nat)
    requires LockPuts(key, s) && Holds(key, s, c, v) && i < |s.ops| && s.ops[i].call.key == key
    ensures !O.Applies(O.H(s, key), s.ops[i].call)
  {
    assert LockPut(key, O.H(s, key), s.ops, s.ops[i]);
  }

  // ---- Every step keeps the invariant ----

  lemma LockPutLater(key: string, h: Hist, h': Hist, ops: seq<Op>, ops': seq<Op>, op: Op, op': Op)
    requires LockPut(key, h, ops, op) && h <= h' && op'.call == op.call && op'.client == op.client
    requires forall i, client :: AcquiredBy(ops, i, client) ==> AcquiredBy(ops', i, client)
    ensures LockPut(key, h', ops', op')
  {
  }

  lemma AcquiredPersists(s: O.State<string>, s': O.State<string>)
    requires O.Extends(s, s')
    ensures forall i, client :: AcquiredBy(s.ops, i, client) ==> AcquiredBy(s'.ops, i, client)
  {
  }

  lemma NewLockPut(key: string, s: O.State<string>, x: Users, c: nat, call: Call<string>)
    requires UsersOk(key, s, x) && LockPuts(key, s)
    requires call.key == key ==> c in x && NextCall(key, x[c]) == Some(call)
    ensures var s' := O.Began(s, c, call); LockPut(key, O.H(s, key), s.ops, s'.ops[|s.ops|])
  {
    if call.key == key { assert UserOk(key, s, x[c], c); }
  }

  lemma LockPutsStep(key: string, s: O.State<string>, l: O.Label<string>, s': O.State<string>, x: Users, x': Users)
    requires O.Step(s, l, s') && O.Extends(s, s') && UserStep(key, x, l, x')
    requires LockPuts(key, s) && UsersOk(key, s, x)
    ensures LockPuts(key, s')
  {
    AcquiredPersists(s, s');
    forall i | 0 <= i < |s'.ops| ensures LockPut(key, O.H(s', key), s'.ops, s'.ops[i]) {
      if i < |s.ops| {
        LockPutLater(key, O.H(s, key), O.H(s', key), s.ops, s'.ops, s.ops[i], s'.ops[i]);
      } else {
        NewLockPut(key, s, x, l.client, l.call);
        LockPutLater(key, O.H(s, key), O.H(s', key), s.ops, s'.ops, s'.ops[i], s'.ops[i]);
      }
    }
  }

  lemma OwnWritesStep(key: string, s: O.State<string>, l: O.Label<string>, s': O.State<string>)
    requires O.Step(s, l, s') && O.Extends(s, s') && OwnWrites(key, s)
    ensures OwnWrites(key, s')
  {
    forall n | 0 <= n < |O.H(s', key)| ensures O.H(s', key)[n].op != -1 {
      if n < |O.H(s, key)| { assert O.H(s', key)[n] == O.H(s, key)[n]; }
    }
  }

  /** A user that holds the lock before and after the step. */
  lemma HoldsStep(key: string, s: O.State<string>, l: O.Label<string>, s': O.State<string>, x: Users, x': Users, c: nat)
    requires O.Step(s, l, s') && O.Extends(s, s') && UserStep(key, x, l, x')
    requires LockPuts(key, s) && UsersOk(key, s, x)
    requires c in x && c in x' && x[c] == x'[c] && x[c].pc == Held
    ensures Holds(key, s', c, x[c].version)
  {
    var v := x[c].version;
    assert UserOk(key, s, x[c], c);
    AcquiredPersists(s, s');
    assert O.H(s', key) == O.H(s, key) by {
      if l.Execute? && s.ops[l.op].call.key == key { HolderUndisturbed(key, s, c, v, l.op); }
    }
    NoNewRelease(key, s, l, s', x, x', c);
  }

  /** Nobody but the holder asks to release. */
  lemma NoNewRelease(key: string, s: O.State<string>, l: O.Label<string>, s': O.State<string>, x: Users, x': Users, c: nat)
    requires O.Step(s, l, s') && O.Extends(s, s') && UserStep(key, x, l, x') && UsersOk(key, s, x)
    requires c in x && c in x' && x[c] == x'[c] && x[c].pc == Held
    ensures forall i :: 0 <= i < |s'.ops| ==> s'.ops[i].call != Put(key, "0", x[c].version)
  {
    assert UserOk(key, s, x[c], c);
    if l.Begin? && l.call.key == key {
      assert UserOk(key, s, x[l.client], l.client);
      if x[l.client].pc == Held { OneHolder(key, s, c, x[c].version, l.client, x[l.client].version); }
    }
  }

  /** The user that takes the lock. */
  lemma AcquireStep(key: string, s: O.State<string>, c: nat, u: Local)
    requires O.Inv(s) && OwnWrites(key, s) && LockPuts(key, s)
    requires u.pc == TryPutting && c in s.cur && s.cur[c] < |s.ops| && s.ops[s.cur[c]].call == Put(key, "1", u.version)
    requires O.MayReturn(s.ops[s.cur[c]], Status(OK), s.failures)
    ensures Holds(key, O.Answered(s, c, Status(OK)), c, u.version + 1)
  {
    var i := s.cur[c];
    var h, s' := O.H(s, key), O.Answered(s, c, Status(OK));
    assert O.OpOk(s.ops[i], i, h, s.failures);
    assert h[u.version].op == i && h[u.version].value == "1";
    NothingFollows(key, s, u.version);
    assert O.H(s', key) == h;
    assert AcquiredBy(s'.ops, i, c);
  }

  lemma ReturnUser(key: string, s: O.State<string>, c: nat, a: Answer<string>, u: Local)
    requires O.Inv(s) && OwnWrites(key, s) && LockPuts(key, s) && UserOk(key, s, u, c)
    requires Waiting(u) && O.MayReturn(s.ops[s.cur[c]], a, s.failures)
    ensures UserOk(key, O.Answered(s, c, a), Resume(u, a), c)
  {
    if u.pc == TryGet && a.Found? { FoundAt(key, s, c, a); }
    if u.pc == TryPutting && a == Status(OK) { AcquireStep(key, s, c, u); }
    Resumed(key, s, c, a, u);
  }

  /** The user that the answer is for. */
  lemma Resumed(key: string, s: O.State<string>, c: nat, a: Answer<string>, u: Local)
    requires Waiting(u) && UserOk(key, s, u, c)
    requires u.pc == TryGet && a.Found? ==> 1 <= a.version <= |O.H(s, key)| && O.H(s, key)[a.version - 1].value == a.value
    requires u.pc == TryPutting && a == Status(OK) ==> Holds(key, O.Answered(s, c, a), c, u.version + 1)
    ensures UserOk(key, O.Answered(s, c, a), Resume(u, a), c)
  {
    ResumeMoves(u);
  }

  /** A Get returns a value that the key had at the version returned. */
  lemma FoundAt(key: string, s: O.State<string>, c: nat, a: Answer<string>)
    requires O.OpsOk(s) && c in s.cur && s.cur[c] < |s.ops| && s.ops[s.cur[c]].call == Get(key)
    requires a.Found? && O.MayReturn(s.ops[s.cur[c]], a, s.failures)
    ensures 1 <= a.version <= |O.H(s, key)| && O.H(s, key)[a.version - 1].value == a.value
  {
    var i := s.cur[c];
    assert O.OpOk(s.ops[i], i, O.H(s, key), s.failures);
  }

  lemma BeginUser(key: string, s: O.State<string>, c: nat, call: Call<string>, u: Local)
    requires O.CurrentOps(s) && UserOk(key, s, u, c) && c !in s.cur && NextCall(key, u) == Some(call)
    ensures UserOk(key, O.Began(s, c, call), Calling(u), c)
  {
  }

  /** A user that does not move. */
  lemma StillUser(key: string, s: O.State<string>, l: O.Label<string>, s': O.State<string>, x: Users, x': Users, c: nat)
    requires O.Step(s, l, s') && O.Extends(s, s') && O.CurrentOps(s) && UserStep(key, x, l, x')
    requires LockPuts(key, s) && UsersOk(key, s, x)
    requires c in x && c in x' && x[c] == x'[c]
    ensures UserOk(key, s', x'[c], c)
  {
    assert UserOk(key, s, x[c], c);
    if x[c].pc == Held { HoldsStep(key, s, l, s', x, x', c); }
    StillWaiting(key, s, l, s', x, x', c);
  }

  lemma StillWaiting(key: string, s: O.State<string>, l: O.Label<string>, s': O.State<string>, x: Users, x': Users, c: nat)
    requires O.Step(s, l, s') && O.Extends(s, s') && O.CurrentOps(s) && UserStep(key, x, l, x')
    requires c in x && c in x' && x[c] == x'[c] && UserOk(key, s, x[c], c)
    ensures Waiting(x[c]) ==> c in s'.cur && s'.cur[c] < |s'.ops| && s'.ops[s'.cur[c]].call == Awaited(key, x[c])
    ensures c in s'.cur && s'.cur[c] < |s'.ops| && s'.ops[s'.cur[c]].call.key == key ==> Waiting(x[c])
  {
    ResumeMoves(x[c]);
  }

  /** Every answer moves a waiting user on. */
  lemma ResumeMoves(u: Local)
    ensures Waiting(u) ==> forall a :: !Waiting(Resume(u, a))
    ensures NextCall("", u).Some? ==> !Waiting(u) && Waiting(Calling(u))
  {
  }

  lemma UserStepOk(key: string, s: O.State<string>, l: O.Label<string>, s': O.State<string>, x: Users, x': Users, c: nat)
    requires O.Step(s, l, s') && UserStep(key, x, l, x') && LockInv(key, s, x) && c in x'
    ensures UserOk(key, s', x'[c], c)
  {
    assert c in x && UserOk(key, s, x[c], c);
    O.StepExtends(s, l, s');
    if x'[c] == x[c] {
      StillUser(key, s, l, s', x, x', c);
    } else if l.Begin? {
      BeginUser(key, s, c, l.call, x[c]);
    } else {
      ReturnUser(key, s, c, l.answer, x[c]);
    }
  }

  lemma LockInvStep(key: string, s: O.State<string>, l: O.Label<string>, s': O.State<string>, x: Users, x': Users)
    requires O.Step(s, l, s') && UserStep(key, x, l, x') && LockInv(key, s, x)
    ensures LockInv(key, s', x')
  {
    O.StepInv(s, l, s');
    O.StepExtends(s, l, s');
    LockPutsStep(key, s, l, s', x, x');
    OwnWritesStep(key, s, l, s');
    forall c | c in x' ensures UserOk(key, s', x'[c], c) {
      UserStepOk(key, s, l, s', x, x', c);
    }
  }

  // ---- Runs over the network ----

  ghost predicate UserStepAt(key: string, ls: seq<Network.Label<string>>, xs: seq<Users>, t: nat)
  {
    t < |ls| && t + 1 < |xs| && UserStep(key, xs[t], Network.Abstract(ls[t]), xs[t + 1])
  }

  /** A run of the network whose clients use the lock; at the start the lock key does not exist. */
  ghost predicate LockRun(key: string, cs: seq<Network.Net<string>>, ls: seq<Network.Label<string>>, xs: seq<Users>)
  {
    && Run(cs, ls) && |xs| == |cs|
    && key !in cs[0].m && (forall c :: c in xs[0] ==> xs[0][c] == Local(New, 0))
    && forall t: nat :: t < |ls| ==> UserStepAt(key, ls, xs, t)
  }

  lemma {:induction false} LockInvHolds(key: string, cs: seq<Network.Net<string>>, ls: seq<Network.Label<string>>,
                                        ss: seq<O.State<string>>, xs: seq<Users>, t: nat)
    requires LockRun(key, cs, ls, xs) && Runs(cs, ls, ss) && ss[0] == Network.InitialState(cs[0]) && t <= |ls|
    ensures LockInv(key, ss[t], xs[t])
  {
    if t == 0 {
      Network.InitSim(cs[0]);
    } else {
      LockInvHolds(key, cs, ls, ss, xs, t - 1);
      assert OpStepAt(ss, ls, t - 1) && UserStepAt(key, ls, xs, t - 1);
      LockInvStep(key, ss[t - 1], Network.Abstract(ls[t - 1]), ss[t], xs[t - 1], xs[t]);
    }
  }

  /** Mutual exclusion: under loss, retries and handlers that run late, at most one client is between the
      return of Acquire and its Release, and while it is, the server holds "1" at exactly its version. */
  lemma MutualExclusion(key: string, cs: seq<Network.Net<string>>, ls: seq<Network.Label<string>>, xs: seq<Users>, t: nat)
    requires LockRun(key, cs, ls, xs) && t <= |ls|
    ensures forall c, d :: c in xs[t] && d in xs[t] && xs[t][c].pc == Held && xs[t][d].pc == Held ==> c == d
    ensures forall c :: c in xs[t] && xs[t][c].pc == Held ==>
              key in cs[t].m && cs[t].m[key] == Entry("1", xs[t][c].version)
  {
    var ss := OperationsOf(cs, ls);
    LockInvHolds(key, cs, ls, ss, xs, t);
    MessagesAt(cs, ls, ss, t);
    forall c, d | c in xs[t] && d in xs[t] && xs[t][c].pc == Held && xs[t][d].pc == Held ensures c == d {
      assert UserOk(key, ss[t], xs[t][c], c) && UserOk(key, ss[t], xs[t][d], d);
      OneHolder(key, ss[t], c, xs[t][c].version, d, xs[t][d].version);
    }
    forall c | c in xs[t] && xs[t][c].pc == Held
      ensures key in cs[t].m && cs[t].m[key] == Entry("1", xs[t][c].version)
    {
      assert UserOk(key, ss[t], xs[t][c], c);
    }
  }
}
