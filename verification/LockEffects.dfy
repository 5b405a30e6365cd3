/** What the Puts of the lock code do to the server's table, for any number of users over the lossy network. */
module LockEffects {
  import opened Rpc
  import KvServer
  import O = Operations
  import Network
  import opened ClerkRuns
  import opened Awaiting
  import opened Lock
  import opened LockSafety

  /** The user's current operation is the only release of the lock at version `v`. */
  ghost predicate OnlyRelease(key: string, s: O.State<string>, c: nat, v: nat)
  {
    c in s.cur && forall i :: 0 <= i < |s.ops| && s.ops[i].call == Put(key, "0", v) ==> i == s.cur[c]
  }

  /** The user waits for a Put of "1" at a version that was free. */
  ghost predicate AsksFor(key: string, s: O.State<string>, v: nat, c: nat)
  {
    Awaits(s, c, Put(key, "1", v)) && 1 <= v <= Base(s, c) && v <= |O.H(s, key)| && O.H(s, key)[v - 1].value != "1"
  }

  /** The user waits for a Put of "0" at the version at which it acquired the lock. */
  ghost predicate AsksBack(key: string, s: O.State<string>, v: nat, c: nat)
  {
    var h := O.H(s, key);
    && Awaits(s, c, Put(key, "0", v)) && 1 <= v <= Base(s, c) && v <= |h| && h[v - 1].value == "1"
    && AcquiredBy(s.ops, h[v - 1].op, c) && OnlyRelease(key, s, c, v)
  }

  /** What a waiting user's Put is. */
  ghost predicate Asks(key: string, s: O.State<string>, u: Local, c: nat)
  {
    && (u.pc == MkPutting ==> Awaits(s, c, Put(key, "0", 0)))
    && (u.pc == TryPutting ==> AsksFor(key, s, u.version, c))
    && (u.pc == Releasing ==> AsksBack(key, s, u.version, c))
  }

  ghost predicate AllAsk(key: string, s: O.State<string>, x: Users)
  {
    forall c :: c in x ==> Asks(key, s, x[c], c)
  }

  /** The user that calls the clerk. */
  lemma AsksBegin(key: string, s: O.State<string>, c: nat, call: Call<string>, u: Local)
    requires UserOk(key, s, u, c) && NextCall(key, u) == Some(call)
    ensures Asks(key, O.Began(s, c, call), Calling(u), c)
  {
    assert O.H(O.Began(s, c, call), key) == O.H(s, key);
  }

  lemma StillCurrent(key: string, s: O.State<string>, l: O.Label<string>, s': O.State<string>, x: Users, x': Users, c: nat)
    requires O.Step(s, l, s') && UserStep(key, x, l, x')
    requires c in x && c in x' && x[c] == x'[c] && Waiting(x[c]) && c in s.cur
    ensures c in s'.cur && s'.cur[c] == s.cur[c]
  {
    ResumeMoves(x[c]);
  }

  /** While a user waits for its release, nobody else asks to release the same version. */
  lemma StillOnly(key: string, s: O.State<string>, l: O.Label<string>, s': O.State<string>, x: Users, x': Users, c: nat)
    requires O.Step(s, l, s') && O.Extends(s, s') && UserStep(key, x, l, x') && UsersOk(key, s, x)
    requires c in x && x[c].pc == Releasing && Asks(key, s, x[c], c) && c in s'.cur && s'.cur[c] == s.cur[c]
    ensures OnlyRelease(key, s', c, x[c].version)
  {
    if l.Begin? && l.call.key == key { assert UserOk(key, s, x[l.client], l.client); }
  }

  lemma StillAsks(key: string, s: O.State<string>, l: O.Label<string>, s': O.State<string>, x: Users, x': Users, c: nat)
    requires O.Step(s, l, s') && O.Extends(s, s') && UserStep(key, x, l, x') && UsersOk(key, s, x)
    requires c in x && c in x' && x[c] == x'[c] && Asks(key, s, x[c], c)
    ensures Asks(key, s', x[c], c)
  {
    assert UserOk(key, s, x[c], c);
    AcquiredPersists(s, s');
    assert O.H(s, key) <= O.H(s', key);
    if Waiting(x[c]) { StillCurrent(key, s, l, s', x, x', c); }
    if x[c].pc == Releasing { StillOnly(key, s, l, s', x, x', c); }
  }

  /** The user whose call is answered waits for nothing. */
  lemma AsksNothing(key: string, s: O.State<string>, u: Local, c: nat)
    requires !Waiting(u)
    ensures Asks(key, s, u, c)
  {
  }

  lemma AsksStep(key: string, s: O.State<string>, l: O.Label<string>, s': O.State<string>, x: Users, x': Users, c: nat)
    requires O.Step(s, l, s') && O.Extends(s, s') && UserStep(key, x, l, x') && UsersOk(key, s, x)
    requires c in x && c in x' && Asks(key, s, x[c], c)
    ensures Asks(key, s', x'[c], c)
  {
    if x'[c] == x[c] {
      StillAsks(key, s, l, s', x, x', c);
    } else if l.Begin? {
      assert UserOk(key, s, x[c], c);
      AsksBegin(key, s, c, l.call, x[c]);
    } else {
      ResumeMoves(x[c]);
      AsksNothing(key, s', x'[c], c);
    }
  }

  lemma AllAskStep(key: string, s: O.State<string>, l: O.Label<string>, s': O.State<string>, x: Users, x': Users)
    requires O.Step(s, l, s') && O.CurrentOps(s) && UserStep(key, x, l, x') && UsersOk(key, s, x) && AllAsk(key, s, x)
    ensures AllAsk(key, s', x')
  {
    O.StepExtends(s, l, s');
    forall c | c in x' ensures Asks(key, s', x'[c], c) {
      assert c in x && Asks(key, s, x[c], c);
      AsksStep(key, s, l, s', x, x', c);
    }
  }

  lemma {:induction false} AllAskHolds(key: string, cs: seq<Network.Net<string>>, ls: seq<Network.Label<string>>,
                                       ss: seq<O.State<string>>, xs: seq<Users>, t: nat)
    requires LockRun(key, cs, ls, xs) && Runs(cs, ls, ss) && ss[0] == Network.InitialState(cs[0]) && t <= |ls|
    ensures AllAsk(key, ss[t], xs[t])
  {
    if t > 0 {
      AllAskHolds(key, cs, ls, ss, xs, t - 1);
      LockInvHolds(key, cs, ls, ss, xs, t - 1);
      assert OpStepAt(ss, ls, t - 1) && UserStepAt(key, ls, xs, t - 1);
      AllAskStep(key, ss[t - 1], Network.Abstract(ls[t - 1]), ss[t], xs[t - 1], xs[t]);
    }
  }

  // ---- What a returned Put has done ----

  /** Only the release itself can be the write at its version. */
  lemma OnlyWriter(key: string, s: O.State<string>, c: nat, v: nat, w: O.Write<string>)
    requires OnlyRelease(key, s, c, v) && 0 <= w.op < |s.ops| && s.ops[w.op].call == Put(key, w.value, v)
    requires LockPut(key, O.H(s, key), s.ops, s.ops[w.op])
    requires 1 <= v <= |O.H(s, key)| && O.H(s, key)[v - 1].value == "1"
    ensures w.op == s.cur[c]
  {
  }

  lemma PutAnswers(s: O.State<string>, c: nat, key: string, value: string, v: nat, a: Answer<string>)
    requires O.OpsOk(s) && Awaits(s, c, Put(key, value, v)) && 1 <= v <= Base(s, c)
    requires O.MayReturn(s.ops[s.cur[c]], a, s.failures)
    ensures v < |O.H(s, key)| && (a == Status(OK) || a == Status(ErrVersion) || a == Status(ErrMaybe))
    ensures a == Status(OK) ==> Wrote(s, O.H(s, key), c, v)
    ensures a == Status(ErrVersion) ==> !Wrote(s, O.H(s, key), c, v)
  {
    PutPast(s, c, key, value, v, a);
    assert a.Status? && a.err != ErrNoKey;
  }

  /** An answered release has been applied. */
  lemma ReleaseWrites(key: string, s: O.State<string>, c: nat, v: nat, a: Answer<string>)
    requires O.Inv(s) && OwnWrites(key, s) && LockPuts(key, s)
    requires AsksBack(key, s, v, c) && O.MayReturn(s.ops[s.cur[c]], a, s.failures)
    ensures (a == Status(OK) || a == Status(ErrMaybe)) && Wrote(s, O.H(s, key), c, v)
  {
    PutAnswers(s, c, key, "0", v, a);
    var w := O.H(s, key)[v];
    assert 0 <= w.op < |s.ops| && s.ops[w.op].call == Put(key, w.value, v);
    OnlyWriter(key, s, c, v, w);
  }

  /** Step `t` is the return of the Put that a lock user at `pc` waits for. */
  ghost predicate PutReturn(key: string, cs: seq<Network.Net<string>>, ls: seq<Network.Label<string>>, xs: seq<Users>, t: nat, pc: Pc)
  {
    && LockRun(key, cs, ls, xs) && t < |ls| && ls[t].Return? && ls[t].client in xs[t]
    && xs[t][ls[t].client].pc == pc
  }

  /** The operation of the call that returns, and what is known of it. */
  lemma AtReturn(key: string, cs: seq<Network.Net<string>>, ls: seq<Network.Label<string>>, ss: seq<O.State<string>>, xs: seq<Users>, t: nat)
    requires LockRun(key, cs, ls, xs) && Runs(cs, ls, ss) && ss[0] == Network.InitialState(cs[0])
    requires t < |ls| && ls[t].Return? && ls[t].client in xs[t]
    ensures var c, s := ls[t].client, ss[t];
            && c in s.cur && s.cur[c] < |s.ops| && O.MayReturn(s.ops[s.cur[c]], ls[t].answer, s.failures)
            && c in cs[t].clerks && cs[t].clerks[c].op == s.cur[c] && cs[t].clerks[c].call == s.ops[s.cur[c]].call
            && Asks(key, s, xs[t][c], c)
    ensures LockInv(key, ss[t], xs[t]) && KvServer.VersionOf(cs[t].m, key) == |O.H(ss[t], key)|
  {
    LockInvHolds(key, cs, ls, ss, xs, t);
    AllAskHolds(key, cs, ls, ss, xs, t);
    ReturningOp(cs, ls, ss, t);
    MessagesAt(cs, ls, ss, t);
  }

  /** The same for a release. */
  lemma AtRelease(key: string, cs: seq<Network.Net<string>>, ls: seq<Network.Label<string>>, ss: seq<O.State<string>>, xs: seq<Users>, t: nat)
    requires PutReturn(key, cs, ls, xs, t, Releasing) && Runs(cs, ls, ss) && ss[0] == Network.InitialState(cs[0])
    ensures ls[t].answer == Status(OK) || ls[t].answer == Status(ErrMaybe)
    ensures var c, s := ls[t].client, ss[t];
            var v := xs[t][c].version;
            && c in cs[t].clerks && Awaits(s, c, Put(key, "0", v)) && cs[t].clerks[c].op == s.cur[c]
            && 1 <= v && Wrote(s, O.H(s, key), c, v) && O.H(s, key)[v - 1].value == "1"
            && KvServer.VersionOf(cs[t].m, key) > v
  {
    AtReturn(key, cs, ls, ss, xs, t);
    ReleaseWrites(key, ss[t], ls[t].client, xs[t][ls[t].client].version, ls[t].answer);
  }

  /** A release releases: whatever was lost and retried, when the Put of Release by a client that held the
      lock at version `v` returns, the answer is OK or ErrMaybe, and that very Put has replaced "1" at
      version `v` by "0". */
  lemma ReleaseFrees(key: string, cs: seq<Network.Net<string>>, ls: seq<Network.Label<string>>, xs: seq<Users>, t: nat)
    returns (u: nat)
    requires PutReturn(key, cs, ls, xs, t, Releasing)
    ensures ls[t].answer == Status(OK) || ls[t].answer == Status(ErrMaybe)
    ensures var c := ls[t].client;
            var v := xs[t][c].version;
            && u < t && c in cs[t].clerks && Stores(cs, ls, u, cs[t].clerks[c].op, key, "0", v)
            && key in cs[u].m && cs[u].m[key] == Entry("1", v)
            && KvServer.VersionOf(cs[t].m, key) > v
  {
    var c := ls[t].client;
    var ss := OperationsOf(cs, ls);
    AtRelease(key, cs, ls, ss, xs, t);
    u := WriteHappened(cs, ls, ss, t, ss[t].cur[c], key, "0", xs[t][c].version);
  }

  /** The same for an attempt to acquire. */
  lemma AtAttempt(key: string, cs: seq<Network.Net<string>>, ls: seq<Network.Label<string>>, ss: seq<O.State<string>>, xs: seq<Users>, t: nat)
    requires PutReturn(key, cs, ls, xs, t, TryPutting) && Runs(cs, ls, ss) && ss[0] == Network.InitialState(cs[0])
    ensures var a := ls[t].answer; a == Status(OK) || a == Status(ErrVersion) || a == Status(ErrMaybe)
    ensures var c, s := ls[t].client, ss[t];
            var v := xs[t][c].version;
            && c in cs[t].clerks && Awaits(s, c, Put(key, "1", v)) && cs[t].clerks[c].op == s.cur[c]
            && cs[t].clerks[c].call.Put?
            && 1 <= v < |O.H(s, key)| && O.H(s, key)[v - 1].value != "1"
            && (ls[t].answer == Status(OK) ==> Wrote(s, O.H(s, key), c, v))
            && KvServer.VersionOf(cs[t].m, key) > v
  {
    AtReturn(key, cs, ls, ss, xs, t);
    PutAnswers(ss[t], ls[t].client, key, "1", xs[t][ls[t].client].version, ls[t].answer);
  }

  /** When the Put of an attempt to acquire returns, the version that it had read is gone. After OK it is
      this very Put that stored "1" there, over a value other than "1"; after ErrVersion it never does. */
  lemma AcquireTakes(key: string, cs: seq<Network.Net<string>>, ls: seq<Network.Label<string>>, xs: seq<Users>, t: nat)
    returns (u: nat)
    requires PutReturn(key, cs, ls, xs, t, TryPutting)
    ensures var a := ls[t].answer; a == Status(OK) || a == Status(ErrVersion) || a == Status(ErrMaybe)
    ensures var c := ls[t].client;
            var v := xs[t][c].version;
            && KvServer.VersionOf(cs[t].m, key) > v && c in cs[t].clerks
            && (ls[t].answer == Status(OK) ==>
                  && u < t && Stores(cs, ls, u, cs[t].clerks[c].op, key, "1", v)
                  && key in cs[u].m && cs[u].m[key].value != "1")
            && (ls[t].answer == Status(ErrVersion) ==> forall u': nat :: !AppliesAt(cs, ls, u', cs[t].clerks[c].op))
  {
    var c := ls[t].client;
    var ss := OperationsOf(cs, ls);
    AtAttempt(key, cs, ls, ss, xs, t);
    u := 0;
    if ls[t].answer == Status(OK) {
      u := WriteHappened(cs, ls, ss, t, ss[t].cur[c], key, "1", xs[t][c].version);
    } else if ls[t].answer == Status(ErrVersion) {
      forall u': nat ensures !AppliesAt(cs, ls, u', cs[t].clerks[c].op) {
        VersionErrorIsFinal(cs, ls, ss, t, u', cs[t].clerks[c].op);
      }
    }
  }

  /** When the Put of MakeLock returns the lock key exists, and after OK this very Put created it, with "0". */
  lemma MakeCreates(key: string, cs: seq<Network.Net<string>>, ls: seq<Network.Label<string>>, xs: seq<Users>, t: nat)
    returns (u: nat)
    requires PutReturn(key, cs, ls, xs, t, MkPutting)
    ensures var c := ls[t].client;
            && KvServer.VersionOf(cs[t].m, key) > 0 && c in cs[t].clerks
            && (ls[t].answer == Status(OK) ==> u < t && Stores(cs, ls, u, cs[t].clerks[c].op, key, "0", 0))
  {
    var c := ls[t].client;
    var ss := OperationsOf(cs, ls);
    AtReturn(key, cs, ls, ss, xs, t);
    PutPast(ss[t], c, key, "0", 0, ls[t].answer);
    u := 0;
    if ls[t].answer == Status(OK) {
      u := WriteHappened(cs, ls, ss, t, ss[t].cur[c], key, "0", 0);
    }
  }
}
