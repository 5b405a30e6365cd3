/** The service as its clients see it: operations that begin, are executed by the server any number
    of times (retries), perhaps even after they have returned, and return an answer.

    Instead of a table, the state keeps for every key the whole sequence of values written to it:
    the version of a key is the length of that sequence. */
module Operations {
  import opened Rpc

  /** One applied write: the value, and the operation it belongs to (-1: present at the start). */
  datatype Write<V> = Write(value: V, op: int)

  /** An operation. `base` is the version of its key when it began, `execs` the answers the server has
      computed for its requests so far, `closed` says that no request of it is left anywhere. */
  datatype Op<V> = Op(client: nat, call: Call<V>, start: nat, base: nat,
                      execs: seq<Answer<V>>, answer: Option<Answer<V>>, end: nat, closed: bool)

  datatype State<V> = State(now: nat, hist: map<string, seq<Write<V>>>, ops: seq<Op<V>>,
                            cur: map<nat, nat>, failures: bool)

  datatype Label<V> =
    | Begin(client: nat, call: Call<V>)
    | Execute(op: nat)
    | Return(client: nat, answer: Answer<V>)
    | Fail

  ghost function H<V>(s: State<V>, key: string): seq<Write<V>>
  {
    if key in s.hist then s.hist[key] else []
  }

  /** The server's answer when the writes so far are `h`. */
  ghost function ReplyTo<V>(h: seq<Write<V>>, call: Call<V>): Answer<V>
  {
    match call
    case Get(_) => if h == [] then Status(ErrNoKey) else Found(h[|h| - 1].value, |h|)
    case Put(_, _, version) =>
      if version == |h| then Status(OK) else if h == [] then Status(ErrNoKey) else Status(ErrVersion)
  }

  ghost predicate Applies<V>(h: seq<Write<V>>, call: Call<V>)
  {
    call.Put? && call.version == |h|
  }

  ghost predicate Saw<V>(op: Op<V>, a: Answer<V>)
  {
    exists j :: 0 <= j < |op.execs| && op.execs[j] == a
  }

  ghost predicate Pending<V>(op: Op<V>) { op.answer.None? }

  ghost predicate Returned<V>(op: Op<V>, a: Answer<V>) { op.answer == Some(a) }

  /** The answers that an operation may return, given what the server has answered to its requests. */
  ghost predicate MayReturn<V>(op: Op<V>, a: Answer<V>, failures: bool)
  {
    match a
    case Status(ErrVersion) => |op.execs| == 1 && op.execs[0] == a
    case Status(ErrMaybe) => Saw(op, Status(ErrVersion)) && failures
    case _ => Saw(op, a)
  }

  ghost function Executed<V>(s: State<V>, i: nat): State<V>
    requires i < |s.ops|
  {
    var op := s.ops[i];
    var key, h := op.call.key, H(s, op.call.key);
    s.(now := s.now + 1,
       hist := if Applies(h, op.call) then s.hist[key := h + [Write(op.call.value, i)]] else s.hist,
       ops := s.ops[i := op.(execs := op.execs + [ReplyTo(h, op.call)])])
  }

  ghost function Began<V>(s: State<V>, client: nat, call: Call<V>): State<V>
  {
    s.(now := s.now + 1,
       ops := s.ops + [Op(client, call, s.now, |H(s, call.key)|, [], None, 0, false)],
       cur := s.cur[client := |s.ops|])
  }

  ghost function Answered<V>(s: State<V>, client: nat, a: Answer<V>): State<V>
    requires client in s.cur && s.cur[client] < |s.ops|
  {
    var i := s.cur[client];
    s.(now := s.now + 1,
       ops := s.ops[i := s.ops[i].(answer := Some(a), end := s.now, closed := s.ops[i].closed || a == Status(ErrVersion))],
       cur := s.cur - {client})
  }

  ghost predicate Step<V>(s: State<V>, l: Label<V>, s': State<V>)
  {
    match l
    case Begin(client, call) => client !in s.cur && s' == Began(s, client, call)
    case Execute(i) => i < |s.ops| && !s.ops[i].closed && s' == Executed(s, i)
    case Return(client, a) =>
      && client in s.cur && s.cur[client] < |s.ops|
      && MayReturn(s.ops[s.cur[client]], a, s.failures)
      && s' == Answered(s, client, a)
    case Fail => s' == s.(now := s.now + 1, failures := true)
  }

  /** The only state a step can lead to. */
  ghost function Next<V>(s: State<V>, l: Label<V>): State<V>
  {
    match l
    case Begin(client, call) => Began(s, client, call)
    case Execute(i) => if i < |s.ops| then Executed(s, i) else s
    case Return(client, a) => if client in s.cur && s.cur[client] < |s.ops| then Answered(s, client, a) else s
    case Fail => s.(now := s.now + 1, failures := true)
  }

  /** Nothing begun yet; the server may already hold values. */
  ghost predicate Init<V>(s: State<V>)
  {
    && s.now == 0 && s.ops == [] && s.cur == map[] && !s.failures
    && forall k, n :: k in s.hist && 0 <= n < |s.hist[k]| ==> s.hist[k][n].op == -1
  }

  // ---- What every reachable state satisfies ----

  /** Exactly the operations that have not returned are the current operations of their clients. */
  ghost predicate CurrentOps<V>(s: State<V>)
  {
    && (forall c :: c in s.cur ==> s.cur[c] < |s.ops| && s.ops[s.cur[c]].client == c && Pending(s.ops[s.cur[c]]))
    && (forall i :: 0 <= i < |s.ops| && Pending(s.ops[i]) ==>
          s.ops[i].client in s.cur && s.cur[s.ops[i].client] == i)
  }

  /** The write that made version n + 1 belongs to a Put of that value conditional on version n:
      at most one request per key and version is ever applied. */
  ghost predicate WritesHaveOps<V>(s: State<V>)
  {
    forall k, n :: 0 <= n < |H(s, k)| && H(s, k)[n].op != -1 ==>
      var w := H(s, k)[n];
      0 <= w.op < |s.ops| && s.ops[w.op].call == Put(k, w.value, n)
  }

  /** The write of operation `i` is in the history of its key. */
  ghost predicate Applied<V>(h: seq<Write<V>>, call: Call<V>, i: nat)
  {
    call.Put? && call.version < |h| && h[call.version].op == i
  }

  /** What an answer computed for an operation says about its key, then and ever after. */
  ghost predicate AnswerSound<V>(h: seq<Write<V>>, op: Op<V>, a: Answer<V>)
  {
    match op.call
    case Get(_) => (
      match a
      case Found(value, version) => op.base <= version && 1 <= version <= |h| && h[version - 1].value == value
      case Status(err) => err == ErrNoKey && op.base == 0)
    case Put(_, _, version) => (
      match a
      case Found(_, _) => false
      case Status(OK) => op.base <= version < |h|
      case Status(ErrVersion) => h != [] && (version <= op.base ==> version < |h|)
      case Status(ErrNoKey) => op.base == 0 && version != 0
      case Status(ErrMaybe) => false)
  }

  /** What holds of operation `i`, given the history `h` of its key: a Put was applied exactly when
      the server has answered OK to it, and only answers the clerk is entitled to are returned. */
  ghost predicate OpOk<V>(op: Op<V>, i: nat, h: seq<Write<V>>, failures: bool)
  {
    && op.base <= |h|
    && (forall j :: 0 <= j < |op.execs| ==> AnswerSound(h, op, op.execs[j]))
    && (op.call.Put? ==> (Saw(op, Status(OK)) <==> Applied(h, op.call, i)))
    && (op.answer.Some? ==> MayReturn(op, op.answer.value, failures))
    && (op.closed <==> Returned(op, Status(ErrVersion)))
  }

  ghost predicate OpsOk<V>(s: State<V>)
  {
    forall i :: 0 <= i < |s.ops| ==> OpOk(s.ops[i], i, H(s, s.ops[i].call.key), s.failures)
  }

  ghost predicate Inv<V>(s: State<V>)
  {
    CurrentOps(s) && WritesHaveOps(s) && OpsOk(s)
  }

  lemma InitInv<V>(s: State<V>)
    requires Init(s)
    ensures Inv(s)
  {
  }

  /** What is known of an operation stays known while others write. */
  lemma OpOkLater<V>(op: Op<V>, i: nat, h: seq<Write<V>>, h': seq<Write<V>>, failures: bool, failures': bool)
    requires OpOk(op, i, h, failures) && h <= h' && (failures ==> failures')
    requires forall n :: |h| <= n < |h'| ==> h'[n].op != i
    ensures OpOk(op, i, h', failures')
  {
  }

  /** The operation that is executed. */
  lemma OpOkExecuted<V>(op: Op<V>, i: nat, h: seq<Write<V>>, failures: bool)
    requires OpOk(op, i, h, failures) && !op.closed
    ensures var h' := if Applies(h, op.call) then h + [Write(op.call.value, i)] else h;
            OpOk(op.(execs := op.execs + [ReplyTo(h, op.call)]), i, h', failures)
  {
    var a := ReplyTo(h, op.call);
    SawMore(op, a, Status(OK));
    SawMore(op, a, Status(ErrVersion));
    if op.answer.Some? { SawMore(op, a, op.answer.value); }
  }

  lemma SawMore<V>(op: Op<V>, e: Answer<V>, x: Answer<V>)
    ensures Saw(op.(execs := op.execs + [e]), x) <==> Saw(op, x) || e == x
  {
    var op' := op.(execs := op.execs + [e]);
    assert op'.execs[|op.execs|] == e;
    assert forall j :: 0 <= j < |op.execs| ==> op'.execs[j] == op.execs[j];
  }

  /** The operation that returns. */
  lemma OpOkReturned<V>(op: Op<V>, i: nat, h: seq<Write<V>>, failures: bool, a: Answer<V>, now: nat)
    requires OpOk(op, i, h, failures) && Pending(op) && MayReturn(op, a, failures)
    ensures OpOk(op.(answer := Some(a), end := now, closed := op.closed || a == Status(ErrVersion)), i, h, failures)
  {
    var op' := op.(answer := Some(a), end := now, closed := op.closed || a == Status(ErrVersion));
    assert forall x :: Saw(op', x) <==> Saw(op, x);
  }

  lemma StepWrites<V>(s: State<V>, l: Label<V>, s': State<V>)
    requires Step(s, l, s') && CurrentOps(s) && WritesHaveOps(s)
    ensures WritesHaveOps(s')
  {
    StepExtends(s, l, s');
    forall k, n | 0 <= n < |H(s', k)| && H(s', k)[n].op != -1
      ensures var w := H(s', k)[n]; 0 <= w.op < |s'.ops| && s'.ops[w.op].call == Put(k, w.value, n)
    {
      if n < |H(s, k)| { assert H(s', k)[n] == H(s, k)[n]; }
    }
  }

  lemma StepCurrent<V>(s: State<V>, l: Label<V>, s': State<V>)
    requires Step(s, l, s') && CurrentOps(s)
    ensures CurrentOps(s')
  {
    forall c | c in s'.cur
      ensures s'.cur[c] < |s'.ops| && s'.ops[s'.cur[c]].client == c && Pending(s'.ops[s'.cur[c]])
    {
      if c in s.cur && s'.cur[c] == s.cur[c] { assert Pending(s.ops[s.cur[c]]); }
    }
    forall i | 0 <= i < |s'.ops| && Pending(s'.ops[i])
      ensures s'.ops[i].client in s'.cur && s'.cur[s'.ops[i].client] == i
    {
      if i < |s.ops| { assert Pending(s.ops[i]) && s'.ops[i].client == s.ops[i].client; }
    }
  }

  /** An operation that neither executes nor returns in this step. */
  lemma OtherOpOk<V>(s: State<V>, l: Label<V>, s': State<V>, j: nat)
    requires Step(s, l, s') && j < |s.ops| && l != Execute(j)
    requires j < |s'.ops| && s'.ops[j] == s.ops[j]
    requires OpOk(s.ops[j], j, H(s, s.ops[j].call.key), s.failures)
    ensures OpOk(s'.ops[j], j, H(s', s'.ops[j].call.key), s'.failures)
  {
    var op := s.ops[j];
    OpOkLater(op, j, H(s, op.call.key), H(s', op.call.key), s.failures, s'.failures);
  }

  lemma NewOpOk<V>(s: State<V>, client: nat, call: Call<V>)
    requires WritesHaveOps(s)
    ensures var s' := Began(s, client, call);
            OpOk(s'.ops[|s.ops|], |s.ops|, H(s', call.key), s'.failures)
  {
  }

  lemma StepOp<V>(s: State<V>, l: Label<V>, s': State<V>, j: nat)
    requires Step(s, l, s') && CurrentOps(s) && WritesHaveOps(s) && j < |s'.ops|
    requires j < |s.ops| ==> OpOk(s.ops[j], j, H(s, s.ops[j].call.key), s.failures)
    ensures OpOk(s'.ops[j], j, H(s', s'.ops[j].call.key), s'.failures)
  {
    if j >= |s.ops| {
      NewOpOk(s, l.client, l.call);
    } else if l == Execute(j) {
      OpOkExecuted(s.ops[j], j, H(s, s.ops[j].call.key), s.failures);
    } else if l.Return? && j == s.cur[l.client] {
      OpOkReturned(s.ops[j], j, H(s, s.ops[j].call.key), s.failures, l.answer, s.now);
    } else {
      OtherOpOk(s, l, s', j);
    }
  }

  lemma StepInv<V>(s: State<V>, l: Label<V>, s': State<V>)
    requires Step(s, l, s') && Inv(s)
    ensures Inv(s')
  {
    StepWrites(s, l, s');
    StepCurrent(s, l, s');
    forall j | 0 <= j < |s'.ops| ensures OpOk(s'.ops[j], j, H(s', s'.ops[j].call.key), s'.failures) {
      StepOp(s, l, s', j);
    }
  }

  /** Writes are never undone, and calls never change. */
  ghost predicate Extends<V>(s: State<V>, s': State<V>)
  {
    && (forall k :: H(s, k) <= H(s', k))
    && |s.ops| <= |s'.ops|
    && (forall i :: 0 <= i < |s.ops| ==>
          && s'.ops[i].call == s.ops[i].call && s'.ops[i].client == s.ops[i].client
          && s'.ops[i].start == s.ops[i].start && s'.ops[i].base == s.ops[i].base
          && s.ops[i].execs <= s'.ops[i].execs
          && (s.ops[i].closed ==> s'.ops[i].closed)
          && (s.ops[i].answer.Some? ==> s'.ops[i].answer == s.ops[i].answer && s'.ops[i].end == s.ops[i].end))
  }

  lemma StepExtends<V>(s: State<V>, l: Label<V>, s': State<V>)
    requires Step(s, l, s') && CurrentOps(s)
    ensures Extends(s, s')
  {
  }
}
