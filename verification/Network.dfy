/** Clerks, a lossy network and one server, message by message (client.go, server.go and the paths of
    labrpc's `processReq`), and the proof that every step is a step of `Operations`. */
module Network {
  import opened Rpc
  import KvServer
  import O = Operations

  /** An RPC: the number of the clerk call it serves, and which try of that call it is. */
  datatype Id = Id(op: nat, try: nat)

  /** A clerk inside Get or Put: the call, its number, and how often it has been resent. */
  datatype Clerk<V> = Clerk(call: Call<V>, op: nat, tries: nat)
  {
    function Current(): Id { Id(op, tries) }
  }

  /** The server's table, the clerks that are inside a call, requests on their way to the handler,
      replies on their way back, and the number of clerk calls so far. */
  datatype Net<V> = Net(m: KvServer.Table<V>, clerks: map<nat, Clerk<V>>,
                        flight: map<Id, Call<V>>, replies: map<Id, Answer<V>>, next: nat)

  /** Why an RPC reports failure: the request was dropped, the reply was dropped, or the network gave up
      waiting while the handler may still run later. */
  datatype Fate = RequestLost | ReplyLost | Abandoned

  datatype Label<V> =
    | Begin(client: nat, call: Call<V>)
    | Handle(id: Id)
    | Retry(client: nat, fate: Fate)
    | Return(client: nat, answer: Answer<V>)

  /** A version error on a resend may hide an earlier success. */
  function ClerkAnswer<V>(reply: Answer<V>, retried: bool): Answer<V>
  {
    if reply.Status? && reply.err == ErrVersion && retried then Status(ErrMaybe) else reply
  }

  ghost predicate CanFail<V>(c: Net<V>, id: Id, fate: Fate)
  {
    match fate
    case RequestLost => id in c.flight
    case ReplyLost => id in c.replies
    case Abandoned => id in c.flight
  }

  ghost function Begun<V>(c: Net<V>, client: nat, call: Call<V>): Net<V>
  {
    c.(clerks := c.clerks[client := Clerk(call, c.next, 0)],
       flight := c.flight[Id(c.next, 0) := call],
       next := c.next + 1)
  }

  ghost function Handled<V>(c: Net<V>, id: Id): Net<V>
    requires id in c.flight
  {
    c.(m := KvServer.Serve(c.m, c.flight[id]),
       flight := c.flight - {id},
       replies := c.replies[id := KvServer.Reply(c.m, c.flight[id])])
  }

  /** The RPC has failed, and the clerk sends its call again. */
  ghost function Resent<V>(c: Net<V>, client: nat, fate: Fate): Net<V>
    requires client in c.clerks
  {
    var k := c.clerks[client];
    c.(clerks := c.clerks[client := k.(tries := k.tries + 1)],
       flight := (if fate.RequestLost? then c.flight - {k.Current()} else c.flight)[Id(k.op, k.tries + 1) := k.call],
       replies := c.replies - {k.Current()})
  }

  ghost function Answered<V>(c: Net<V>, client: nat): Net<V>
    requires client in c.clerks
  {
    c.(clerks := c.clerks - {client}, replies := c.replies - {c.clerks[client].Current()})
  }

  ghost predicate Step<V>(c: Net<V>, l: Label<V>, c': Net<V>)
  {
    match l
    case Begin(client, call) => client !in c.clerks && c' == Begun(c, client, call)
    case Handle(id) => id in c.flight && c' == Handled(c, id)
    case Retry(client, fate) =>
      client in c.clerks && CanFail(c, c.clerks[client].Current(), fate) && c' == Resent(c, client, fate)
    case Return(client, answer) =>
      && client in c.clerks && c.clerks[client].Current() in c.replies
      && answer == ClerkAnswer(c.replies[c.clerks[client].Current()], c.clerks[client].tries > 0)
      && c' == Answered(c, client)
  }

  /** No client has called yet; the server may hold values of version 1 or more. */
  ghost predicate Init<V>(c: Net<V>)
  {
    && c.clerks == map[] && c.flight == map[] && c.replies == map[] && c.next == 0
    && forall k :: k in c.m ==> c.m[k].version > 0
  }

  // ---- Simulation ----

  /** The table holds the last value of every history, under its length. */
  ghost predicate TableIs<V>(m: KvServer.Table<V>, s: O.State<V>)
  {
    forall k :: (k in m <==> O.H(s, k) != []) &&
                (k in m ==> var h := O.H(s, k); m[k] == Entry(h[|h| - 1].value, |h|))
  }

  /** Requests carry the call of their operation, and none is left of an operation that is closed. */
  ghost predicate FlightOk<V>(flight: map<Id, Call<V>>, ops: seq<O.Op<V>>)
  {
    forall id :: id in flight ==> id.op < |ops| && ops[id.op].call == flight[id] && !ops[id.op].closed
  }

  ghost predicate RepliesOk<V>(replies: map<Id, Answer<V>>, ops: seq<O.Op<V>>)
  {
    forall id :: id in replies ==> id.op < |ops| && O.Saw(ops[id.op], replies[id])
  }

  ghost predicate ClerksOk<V>(clerks: map<nat, Clerk<V>>, s: O.State<V>)
  {
    && clerks.Keys == s.cur.Keys
    && forall cl :: cl in clerks ==>
         var k := clerks[cl];
         k.op == s.cur[cl] && k.op < |s.ops| && s.ops[k.op].call == k.call && (k.tries > 0 ==> s.failures)
  }

  /** No RPC of an operation under way is newer than its clerk's current one. */
  ghost predicate TriesOk<V>(clerks: map<nat, Clerk<V>>, ids: set<Id>)
  {
    forall cl, id :: cl in clerks && id in ids && id.op == clerks[cl].op ==> id.try <= clerks[cl].tries
  }

  /** The first RPC of an operation is handled at most once, and its reply is the only answer so far. */
  ghost predicate FirstTries<V>(c: Net<V>, ops: seq<O.Op<V>>)
  {
    forall cl :: cl in c.clerks && c.clerks[cl].tries == 0 ==> FirstTry(c.clerks[cl], c, ops)
  }

  ghost predicate FirstTry<V>(k: Clerk<V>, c: Net<V>, ops: seq<O.Op<V>>)
  {
    && k.op < |ops|
    && (k.Current() in c.flight ==> ops[k.op].execs == [])
    && (k.Current() in c.replies ==>
          |ops[k.op].execs| == 1 && ops[k.op].execs[0] == c.replies[k.Current()])
  }

  ghost predicate Messages<V>(c: Net<V>, s: O.State<V>)
  {
    && |s.ops| == c.next
    && c.flight.Keys !! c.replies.Keys
    && FlightOk(c.flight, s.ops)
    && RepliesOk(c.replies, s.ops)
  }

  ghost predicate Clerks<V>(c: Net<V>, s: O.State<V>)
  {
    && ClerksOk(c.clerks, s)
    && TriesOk(c.clerks, c.flight.Keys + c.replies.Keys)
    && FirstTries(c, s.ops)
  }

  /** The network state `c` and the operation-level state `s` describe the same situation. */
  ghost predicate Sim<V>(c: Net<V>, s: O.State<V>)
  {
    O.Inv(s) && TableIs(c.m, s) && Messages(c, s) && Clerks(c, s)
  }

  /** The step of `Operations` that a step of the network amounts to. */
  ghost function Abstract<V>(l: Label<V>): O.Label<V>
  {
    match l
    case Begin(client, call) => O.Begin(client, call)
    case Handle(id) => O.Execute(id.op)
    case Retry(_, _) => O.Fail
    case Return(client, answer) => O.Return(client, answer)
  }

  ghost function InitialState<V>(c: Net<V>): O.State<V>
  {
    O.State(0, map k | k in c.m :: seq(c.m[k].version, _ requires k in c.m => O.Write(c.m[k].value, -1)), [], map[], false)
  }

  lemma InitSim<V>(c: Net<V>)
    requires Init(c)
    ensures O.Init(InitialState(c)) && Sim(c, InitialState(c))
  {
    O.InitInv(InitialState(c));
  }

  /** The server computes what `Operations` says, from the table instead of the history. */
  lemma ServerAgrees<V>(m: KvServer.Table<V>, s: O.State<V>, call: Call<V>)
    requires TableIs(m, s)
    ensures KvServer.Reply(m, call) == O.ReplyTo(O.H(s, call.key), call)
    ensures (call.Put? && KvServer.Reply(m, call) == Status(OK)) <==> O.Applies(O.H(s, call.key), call)
    ensures KvServer.VersionOf(m, call.key) == |O.H(s, call.key)|
  {
  }

  lemma TableKeeps<V>(m: KvServer.Table<V>, s: O.State<V>, s': O.State<V>)
    requires TableIs(m, s) && s'.hist == s.hist
    ensures TableIs(m, s')
  {
    assert forall k :: O.H(s', k) == O.H(s, k);
  }

  /** Replies stay justified while operations only gain executions. */
  lemma RepliesKeep<V>(replies: map<Id, Answer<V>>, s: O.State<V>, s': O.State<V>)
    requires RepliesOk(replies, s.ops) && O.Extends(s, s')
    ensures RepliesOk(replies, s'.ops)
  {
    forall id | id in replies ensures O.Saw(s'.ops[id.op], replies[id]) {
      var op, op' := s.ops[id.op], s'.ops[id.op];
      var j :| 0 <= j < |op.execs| && op.execs[j] == replies[id];
      assert op'.execs[j] == op.execs[j];
    }
  }

  // Begin

  lemma BeginSim<V>(c: Net<V>, client: nat, call: Call<V>, s: O.State<V>)
    requires Sim(c, s) && client !in c.clerks
    ensures O.Step(s, O.Begin(client, call), O.Began(s, client, call))
    ensures Sim(Begun(c, client, call), O.Began(s, client, call))
  {
    var s' := O.Began(s, client, call);
    O.StepInv(s, O.Begin(client, call), s');
    O.StepExtends(s, O.Begin(client, call), s');
    TableKeeps(c.m, s, s');
    RepliesKeep(c.replies, s, s');
    BeginMessages(c, client, call, s);
    BeginClerks(c, client, call, s);
  }

  lemma BeginMessages<V>(c: Net<V>, client: nat, call: Call<V>, s: O.State<V>)
    requires Messages(c, s) && RepliesOk(c.replies, O.Began(s, client, call).ops)
    ensures Messages(Begun(c, client, call), O.Began(s, client, call))
  {
    assert Id(c.next, 0) !in c.replies;
  }

  lemma BeginClerks<V>(c: Net<V>, client: nat, call: Call<V>, s: O.State<V>)
    requires Messages(c, s) && Clerks(c, s) && client !in c.clerks
    ensures Clerks(Begun(c, client, call), O.Began(s, client, call))
  {
    var c', s' := Begun(c, client, call), O.Began(s, client, call);
    assert ClerksOk(c'.clerks, s');
    BeginTries(c, client, call, s);
    BeginFirst(c, client, call, s);
  }

  lemma BeginTries<V>(c: Net<V>, client: nat, call: Call<V>, s: O.State<V>)
    requires FlightOk(c.flight, s.ops) && RepliesOk(c.replies, s.ops) && |s.ops| == c.next
    requires ClerksOk(c.clerks, s) && TriesOk(c.clerks, c.flight.Keys + c.replies.Keys)
    ensures var c' := Begun(c, client, call); TriesOk(c'.clerks, c'.flight.Keys + c'.replies.Keys)
  {
    var c' := Begun(c, client, call);
    forall cl, id | cl in c'.clerks && id in c'.flight.Keys + c'.replies.Keys && id.op == c'.clerks[cl].op
      ensures id.try <= c'.clerks[cl].tries
    {
      if cl != client { assert id in c.flight.Keys + c.replies.Keys; }
    }
  }

  lemma BeginFirst<V>(c: Net<V>, client: nat, call: Call<V>, s: O.State<V>)
    requires FirstTries(c, s.ops) && RepliesOk(c.replies, s.ops) && |s.ops| == c.next && client !in c.clerks
    ensures FirstTries(Begun(c, client, call), O.Began(s, client, call).ops)
  {
    var c', s' := Begun(c, client, call), O.Began(s, client, call);
    forall cl | cl in c'.clerks && c'.clerks[cl].tries == 0 ensures FirstTry(c'.clerks[cl], c', s'.ops) {
      if cl != client { assert FirstTry(c.clerks[cl], c, s.ops); }
    }
  }

  // Handle

  lemma HandleSim<V>(c: Net<V>, id: Id, s: O.State<V>)
    requires Sim(c, s) && id in c.flight
    ensures O.Step(s, O.Execute(id.op), O.Executed(s, id.op))
    ensures Sim(Handled(c, id), O.Executed(s, id.op))
  {
    var s' := O.Executed(s, id.op);
    O.StepInv(s, O.Execute(id.op), s');
    O.StepExtends(s, O.Execute(id.op), s');
    RepliesKeep(c.replies, s, s');
    ServerAgrees(c.m, s, c.flight[id]);
    HandleTable(c, id, s);
    HandleMessages(c, id, s);
    HandleClerks(c, id, s);
  }

  lemma HandleTable<V>(c: Net<V>, id: Id, s: O.State<V>)
    requires TableIs(c.m, s) && FlightOk(c.flight, s.ops) && id in c.flight
    ensures TableIs(Handled(c, id).m, O.Executed(s, id.op))
  {
    var call := c.flight[id];
    var m', s' := Handled(c, id).m, O.Executed(s, id.op);
    ServerAgrees(c.m, s, call);
    forall k
      ensures (k in m' <==> O.H(s', k) != []) &&
              (k in m' ==> var h := O.H(s', k); m'[k] == Entry(h[|h| - 1].value, |h|))
    {
      if k != call.key { assert O.H(s', k) == O.H(s, k); }
    }
  }

  lemma HandleMessages<V>(c: Net<V>, id: Id, s: O.State<V>)
    requires TableIs(c.m, s) && Messages(c, s) && id in c.flight
    requires RepliesOk(c.replies, O.Executed(s, id.op).ops)
    ensures Messages(Handled(c, id), O.Executed(s, id.op))
  {
    var op, op' := s.ops[id.op], O.Executed(s, id.op).ops[id.op];
    ServerAgrees(c.m, s, c.flight[id]);
    assert op'.execs[|op.execs|] == KvServer.Reply(c.m, c.flight[id]);
  }

  lemma HandleClerks<V>(c: Net<V>, id: Id, s: O.State<V>)
    requires TableIs(c.m, s) && Messages(c, s) && Clerks(c, s) && id in c.flight
    ensures Clerks(Handled(c, id), O.Executed(s, id.op))
  {
    HandleClerksOk(c, id, s);
    HandleTries(c, id);
    HandleFirst(c, id, s);
  }

  lemma HandleClerksOk<V>(c: Net<V>, id: Id, s: O.State<V>)
    requires ClerksOk(c.clerks, s) && id.op < |s.ops|
    ensures ClerksOk(c.clerks, O.Executed(s, id.op))
  {
  }

  lemma HandleTries<V>(c: Net<V>, id: Id)
    requires TriesOk(c.clerks, c.flight.Keys + c.replies.Keys) && id in c.flight
    ensures var c' := Handled(c, id); TriesOk(c'.clerks, c'.flight.Keys + c'.replies.Keys)
  {
    var c' := Handled(c, id);
    assert c'.flight.Keys + c'.replies.Keys == c.flight.Keys + c.replies.Keys;
  }

  lemma HandleFirst<V>(c: Net<V>, id: Id, s: O.State<V>)
    requires TableIs(c.m, s) && FlightOk(c.flight, s.ops) && c.flight.Keys !! c.replies.Keys && id in c.flight
    requires TriesOk(c.clerks, c.flight.Keys + c.replies.Keys) && FirstTries(c, s.ops)
    ensures FirstTries(Handled(c, id), O.Executed(s, id.op).ops)
  {
    var c', s' := Handled(c, id), O.Executed(s, id.op);
    ServerAgrees(c.m, s, c.flight[id]);
    forall cl | cl in c'.clerks && c'.clerks[cl].tries == 0 ensures FirstTry(c'.clerks[cl], c', s'.ops) {
      var k := c.clerks[cl];
      assert FirstTry(k, c, s.ops);
      if id.op == k.op { assert id == k.Current(); }
    }
  }

  // Retry

  lemma RetrySim<V>(c: Net<V>, client: nat, fate: Fate, s: O.State<V>)
    requires Sim(c, s) && client in c.clerks && CanFail(c, c.clerks[client].Current(), fate)
    ensures var s' := s.(now := s.now + 1, failures := true);
            O.Step(s, O.Fail, s') && Sim(Resent(c, client, fate), s')
  {
    var s' := s.(now := s.now + 1, failures := true);
    O.StepInv(s, O.Fail, s');
    TableKeeps(c.m, s, s');
    assert O.OpOk(s.ops[s.cur[client]], s.cur[client], O.H(s, s.ops[s.cur[client]].call.key), s.failures);
    RetryMessages(c, client, fate, s);
    RetryClerks(c, client, fate, s);
  }

  lemma RetryMessages<V>(c: Net<V>, client: nat, fate: Fate, s: O.State<V>)
    requires Messages(c, s) && ClerksOk(c.clerks, s) && TriesOk(c.clerks, c.flight.Keys + c.replies.Keys)
    requires client in c.clerks && !s.ops[c.clerks[client].op].closed
    ensures Messages(Resent(c, client, fate), s)
  {
    var k := c.clerks[client];
    assert Id(k.op, k.tries + 1) !in c.flight.Keys + c.replies.Keys;
  }

  lemma RetryClerks<V>(c: Net<V>, client: nat, fate: Fate, s: O.State<V>)
    requires Clerks(c, s) && O.CurrentOps(s) && client in c.clerks
    ensures Clerks(Resent(c, client, fate), s.(now := s.now + 1, failures := true))
  {
    var c', s' := Resent(c, client, fate), s.(now := s.now + 1, failures := true);
    assert ClerksOk(c'.clerks, s');
    OneClerkEach(c, client, s);
    RetryTries(c, client, fate);
    RetryFirst(c, client, fate, s.ops);
  }

  /** No two clerks work on the same operation. */
  lemma OneClerkEach<V>(c: Net<V>, client: nat, s: O.State<V>)
    requires ClerksOk(c.clerks, s) && O.CurrentOps(s) && client in c.clerks
    ensures forall cl :: cl in c.clerks && cl != client ==> c.clerks[cl].op != c.clerks[client].op
  {
  }

  lemma RetryTries<V>(c: Net<V>, client: nat, fate: Fate)
    requires TriesOk(c.clerks, c.flight.Keys + c.replies.Keys) && client in c.clerks
    requires forall cl :: cl in c.clerks && cl != client ==> c.clerks[cl].op != c.clerks[client].op
    ensures var c' := Resent(c, client, fate); TriesOk(c'.clerks, c'.flight.Keys + c'.replies.Keys)
  {
    var c' := Resent(c, client, fate);
    var newer := Id(c.clerks[client].op, c.clerks[client].tries + 1);
    forall cl, id | cl in c'.clerks && id in c'.flight.Keys + c'.replies.Keys && id.op == c'.clerks[cl].op
      ensures id.try <= c'.clerks[cl].tries
    {
      if id != newer { assert id in c.flight.Keys + c.replies.Keys; }
    }
  }

  lemma RetryFirst<V>(c: Net<V>, client: nat, fate: Fate, ops: seq<O.Op<V>>)
    requires FirstTries(c, ops) && client in c.clerks
    ensures FirstTries(Resent(c, client, fate), ops)
  {
    var c' := Resent(c, client, fate);
    forall cl | cl in c'.clerks && c'.clerks[cl].tries == 0 ensures FirstTry(c'.clerks[cl], c', ops) {
      assert cl != client && FirstTry(c.clerks[cl], c, ops);
    }
  }

  // Return

  lemma ReturnSim<V>(c: Net<V>, client: nat, a: Answer<V>, s: O.State<V>)
    requires Sim(c, s) && client in c.clerks && Step(c, Return(client, a), Answered(c, client))
    ensures O.Step(s, O.Return(client, a), O.Answered(s, client, a))
    ensures Sim(Answered(c, client), O.Answered(s, client, a))
  {
    var s' := O.Answered(s, client, a);
    ReturnAllowed(c, client, a, s);
    O.StepInv(s, O.Return(client, a), s');
    O.StepExtends(s, O.Return(client, a), s');
    TableKeeps(c.m, s, s');
    RepliesKeep(c.replies, s, s');
    ReturnMessages(c, client, a, s);
    ReturnClerks(c, client, a, s);
  }

  /** The clerk returns only answers that the executions of its requests justify. */
  lemma ReturnAllowed<V>(c: Net<V>, client: nat, a: Answer<V>, s: O.State<V>)
    requires Messages(c, s) && Clerks(c, s) && O.OpsOk(s)
    requires client in c.clerks && Step(c, Return(client, a), Answered(c, client))
    ensures client in s.cur && O.MayReturn(s.ops[s.cur[client]], a, s.failures)
    ensures a == Status(ErrVersion) ==> c.clerks[client].tries == 0
  {
    var k := c.clerks[client];
    var r := c.replies[k.Current()];
    var op := s.ops[k.op];
    assert O.Saw(op, r);
    assert O.OpOk(op, k.op, O.H(s, op.call.key), s.failures);
    assert r != Status(ErrMaybe);
  }

  lemma ReturnMessages<V>(c: Net<V>, client: nat, a: Answer<V>, s: O.State<V>)
    requires Messages(c, s) && ClerksOk(c.clerks, s) && TriesOk(c.clerks, c.flight.Keys + c.replies.Keys)
    requires client in c.clerks && c.clerks[client].Current() in c.replies
    requires a == Status(ErrVersion) ==> c.clerks[client].tries == 0
    requires RepliesOk(c.replies, O.Answered(s, client, a).ops)
    ensures Messages(Answered(c, client), O.Answered(s, client, a))
  {
    var k := c.clerks[client];
    if a == Status(ErrVersion) {
      forall id | id in c.flight ensures id.op != k.op {
        assert id in c.flight.Keys + c.replies.Keys;
      }
    }
  }

  lemma ReturnClerks<V>(c: Net<V>, client: nat, a: Answer<V>, s: O.State<V>)
    requires Clerks(c, s) && O.CurrentOps(s) && client in c.clerks
    ensures Clerks(Answered(c, client), O.Answered(s, client, a))
  {
    ReturnClerksOk(c, client, a, s);
    ReturnTries(c, client);
    ReturnFirst(c, client, a, s);
  }

  lemma ReturnClerksOk<V>(c: Net<V>, client: nat, a: Answer<V>, s: O.State<V>)
    requires ClerksOk(c.clerks, s) && client in c.clerks
    ensures ClerksOk(Answered(c, client).clerks, O.Answered(s, client, a))
  {
  }

  lemma ReturnTries<V>(c: Net<V>, client: nat)
    requires TriesOk(c.clerks, c.flight.Keys + c.replies.Keys) && client in c.clerks
    ensures var c' := Answered(c, client); TriesOk(c'.clerks, c'.flight.Keys + c'.replies.Keys)
  {
    var c' := Answered(c, client);
    assert c'.flight.Keys + c'.replies.Keys <= c.flight.Keys + c.replies.Keys;
  }

  lemma ReturnFirst<V>(c: Net<V>, client: nat, a: Answer<V>, s: O.State<V>)
    requires ClerksOk(c.clerks, s) && FirstTries(c, s.ops) && client in c.clerks
    ensures FirstTries(Answered(c, client), O.Answered(s, client, a).ops)
  {
    var c', s' := Answered(c, client), O.Answered(s, client, a);
    forall cl | cl in c'.clerks && c'.clerks[cl].tries == 0 ensures FirstTry(c'.clerks[cl], c', s'.ops) {
      assert FirstTry(c.clerks[cl], c, s.ops);
    }
  }

  /** Every step of the network is a step of `Operations`. */
  lemma StepSim<V>(c: Net<V>, l: Label<V>, c': Net<V>, s: O.State<V>)
    requires Sim(c, s) && Step(c, l, c')
    ensures var s' := O.Next(s, Abstract(l)); O.Step(s, Abstract(l), s') && Sim(c', s')
  {
    match l
    case Begin(client, call) => BeginSim(c, client, call, s);
    case Handle(id) => HandleSim(c, id, s);
    case Retry(client, fate) => RetrySim(c, client, fate, s);
    case Return(client, a) => ReturnSim(c, client, a, s);
  }
}
