/** The clerk's retry loops (client.go), one clerk at a time: the server object is shared with others, whose
    calls may be served before each of the clerk's own requests arrives. */
module Clerks {
  import opened Rpc
  import opened KvServer
  import Network

  /** What becomes of one RPC. */
  datatype Fate = Delivered | RequestLost | ReplyLost

  /** One try: the calls of others that the server takes first, and the fate of the clerk's own RPC. */
  datatype Try<V> = Try(others: seq<Call<V>>, fate: Fate)

  /** The table after a sequence of calls. */
  function ServeAll<V>(m: Table<V>, calls: seq<Call<V>>): Table<V>
  {
    if calls == [] then m else Serve(ServeAll(m, calls[..|calls| - 1]), calls[|calls| - 1])
  }

  lemma {:induction false} VersionsRise<V>(m: Table<V>, calls: seq<Call<V>>, key: string)
    ensures VersionOf(m, key) <= VersionOf(ServeAll(m, calls), key)
    ensures key in m ==> key in ServeAll(m, calls)
  {
    if calls != [] { VersionsRise(m, calls[..|calls| - 1], key); }
  }

  /** The first `n` tries have failed. */
  ghost predicate Lost<V>(tries: seq<Try<V>>, n: nat)
  {
    n <= |tries| && forall i :: 0 <= i < n ==> tries[i].fate != Delivered
  }

  /** The table after one try. */
  function AfterTry<V>(m: Table<V>, t: Try<V>, call: Call<V>): Table<V>
  {
    if t.fate == RequestLost then ServeAll(m, t.others) else Serve(ServeAll(m, t.others), call)
  }

  /** The table after some tries. */
  function AfterTries<V>(m: Table<V>, tries: seq<Try<V>>, call: Call<V>): Table<V>
  {
    if tries == [] then m else AfterTry(AfterTries(m, tries[..|tries| - 1], call), tries[|tries| - 1], call)
  }

  /** 1 if this try applies the call. */
  ghost function Hit<V>(m: Table<V>, t: Try<V>, call: Call<V>): nat
  {
    if t.fate != RequestLost && Reply(ServeAll(m, t.others), call) == Status(OK) then 1 else 0
  }

  /** How many of the tries apply the call. */
  ghost function Hits<V>(m: Table<V>, tries: seq<Try<V>>, call: Call<V>): nat
  {
    if tries == [] then 0 else
    var front := tries[..|tries| - 1];
    Hits(m, front, call) + Hit(AfterTries(m, front, call), tries[|tries| - 1], call)
  }

  lemma NextTry<V>(m: Table<V>, tries: seq<Try<V>>, k: nat, call: Call<V>)
    requires k < |tries|
    ensures AfterTries(m, tries[..k + 1], call) == AfterTry(AfterTries(m, tries[..k], call), tries[k], call)
    ensures Hits(m, tries[..k + 1], call) == Hits(m, tries[..k], call) + Hit(AfterTries(m, tries[..k], call), tries[k], call)
  {
    assert tries[..k + 1][..k] == tries[..k];
  }

  class Clerk<V> {
    const server: KVServer<V>

    constructor (server: KVServer<V>)
      ensures this.server == server
    {
      this.server := server;
    }

    /** The server takes calls of other clerks. */
    method Others(calls: seq<Call<V>>)
      modifies server
      ensures server.m == ServeAll(old(server.m), calls)
    {
      for i := 0 to |calls|
        invariant server.m == ServeAll(old(server.m), calls[..i])
      {
        assert calls[..i + 1][..i] == calls[..i];
        if calls[i].Put? {
          var _ := server.Put(calls[i].key, calls[i].value, calls[i].version);
        }
      }
      assert calls[..|calls|] == calls;
    }

    /** One RPC: `false` if the request or the reply is lost. */
    method Send(call: Call<V>, t: Try<V>) returns (ok: bool, reply: Answer<V>)
      modifies server
      ensures server.m == AfterTry(old(server.m), t, call) && ok == (t.fate == Delivered)
      ensures ok ==> reply == Reply(ServeAll(old(server.m), t.others), call)
    {
      Others(t.others);
      reply := Status(ErrNoKey);
      if t.fate != RequestLost {
        if call.Get? { reply := server.Get(call.key); }
        else { reply := server.Put(call.key, call.value, call.version); }
      }
      ok := t.fate == Delivered;
    }

    /** Retries until an RPC comes back; the answer is the server's at that moment, and nothing is written. */
    method Get(key: string, tries: seq<Try<V>>) returns (res: Option<Answer<V>>, used: nat)
      requires tries != []
      modifies server
      ensures used <= |tries| && (res.None? ==> used == |tries| && Lost(tries, used))
      ensures server.m == AfterTries(old(server.m), tries[..used], Call.Get(key))
      ensures res.Some? ==> used > 0 && Lost(tries, used - 1) && res.value == Reply(server.m, Call.Get(key))
    {
      ghost var m0 := server.m;
      NextTry(m0, tries, 0, Call.Get(key));
      var ok, reply := Send(Call.Get(key), tries[0]);
      used := 1;
      while !ok
        invariant 1 <= used <= |tries| && Lost(tries, used - 1) && ok == (tries[used - 1].fate == Delivered)
        invariant server.m == AfterTries(m0, tries[..used], Call.Get(key))
        invariant ok ==> reply == Reply(server.m, Call.Get(key))
        decreases |tries| - used, !ok
      {
        if used == |tries| { return None, used; }
        NextTry(m0, tries, used, Call.Get(key));
        ok, reply := Send(Call.Get(key), tries[used]);
        used := used + 1;
      }
      res := Some(reply);
    }

    /** One RPC of a Put that has been applied `hits` times so far. */
    method SendPut(call: Call<V>, t: Try<V>, retried: bool, ghost hits: nat) returns (ok: bool, reply: Answer<V>)
      requires call.Put? && Past(server.m, call, hits) && (hits == 1 ==> retried)
      modifies server
      ensures server.m == AfterTry(old(server.m), t, call) && ok == (t.fate == Delivered)
      ensures Past(server.m, call, hits + Hit(old(server.m), t, call))
      ensures ok ==> Fits(reply, hits + Hit(old(server.m), t, call), retried)
      ensures ok ==> reply == Reply(ServeAll(old(server.m), t.others), call)
    {
      TryMeans(server.m, t, call, hits, retried);
      ok, reply := Send(call, t);
    }

    /** Retries until an RPC comes back. The answer is the server's reply to that request, taken from the table
        just before it; only a version error on a resend is returned as ErrMaybe. However often it was sent, the
        Put was applied at most once; OK means once, ErrVersion and ErrNoKey never, ErrMaybe leaves it open. */
    method Put(key: string, value: V, version: nat, tries: seq<Try<V>>) returns (res: Option<Answer<V>>, used: nat)
      requires tries != []
      modifies server
      ensures used <= |tries| && (res.None? ==> used == |tries| && Lost(tries, used))
      ensures server.m == AfterTries(old(server.m), tries[..used], Call.Put(key, value, version))
      ensures res.Some? ==> used > 0 && Lost(tries, used - 1) && tries[used - 1].fate == Delivered && res.value.Status?
      ensures res.Some? ==>
                var call := Call.Put(key, value, version);
                var r := Reply(ServeAll(AfterTries(old(server.m), tries[..used - 1], call), tries[used - 1].others), call);
                && (res.value == Status(ErrMaybe) <==> r == Status(ErrVersion) && used > 1)
                && (res.value != Status(ErrMaybe) ==> res.value == r)
      ensures var hits := Hits(old(server.m), tries[..used], Call.Put(key, value, version));
              && hits <= 1
              && (res.Some? ==> match res.value.err
                                case OK => hits == 1
                                case ErrVersion => hits == 0 && used == 1
                                case ErrNoKey => hits == 0
                                case ErrMaybe => used > 1)
    {
      var call := Call.Put(key, value, version);
      ghost var m0 := server.m;
      NextTry(m0, tries, 0, call);
      var ok, reply := SendPut(call, tries[0], false, 0);
      used := 1;
      var retried := false;
      ghost var hits := Hits(m0, tries[..1], call);
      while !ok
        invariant 1 <= used <= |tries| && Lost(tries, used - 1) && ok == (tries[used - 1].fate == Delivered)
        invariant server.m == AfterTries(m0, tries[..used], call) && hits == Hits(m0, tries[..used], call)
        invariant retried == (used > 1) && Past(server.m, call, hits) && (ok ==> Fits(reply, hits, retried))
        invariant ok ==> reply == Reply(ServeAll(AfterTries(m0, tries[..used - 1], call), tries[used - 1].others), call)
        decreases |tries| - used, !ok
      {
        if used == |tries| { return None, used; }
        NextTry(m0, tries, used, call);
        retried := true;
        ok, reply := SendPut(call, tries[used], retried, hits);
        used := used + 1;
        hits := Hits(m0, tries[..used], call);
      }
      res := Some(Network.ClerkAnswer(reply, retried));
    }
  }

  /** Once the Put has been applied, the key is past its version. */
  ghost predicate Past<V>(m: Table<V>, call: Call<V>, hits: nat)
    requires call.Put?
  {
    hits <= 1 && (hits == 1 ==> call.key in m && call.version < VersionOf(m, call.key))
  }

  /** What a reply says about the number of times the Put has been applied. */
  ghost predicate Fits<V>(reply: Answer<V>, hits: nat, retried: bool)
  {
    && reply.Status? && reply.err != ErrMaybe
    && (reply.err == OK ==> hits == 1) && (reply.err == ErrNoKey ==> hits == 0)
    && (reply.err == ErrVersion && !retried ==> hits == 0)
  }

  /** One more try of a Put that has been applied `hits` times. */
  lemma TryMeans<V>(m: Table<V>, t: Try<V>, call: Call<V>, hits: nat, retried: bool)
    requires call.Put? && Past(m, call, hits) && (hits == 1 ==> retried)
    ensures Past(AfterTry(m, t, call), call, hits + Hit(m, t, call))
    ensures t.fate == Delivered ==> Fits(Reply(ServeAll(m, t.others), call), hits + Hit(m, t, call), retried)
  {
    VersionsRise(m, t.others, call.key);
  }
}
