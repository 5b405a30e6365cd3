/** `CheckAppends` of kvtest.go: the test's check of the list that concurrent appenders leave behind. */
module AppendCheck {

  datatype Item = Item(id: nat, n: nat)

  /** What a client reports: how many of its Puts returned OK, and how many ErrMaybe. */
  datatype ClntRes = ClntRes(nok: nat, nmaybe: nat)

  /** One more than the last number that client `c` has in the list, or 0. */
  function Expect(es: seq<Item>, c: nat): nat
  {
    if es == [] then 0
    else if es[|es| - 1].id == c then es[|es| - 1].n + 1
    else Expect(es[..|es| - 1], c)
  }

  function Count(es: seq<Item>, c: nat): nat
  {
    if es == [] then 0
    else Count(es[..|es| - 1], c) + (if es[|es| - 1].id == c then 1 else 0)
  }

  /** Each client's numbers strictly increase. */
  ghost predicate Increasing(es: seq<Item>)
  {
    forall a, b :: 0 <= a < b < |es| && es[a].id == es[b].id ==> es[a].n < es[b].n
  }

  lemma {:induction false} ExpectBound(es: seq<Item>, k: nat)
    requires Increasing(es) && k < |es|
    ensures es[k].n < Expect(es, es[k].id)
  {
    var m := |es| - 1;
    if es[m].id != es[k].id { ExpectBound(es[..m], k); }
  }

  /** What `Expect` was taken from. */
  lemma {:induction false} ExpectWitness(es: seq<Item>, c: nat) returns (k: nat)
    requires Expect(es, c) > 0
    ensures k < |es| && es[k].id == c && Expect(es, c) == es[k].n + 1
  {
    var m := |es| - 1;
    if es[m].id == c { k := m; } else { k := ExpectWitness(es[..m], c); }
  }

  lemma IncreasingAppend(es: seq<Item>, e: Item)
    ensures Increasing(es + [e]) <==> Increasing(es) && Expect(es, e.id) <= e.n
    ensures Expect(es + [e], e.id) == e.n + 1
    ensures forall c :: c != e.id ==> Expect(es + [e], c) == Expect(es, c)
    ensures forall c :: Count(es + [e], c) == Count(es, c) + (if e.id == c then 1 else 0)
  {
    var all := es + [e];
    assert all[..|es|] == es;
    if Increasing(all) {
      assert forall a, b :: 0 <= a < b < |es| ==> all[a] == es[a] && all[b] == es[b];
      assert Increasing(es);
      if Expect(es, e.id) > 0 {
        var k := ExpectWitness(es, e.id);
        assert all[k] == es[k] && all[|es|] == e;
      }
    }
    if Increasing(es) && Expect(es, e.id) <= e.n {
      forall a | 0 <= a < |es| && es[a].id == e.id ensures es[a].n < e.n { ExpectBound(es, a); }
    }
  }

  /** What the check accepts: increasing numbers, a list as long as the version says, no more numbers
      skipped than Puts that may have failed, and no more numbers used than Puts that may have succeeded. */
  ghost predicate Passes(es: seq<Item>, rs: seq<ClntRes>, ver: nat)
  {
    && Increasing(es)
    && |es| + 1 == ver
    && (forall k :: 0 <= k < |es| ==> es[k].id < |rs|)
    && forall c :: 0 <= c < |rs| ==>
         Expect(es, c) <= Count(es, c) + rs[c].nmaybe && Expect(es, c) <= rs[c].nok + rs[c].nmaybe
  }

  /** A lookup in a Go map: a missing key reads as 0. */
  function At(m: map<nat, nat>, c: nat): nat
  {
    if c in m then m[c] else 0
  }

  /** The scan's maps after the items `es`: how far each client has come and what it has left out. */
  ghost predicate Tallies(es: seq<Item>, wanted: map<nat, nat>, skipped: map<nat, nat>)
  {
    forall c: nat :: At(wanted, c) == Expect(es, c) && At(wanted, c) == Count(es, c) + At(skipped, c)
  }

  lemma TalliesNext(es: seq<Item>, e: Item, wanted: map<nat, nat>, skipped: map<nat, nat>)
    requires Tallies(es, wanted, skipped) && At(wanted, e.id) <= e.n
    ensures Tallies(es + [e], wanted[e.id := e.n + 1], skipped[e.id := At(skipped, e.id) + (e.n - At(wanted, e.id))])
  {
    IncreasingAppend(es, e);
    var wanted', skipped' := wanted[e.id := e.n + 1], skipped[e.id := At(skipped, e.id) + (e.n - At(wanted, e.id))];
    forall c: nat
      ensures At(wanted', c) == Expect(es + [e], c) && At(wanted', c) == Count(es + [e], c) + At(skipped', c)
    {
      assert At(wanted, c) == Expect(es, c) && At(wanted, c) == Count(es, c) + At(skipped, c);
    }
  }

  ghost predicate Listed(es: seq<Item>, c: nat)
  {
    exists k :: 0 <= k < |es| && es[k].id == c
  }

  /** The keys of `wanted`: the clients, and whatever ids the list holds. */
  ghost predicate Known(wanted: map<nat, nat>, nclnt: nat, es: seq<Item>)
  {
    forall c: nat :: c in wanted <==> c < nclnt || Listed(es, c)
  }

  lemma KnownNext(wanted: map<nat, nat>, nclnt: nat, es: seq<Item>, e: Item, n: nat)
    requires Known(wanted, nclnt, es)
    ensures Known(wanted[e.id := n], nclnt, es + [e])
  {
    forall c: nat ensures Listed(es + [e], c) <==> Listed(es, c) || c == e.id {
      assert (es + [e])[|es|] == e;
      assert forall k :: 0 <= k < |es| ==> (es + [e])[k] == es[k];
    }
  }

  lemma OutOfOrder(es: seq<Item>, i: nat)
    requires i < |es| && es[i].n < Expect(es[..i], es[i].id)
    ensures !Increasing(es)
  {
    var k := ExpectWitness(es[..i], es[i].id);
    assert es[k].id == es[i].id && es[i].n <= es[k].n;
  }

  /** `wanted` and `skipped` start at 0 for every client. */
  method Zeroed(nclnt: nat) returns (m: map<nat, nat>)
    ensures Known(m, nclnt, []) && forall c: nat :: At(m, c) == 0
  {
    m := map[];
    for i := 0 to nclnt
      invariant forall c: nat :: c in m <==> c < i
      invariant forall c: nat :: c in m ==> m[c] == 0
    {
      m := m[i := 0];
    }
  }

  /** The loop over the list: both maps, or failure at the first item out of order. */
  method Scan(es: seq<Item>, nclnt: nat) returns (ok: bool, wanted: map<nat, nat>, skipped: map<nat, nat>)
    ensures ok <==> Increasing(es)
    ensures ok ==> Tallies(es, wanted, skipped) && Known(wanted, nclnt, es)
  {
    wanted := Zeroed(nclnt);
    skipped := Zeroed(nclnt);
    for i := 0 to |es|
      invariant Increasing(es[..i]) && Tallies(es[..i], wanted, skipped) && Known(wanted, nclnt, es[..i])
    {
      var e := es[i];
      ghost var next := es[..i] + [e];
      assert es[..i + 1] == next;
      assert At(wanted, e.id) == Expect(es[..i], e.id);
      if At(wanted, e.id) > e.n {
        OutOfOrder(es, i);
        return false, wanted, skipped;
      }
      IncreasingAppend(es[..i], e);
      TalliesNext(es[..i], e, wanted, skipped);
      KnownNext(wanted, nclnt, es[..i], e, e.n + 1);
      if At(wanted, e.id) == e.n {
        skipped := skipped[e.id := At(skipped, e.id)];
        wanted := wanted[e.id := At(wanted, e.id) + 1];
      } else {
        skipped := skipped[e.id := At(skipped, e.id) + (e.n - At(wanted, e.id))];
        wanted := wanted[e.id := e.n + 1];
      }
    }
    assert es[..|es|] == es;
    ok := true;
  }

  /** What the check asks of one client. */
  predicate Accounted(c: nat, n: nat, skip: nat, rs: seq<ClntRes>)
  {
    c < |rs| && skip <= rs[c].nmaybe && n <= rs[c].nok + rs[c].nmaybe
  }

  method CheckAppends(es: seq<Item>, nclnt: nat, rs: seq<ClntRes>, ver: nat) returns (passed: bool)
    requires |rs| == nclnt
    ensures passed <==> Passes(es, rs, ver)
  {
    var ok, wanted, skipped := Scan(es, nclnt);
    if !ok { return false; }
    if |es| + 1 != ver { return false; }
    var rest := wanted.Keys;
    while rest != {}
      invariant rest <= wanted.Keys
      invariant forall c :: c in wanted && c !in rest ==> Accounted(c, wanted[c], At(skipped, c), rs)
      decreases |rest|
    {
      var c: nat :| c in rest;
      assert At(wanted, c) == wanted[c];
      if c >= |rs| {  // the index is out of range
        assert Listed(es, c);
        return false;
      }
      if At(skipped, c) > rs[c].nmaybe { return false; }
      if wanted[c] > rs[c].nok + rs[c].nmaybe { return false; }
      rest := rest - {c};
    }
    passed := true;
    forall k | 0 <= k < |es| ensures es[k].id < |rs| { assert Listed(es, es[k].id); }
    forall c: nat | c < |rs| ensures Accounted(c, Expect(es, c), Expect(es, c) - Count(es, c), rs) {
      assert c in wanted && At(wanted, c) == Expect(es, c);
    }
  }
}
