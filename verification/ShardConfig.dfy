/** `ShardConfig` as an object: the loops of shardcfg.go over `Shards`, `Groups` and `Num`. */
module ShardConfigs {
  import opened Sums
  import opened ShardBalance
  import opened ShardOptimal

  type Groups = map<Gid, seq<string>>

  /** The value `analyze` starts its minimum from; counts must stay below it. */
  const SENTINEL := 257

  ghost predicate Shares(xs: seq<string>, ys: seq<string>)
  {
    exists i, j :: 0 <= i < |xs| && 0 <= j < |ys| && xs[i] == ys[j]
  }

  /** No server name belongs to two groups. */
  ghost predicate ServersDisjoint(groups: Groups)
  {
    forall g, h :: g in groups && h in groups && g != h ==> !Shares(groups[g], groups[h])
  }

  /** The joins that do not stop the program, stated without an order on the new groups. */
  ghost predicate JoinAccepted(groups: Groups, servers: Groups)
  {
    && servers.Keys != {}
    && groups.Keys !! servers.Keys
    && (forall g, h :: g in groups && h in servers ==> !Shares(groups[g], servers[h]))
    && ServersDisjoint(servers)
  }

  ghost predicate Distinct<T>(s: seq<T>)
  {
    forall i, j :: 0 <= i < j < |s| ==> s[i] != s[j]
  }

  /** `moved` names every shard whose owner changed, each once. */
  ghost predicate LogsMoves(a: seq<Gid>, b: seq<Gid>, moved: seq<nat>)
  {
    && |a| == |b|
    && Distinct(moved)
    && (forall i :: 0 <= i < |moved| ==> moved[i] < |a|)
    && (forall s :: 0 <= s < |a| ==> (s in moved <==> a[s] != b[s]))
  }

  lemma LogsOneMore(a: seq<Gid>, b: seq<Gid>, moved: seq<nat>, s: nat, g: Gid)
    requires LogsMoves(a, b, moved) && s < |a| && a[s] == b[s] && g != a[s]
    ensures LogsMoves(a, b[s := g], moved + [s])
  {
  }

  ghost predicate LeaveAccepted(groups: Groups, gids: seq<Gid>)
  {
    && gids != []
    && Distinct(gids)
    && forall i :: 0 <= i < |gids| ==> gids[i] in groups
  }

  function Elements<T>(s: seq<T>): set<T> { set x | x in s }

  /** Go leaves the order of a map iteration open: the next key may be any of those left. */
  method AnyOf<T(==)>(s: set<T>) returns (x: T)
    requires s != {}
    ensures x in s
  {
    x :| x in s;
  }

  lemma LeastUnique(sh: seq<Gid>, members: set<Gid>, g: Gid)
    requires members != {} && IsLeast(sh, members, g)
    ensures g == Least(sh, members)
  {
    assert IsLeast(sh, members, Least(sh, members));
  }

  lemma MostUnique(sh: seq<Gid>, members: set<Gid>, g: Gid)
    requires members != {} && IsMost(sh, members, g)
    ensures g == Most(sh, members)
  {
    assert IsMost(sh, members, Most(sh, members));
  }

  /** No group owns more shards than there are. */
  lemma CountBound(sh: seq<Gid>, g: Gid)
    ensures Count(sh, g) <= |sh|
  {
    assert multiset(sh)[g] <= |multiset(sh)|;
  }

  /** The keys of a map, in whatever order the iteration yields them. */
  method KeysInAnyOrder(groups: Groups) returns (ks: seq<Gid>)
    ensures Elements(ks) == groups.Keys && Distinct(ks)
  {
    ks := [];
    var rest := groups.Keys;
    while rest != {}
      invariant rest <= groups.Keys && Elements(ks) == groups.Keys - rest && Distinct(ks)
      decreases |rest|
    {
      var k := AnyOf(rest);
      assert Elements(ks + [k]) == Elements(ks) + {k};
      ks := ks + [k];
      rest := rest - {k};
    }
  }

  ghost predicate Ascending(s: seq<Gid>)
  {
    forall i, j :: 0 <= i < j < |s| ==> s[i] <= s[j]
  }

  method Insert(s: seq<Gid>, x: Gid) returns (r: seq<Gid>)
    requires Ascending(s)
    ensures Ascending(r) && Elements(r) == Elements(s) + {x} && |r| == |s| + 1
  {
    var i := 0;
    while i < |s| && s[i] < x
      invariant 0 <= i <= |s|
      invariant forall j :: 0 <= j < i ==> s[j] < x
    {
      i := i + 1;
    }
    r := s[..i] + [x] + s[i..];
    assert s == s[..i] + s[i..];
  }

  method Sort(s: seq<Gid>) returns (r: seq<Gid>)
    ensures Ascending(r) && Elements(r) == Elements(s) && |r| == |s|
  {
    r := [];
    for i := 0 to |s|
      invariant Ascending(r) && Elements(r) == Elements(s[..i]) && |r| == i
    {
      assert s[..i + 1] == s[..i] + [s[i]];
      r := Insert(r, s[i]);
    }
    assert s[..|s|] == s;
  }

  method SharesServer(xs: seq<string>, ys: seq<string>) returns (b: bool)
    ensures b == Shares(xs, ys)
  {
    for i := 0 to |xs|
      invariant forall k, j :: 0 <= k < i && 0 <= j < |ys| ==> xs[k] != ys[j]
    {
      for j := 0 to |ys|
        invariant forall l :: 0 <= l < j ==> xs[i] != ys[l]
      {
        if xs[i] == ys[j] { return true; }
      }
    }
    return false;
  }

  class ShardConfig {
    var num: int
    const shards: array<Gid>
    var groups: Groups

    ghost predicate Valid()
    {
      shards.Length < SENTINEL
    }

    constructor (n: nat)
      requires n < SENTINEL
      ensures Valid() && fresh(shards) && shards.Length == n
      ensures num == 0 && groups == map[] && forall s :: 0 <= s < n ==> shards[s] == 0
    {
      num := 0;
      shards := new Gid[n](_ => 0);
      groups := map[];
    }

    method Counts() returns (counts: map<Gid, int>)
      ensures forall g :: (g in counts <==> g in shards[..]) && (g in counts ==> counts[g] == Count(shards[..], g))
    {
      counts := map[];
      for i := 0 to shards.Length
        invariant forall g :: (g in counts <==> g in shards[..i]) && (g in counts ==> counts[g] == Count(shards[..i], g))
      {
        var g := shards[i];
        assert shards[..i + 1] == shards[..i] + [g];
        counts := counts[g := (if g in counts then counts[g] else 0) + 1];
      }
      assert shards[..shards.Length] == shards[..];
    }

    /** The most and least loaded groups. The order in which the map is iterated does not matter:
        ties go to the smallest id, so the answer is a function of the shards and the set of groups. */
    method Analyze() returns (mg: Gid, mn: int, lg: Gid, ln: int)
      requires Valid()
      ensures groups.Keys == {} ==> mg == -1 && mn == -1 && lg == -1 && ln == SENTINEL
      ensures groups.Keys != {} ==>
        && mg == Most(shards[..], groups.Keys) && mn == Count(shards[..], mg)
        && lg == Least(shards[..], groups.Keys) && ln == Count(shards[..], lg)
    {
      var counts := Counts();
      var keys := KeysInAnyOrder(groups);
      keys := Sort(keys);
      ghost var sh := shards[..];
      mg, mn, lg, ln := Scan(sh, counts, keys);
      assert forall i :: 0 <= i < |keys| ==> keys[i] in Elements(keys);
      if groups.Keys != {} {
        assert Pick(groups.Keys) in keys;
        AnalyzeIsSpec(sh, keys, groups.Keys, mg, mn, lg, ln);
      }
    }

    method LeastLoaded() returns (lg: Gid)
      requires Valid()
      ensures groups.Keys != {} ==> lg == Least(shards[..], groups.Keys)
    {
      var mg, mn, ln;
      mg, mn, lg, ln := Analyze();
    }

    /** Computes `Rebalanced`, and moves no shard twice. */
    method Rebalance() returns (ghost moved: seq<nat>)
      requires Valid()
      modifies shards
      ensures shards[..] == Rebalanced(old(shards[..]), groups.Keys)
      ensures groups.Keys != {} ==> LogsMoves(old(shards[..]), shards[..], moved)
    {
      moved := [];
      if |groups| < 1 {
        for s := 0 to shards.Length
          invariant forall k :: 0 <= k < s ==> shards[k] == 0
        {
          shards[s] := 0;
        }
        return;
      }
      ghost var a, members := shards[..], groups.Keys;
      moved := AssignUnowned();
      AssignKeepsGreedy(a, a, members, 0);
      moved := MoveUntilLevel(a, moved);
    }

    method AssignUnowned() returns (ghost moved: seq<nat>)
      requires Valid() && groups.Keys != {}
      modifies shards
      ensures shards[..] == AssignFrom(old(shards[..]), groups.Keys, 0)
      ensures LogsMoves(old(shards[..]), shards[..], moved)
    {
      moved := [];
      ghost var a, members := shards[..], groups.Keys;
      for s := 0 to shards.Length
        invariant AssignFrom(shards[..], members, s) == AssignFrom(a, members, 0)
        invariant shards[s..] == a[s..]
        invariant LogsMoves(a, shards[..], moved)
      {
        ghost var sh := shards[..];
        assert sh[s] == sh[s..][0] == a[s..][0] == a[s];
        assert sh[s + 1..] == sh[s..][1..] == a[s..][1..] == a[s + 1..];
        if shards[s] !in groups {
          var lg := LeastLoaded();
          shards[s] := lg;
          assert shards[..] == sh[s := lg];
          LogsOneMore(a, sh, moved, s, lg);
          moved := moved + [s];
        }
      }
    }

    method MoveUntilLevel(ghost a: seq<Gid>, ghost given: seq<nat>) returns (ghost moved: seq<nat>)
      requires Valid() && groups.Keys != {}
      requires Greedy(a, shards[..], groups.Keys) && AllOwned(shards[..], groups.Keys)
      requires LogsMoves(a, shards[..], given)
      modifies shards
      ensures shards[..] == Level(old(shards[..]), groups.Keys)
      ensures LogsMoves(a, shards[..], moved)
    {
      moved := given;
      var mg, mn, lg, ln := Analyze();
      while mn >= ln + 2
        invariant mg == Most(shards[..], groups.Keys) && mn == Count(shards[..], mg)
        invariant lg == Least(shards[..], groups.Keys) && ln == Count(shards[..], lg)
        invariant Level(shards[..], groups.Keys) == Level(old(shards[..]), groups.Keys)
        invariant Greedy(a, shards[..], groups.Keys) && AllOwned(shards[..], groups.Keys)
        invariant LogsMoves(a, shards[..], moved)
        decreases Squares(shards[..], groups.Keys)
      {
        MoveOneSquares(shards[..], groups.Keys);
        moved := MoveOnce(mg, lg, a, moved);
        mg, mn, lg, ln := Analyze();
      }
    }

    /** One round of the loop: one more shard moves, one that had not moved before. */
    method MoveOnce(mg: Gid, lg: Gid, ghost a: seq<Gid>, ghost given: seq<nat>) returns (ghost moved: seq<nat>)
      requires Valid() && groups.Keys != {} && Uneven(shards[..], groups.Keys)
      requires mg == Most(shards[..], groups.Keys) && lg == Least(shards[..], groups.Keys)
      requires Greedy(a, shards[..], groups.Keys) && AllOwned(shards[..], groups.Keys)
      requires LogsMoves(a, shards[..], given)
      modifies shards
      ensures shards[..] == MoveOne(old(shards[..]), groups.Keys)
      ensures Greedy(a, shards[..], groups.Keys) && AllOwned(shards[..], groups.Keys)
      ensures LogsMoves(a, shards[..], moved) && |moved| == |given| + 1
    {
      ghost var sh := shards[..];
      MoveIsFirst(a, sh, groups.Keys);
      MoveKeepsGreedy(a, sh, groups.Keys);
      MoveOneCounts(sh, groups.Keys);
      var s := GiveFirst(mg, lg);
      moved := given + [s];
      LogsOneMore(a, sh, given, s, lg);
    }

    /** Hands the first shard of `mg` to `lg`. */
    method GiveFirst(mg: Gid, lg: Gid) returns (s: nat)
      requires mg in shards[..]
      modifies shards
      ensures s == FirstOwned(old(shards[..]), mg)
      ensures shards[..] == old(shards[..])[s := lg]
    {
      s := 0;
      while shards[s] != mg
        invariant 0 <= s < shards.Length && mg !in shards[..s] && mg in shards[s..]
        invariant shards[..] == old(shards[..])
        decreases shards.Length - s
      {
        assert shards[..s + 1] == shards[..s] + [shards[s]];
        assert shards[s..] == [shards[s]] + shards[s + 1..];
        s := s + 1;
      }
      assert shards[..s] == shards[..][..s];
      FirstUnique(shards[..], mg, s);
      shards[s] := lg;
    }

    /** Adds the new groups; `ok` is false where the original stops the program. */
    method Join(servers: Groups) returns (ok: bool)
      modifies this
      ensures ok <==> JoinAccepted(old(groups), servers)
      ensures ok ==> groups == old(groups) + servers && num == old(num) + 1
      ensures !ok ==> num == old(num)
    {
      var rest := servers.Keys;
      while rest != {}
        invariant num == old(num) && Joining(old(groups), servers, rest, groups)
        decreases |rest|
      {
        var gid := AnyOf(rest);
        if gid in groups { return false; }
        var clash := ClashesWith(servers[gid]);
        if clash { return false; }
        JoiningOneMore(old(groups), servers, rest, groups, gid);
        groups := groups[gid := servers[gid]];
        rest := rest - {gid};
      }
      if servers.Keys == {} { return false; }
      num := num + 1;
      ok := true;
      JoiningDone(old(groups), servers, groups);
    }

    /** Whether some group already has one of these servers. */
    method ClashesWith(servers: seq<string>) returns (b: bool)
      ensures b <==> exists g :: g in groups && Shares(groups[g], servers)
    {
      var rest := groups.Keys;
      while rest != {}
        invariant rest <= groups.Keys
        invariant forall g :: g in groups && g !in rest ==> !Shares(groups[g], servers)
        decreases |rest|
      {
        var g := AnyOf(rest);
        b := SharesServer(groups[g], servers);
        if b { return; }
        rest := rest - {g};
      }
      b := false;
    }

    /** Removes the groups; `ok` is false where the original stops the program. */
    method Leave(gids: seq<Gid>) returns (ok: bool)
      modifies this
      ensures ok <==> LeaveAccepted(old(groups), gids)
      ensures ok ==> groups == old(groups) - Elements(gids) && num == old(num) + 1
      ensures !ok ==> num == old(num)
    {
      for i := 0 to |gids|
        invariant groups == old(groups) - Elements(gids[..i]) && num == old(num)
        invariant Distinct(gids[..i])
        invariant forall j :: 0 <= j < i ==> gids[j] in old(groups)
      {
        assert gids[..i + 1] == gids[..i] + [gids[i]];
        if gids[i] !in groups {
          assert gids[i] in old(groups) ==> gids[i] in gids[..i];
          return false;
        }
        groups := groups - {gids[i]};
      }
      assert gids[..|gids|] == gids;
      if gids == [] { return false; }
      num := num + 1;
      ok := true;
    }

    method JoinBalance(servers: Groups) returns (ok: bool)
      requires Valid()
      modifies this, shards
      ensures ok <==> JoinAccepted(old(groups), servers)
      ensures ok ==> groups == old(groups) + servers && num == old(num) + 1
      ensures ok ==> shards[..] == Rebalanced(old(shards[..]), groups.Keys)
      ensures !ok ==> num == old(num) && shards[..] == old(shards[..])
    {
      ok := Join(servers);
      if ok { ghost var _ := Rebalance(); }
    }

    method LeaveBalance(gids: seq<Gid>) returns (ok: bool)
      requires Valid()
      modifies this, shards
      ensures ok <==> LeaveAccepted(old(groups), gids)
      ensures ok ==> groups == old(groups) - Elements(gids) && num == old(num) + 1
      ensures ok ==> shards[..] == Rebalanced(old(shards[..]), groups.Keys)
      ensures !ok ==> num == old(num) && shards[..] == old(shards[..])
    {
      ok := Leave(gids);
      if ok { ghost var _ := Rebalance(); }
    }

    method GidServers(sh: nat) returns (gid: Gid, servers: seq<string>, ok: bool)
      requires sh < shards.Length
      ensures gid == shards[sh] && (ok <==> gid in groups)
      ensures servers == if gid in groups then groups[gid] else []
    {
      gid := shards[sh];
      ok := gid in groups;
      servers := if ok then groups[gid] else [];
    }

    method IsMember(gid: Gid) returns (b: bool)
      ensures b <==> Count(shards[..], gid) > 0
    {
      for s := 0 to shards.Length
        invariant gid !in shards[..s]
      {
        if shards[s] == gid {
          assert gid in shards[..];
          return true;
        }
        assert shards[..s + 1] == shards[..s] + [shards[s]];
      }
      assert shards[..shards.Length] == shards[..];
      return false;
    }

    /** The test's own check of a configuration. */
    method CheckConfig(wanted: seq<Gid>) returns (passed: bool)
      requires Valid()
      ensures passed <==>
        && |groups| == |wanted|
        && (forall i :: 0 <= i < |wanted| ==> wanted[i] in groups)
        && (wanted != [] ==> AllOwned(shards[..], groups.Keys))
        && Balanced(shards[..], groups.Keys)
    {
      if |groups| != |wanted| { return false; }
      for i := 0 to |wanted|
        invariant forall j :: 0 <= j < i ==> wanted[j] in groups
      {
        if wanted[i] !in groups { return false; }
      }
      if |wanted| > 0 {
        for s := 0 to shards.Length
          invariant forall k :: 0 <= k < s ==> shards[k] in groups
        {
          if shards[s] !in groups {
            assert shards[..][s] !in groups;
            return false;
          }
        }
      }
      var least, most := Extremes();
      passed := most <= least + 1;
    }

    method Extremes() returns (least: int, most: int)
      requires Valid()
      ensures most <= least + 1 <==> Balanced(shards[..], groups.Keys)
    {
      var counts := Counts();
      least, most := SENTINEL, 0;
      ghost var sh := shards[..];
      var rest := groups.Keys;
      while rest != {}
        invariant rest <= groups.Keys
        invariant forall g :: g in groups && g !in rest ==> least <= Count(sh, g) <= most
        invariant most == 0 || exists g :: g in groups && most == Count(sh, g)
        invariant least == SENTINEL || exists g :: g in groups && least == Count(sh, g)
        invariant rest == groups.Keys ==> most == 0 && least == SENTINEL
        decreases |rest|
      {
        var g := AnyOf(rest);
        var c := if g in counts then counts[g] else 0;
        assert c == Count(sh, g);
        CountBound(sh, g);
        if c > most { most := c; }
        if c < least { least := c; }
        rest := rest - {g};
      }
    }
  }

  /** One pass over the sorted ids, keeping the first minimum and the first maximum. */
  method Scan(ghost sh: seq<Gid>, counts: map<Gid, int>, keys: seq<Gid>) returns (mg: Gid, mn: int, lg: Gid, ln: int)
    requires |sh| < SENTINEL && Ascending(keys)
    requires forall g :: (g in counts ==> counts[g] == Count(sh, g)) && (g !in counts ==> Count(sh, g) == 0)
    ensures keys == [] ==> mg == -1 && mn == -1 && lg == -1 && ln == SENTINEL
    ensures keys != [] ==> lg in keys && ln == Count(sh, lg) && mg in keys && mn == Count(sh, mg)
    ensures forall j :: 0 <= j < |keys| ==> ln < Count(sh, keys[j]) || (ln == Count(sh, keys[j]) && lg <= keys[j])
    ensures forall j :: 0 <= j < |keys| ==> mn > Count(sh, keys[j]) || (mn == Count(sh, keys[j]) && mg <= keys[j])
  {
    mg, mn, lg, ln := -1, -1, -1, SENTINEL;
    for i := 0 to |keys|
      invariant i == 0 ==> mg == -1 && mn == -1 && lg == -1 && ln == SENTINEL
      invariant i > 0 ==> lg in keys && ln == Count(sh, lg) && mg in keys && mn == Count(sh, mg)
      invariant i > 0 ==> lg <= keys[i - 1] && mg <= keys[i - 1]
      invariant forall j :: 0 <= j < i ==> ln < Count(sh, keys[j]) || (ln == Count(sh, keys[j]) && lg <= keys[j])
      invariant forall j :: 0 <= j < i ==> mn > Count(sh, keys[j]) || (mn == Count(sh, keys[j]) && mg <= keys[j])
    {
      var g := keys[i];
      var c := if g in counts then counts[g] else 0;
      CountBound(sh, g);
      if c < ln { ln, lg := c, g; }
      if c > mn { mn, mg := c, g; }
    }
  }

  lemma AnalyzeIsSpec(sh: seq<Gid>, keys: seq<Gid>, members: set<Gid>, mg: Gid, mn: int, lg: Gid, ln: int)
    requires members != {} && Elements(keys) == members
    requires lg in keys && ln == Count(sh, lg) && mg in keys && mn == Count(sh, mg)
    requires forall j :: 0 <= j < |keys| ==> ln < Count(sh, keys[j]) || (ln == Count(sh, keys[j]) && lg <= keys[j])
    requires forall j :: 0 <= j < |keys| ==> mn > Count(sh, keys[j]) || (mn == Count(sh, keys[j]) && mg <= keys[j])
    ensures mg == Most(sh, members) && lg == Least(sh, members)
  {
    assert forall g :: g in members ==> g in keys;
    LeastUnique(sh, members, lg);
    MostUnique(sh, members, mg);
  }

  lemma FirstUnique(sh: seq<Gid>, g: Gid, s: nat)
    requires s < |sh| && sh[s] == g && g !in sh[..s]
    ensures s == FirstOwned(sh, g)
  {
    if s > 0 {
      assert sh[..s] == [sh[0]] + sh[1..][..s - 1];
      FirstUnique(sh[1..], g, s - 1);
    }
  }

  /** The state of `Join` when the groups in `rest` are still to be added to those of `before`. */
  ghost predicate Joining(before: Groups, servers: Groups, rest: set<Gid>, groups: Groups)
  {
    && rest <= servers.Keys
    && before.Keys !! servers.Keys - rest
    && groups.Keys == before.Keys + (servers.Keys - rest)
    && (forall g :: g in before ==> groups[g] == before[g])
    && (forall g :: g in servers.Keys - rest ==> groups[g] == servers[g])
    && (forall g, h :: g in groups && h in servers.Keys - rest && g != h ==> !Shares(groups[g], servers[h]))
  }

  lemma JoiningOneMore(before: Groups, servers: Groups, rest: set<Gid>, groups: Groups, gid: Gid)
    requires Joining(before, servers, rest, groups) && gid in rest && gid !in groups
    requires forall g :: g in groups ==> !Shares(groups[g], servers[gid])
    ensures Joining(before, servers, rest - {gid}, groups[gid := servers[gid]])
  {
    SharesSymmetric(groups, servers[gid]);
    var groups', rest' := groups[gid := servers[gid]], rest - {gid};
    assert servers.Keys - rest' == (servers.Keys - rest) + {gid};
    forall g, h | g in groups' && h in servers.Keys - rest' && g != h
      ensures !Shares(groups'[g], servers[h])
    {
      if g == gid { assert h in groups && groups[h] == servers[h]; }
    }
  }

  lemma JoiningDone(before: Groups, servers: Groups, groups: Groups)
    requires servers.Keys != {} && Joining(before, servers, {}, groups)
    ensures JoinAccepted(before, servers) && groups == before + servers
  {
    assert servers.Keys - {} == servers.Keys;
    assert forall g :: g in servers ==> g in groups && groups[g] == servers[g];
    assert groups.Keys == (before + servers).Keys;
    assert forall g :: g in groups ==> groups[g] == (before + servers)[g];
  }

  lemma SharesSymmetric(groups: Groups, ys: seq<string>)
    ensures forall g :: g in groups ==> (Shares(groups[g], ys) <==> Shares(ys, groups[g]))
  {
  }
}
