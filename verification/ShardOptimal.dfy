/** What `Rebalance` achieves: balance, the fewest possible moves, and moves only where needed. */
module ShardOptimal {
  import opened Sums
  import opened ShardBalance

  ghost predicate AllOwned(sh: seq<Gid>, members: set<Gid>)
  {
    forall s :: 0 <= s < |sh| ==> sh[s] in members
  }

  ghost predicate Lost(a: seq<Gid>, b: seq<Gid>, g: Gid) { Count(b, g) < Count(a, g) }

  ghost predicate Gained(a: seq<Gid>, b: seq<Gid>, g: Gid) { Count(b, g) > Count(a, g) }

  /** No two member groups differ by more than one shard. */
  ghost predicate Balanced(sh: seq<Gid>, members: set<Gid>)
  {
    forall g, h :: g in members && h in members ==> Count(sh, g) <= Count(sh, h) + 1
  }

  /** Every shard that changed hands went to a group that gained, and left a group that lost. */
  ghost predicate OneWay(a: seq<Gid>, cur: seq<Gid>, members: set<Gid>)
    requires |a| == |cur|
  {
    forall s :: 0 <= s < |a| && cur[s] != a[s] ==>
      cur[s] in members && Gained(a, cur, cur[s]) && (a[s] in members ==> Lost(a, cur, a[s]))
  }

  /** Groups that gained are still near the bottom, groups that lost still near the top. */
  ghost predicate Frugal(a: seq<Gid>, cur: seq<Gid>, members: set<Gid>)
  {
    && (forall g, h :: g in members && h in members && Gained(a, cur, h) ==> Count(cur, h) <= Count(cur, g) + 1)
    && (forall g, h :: g in members && h in members && Lost(a, cur, g) ==> Count(cur, h) <= Count(cur, g) + 1)
    && (forall g, h :: g in members && h in members && Lost(a, cur, g) && Gained(a, cur, h) ==>
          Count(cur, h) <= Count(cur, g))
  }

  /** What holds of the assignment `cur` at every point of a rebalancing that started from `a`. */
  ghost predicate Greedy(a: seq<Gid>, cur: seq<Gid>, members: set<Gid>)
  {
    |a| == |cur| && OneWay(a, cur, members) && Frugal(a, cur, members)
  }

  // ---- The algorithm keeps the invariant ----

  /** Halfway through the first loop: shards from `s` on are untouched, those before it are owned. */
  ghost predicate Assigning(a: seq<Gid>, cur: seq<Gid>, members: set<Gid>, s: nat)
  {
    && Greedy(a, cur, members)
    && s <= |cur|
    && (forall i :: s <= i < |cur| ==> cur[i] == a[i])
    && (forall i :: 0 <= i < s ==> cur[i] in members)
    && (forall g :: g in members ==> !Lost(a, cur, g))
  }

  lemma {:induction false} AssignKeepsGreedy(a: seq<Gid>, cur: seq<Gid>, members: set<Gid>, s: nat)
    requires members != {} && Assigning(a, cur, members, s)
    ensures Assigning(a, AssignFrom(cur, members, s), members, |cur|)
    decreases |cur| - s
  {
    if s == |cur| {
      assert AssignFrom(cur, members, s) == cur;
    } else {
      var next := if cur[s] in members then cur else cur[s := Least(cur, members)];
      assert Assigning(a, next, members, s + 1) by {
        if cur[s] !in members { AssignOne(a, cur, members, s); }
      }
      AssignKeepsGreedy(a, next, members, s + 1);
    }
  }

  lemma AssignOne(a: seq<Gid>, cur: seq<Gid>, members: set<Gid>, s: nat)
    requires members != {} && s < |cur| && cur[s] !in members
    requires Assigning(a, cur, members, s)
    ensures Assigning(a, cur[s := Least(cur, members)], members, s + 1)
  {
    var l := Least(cur, members);
    var r := cur[s := l];
    assert forall g :: g != l && g != cur[s] ==> Count(r, g) == Count(cur, g);
    AssignKeepsFrugal(a, cur, r, members, l);
    AssignKeepsOneWay(a, cur, r, members, s, l);
  }

  lemma AssignKeepsFrugal(a: seq<Gid>, cur: seq<Gid>, r: seq<Gid>, members: set<Gid>, l: Gid)
    requires Frugal(a, cur, members) && l in members
    requires forall g :: g in members ==> Count(cur, l) <= Count(cur, g) && !Lost(a, cur, g)
    requires Count(r, l) == Count(cur, l) + 1
    requires forall g :: g in members && g != l ==> Count(r, g) == Count(cur, g)
    ensures Frugal(a, r, members)
    ensures forall g :: g in members ==> !Lost(a, r, g)
  {
    assert forall g :: g in members && Gained(a, r, g) ==> g == l || Gained(a, cur, g);
  }

  lemma AssignKeepsOneWay(a: seq<Gid>, cur: seq<Gid>, r: seq<Gid>, members: set<Gid>, s: nat, l: Gid)
    requires |a| == |cur| == |r| && OneWay(a, cur, members) && l in members
    requires s < |cur| && a[s] !in members && r[s] == l
    requires forall i :: 0 <= i < |cur| && i != s ==> r[i] == cur[i]
    requires forall g :: g in members ==> !Lost(a, cur, g) && Count(r, g) >= Count(cur, g)
    requires Count(r, l) > Count(cur, l)
    ensures OneWay(a, r, members)
  {
    assert Gained(a, r, l);
  }

  /** The group that gives a shard away has gained none before, and the shard is still where it
      started: no shard moves twice. */
  lemma MoveIsFirst(a: seq<Gid>, cur: seq<Gid>, members: set<Gid>)
    requires members != {} && Greedy(a, cur, members) && Uneven(cur, members)
    ensures var s := FirstOwned(cur, Most(cur, members)); cur[s] == a[s]
    ensures !Gained(a, cur, Most(cur, members)) && !Lost(a, cur, Least(cur, members))
  {
    var m, l := Most(cur, members), Least(cur, members);
    assert m in members && l in members;
  }

  lemma MoveKeepsGreedy(a: seq<Gid>, cur: seq<Gid>, members: set<Gid>)
    requires members != {} && Greedy(a, cur, members) && Uneven(cur, members) && AllOwned(cur, members)
    ensures Greedy(a, MoveOne(cur, members), members)
    ensures AllOwned(MoveOne(cur, members), members)
  {
    MoveIsFirst(a, cur, members);
    MoveOneCounts(cur, members);
    var m, l, r := Most(cur, members), Least(cur, members), MoveOne(cur, members);
    MoveKeepsOneWay(a, cur, r, members, FirstOwned(cur, m), l);
    MoveKeepsFrugal(a, cur, r, members, m, l);
  }

  lemma MoveKeepsOneWay(a: seq<Gid>, cur: seq<Gid>, r: seq<Gid>, members: set<Gid>, s: nat, l: Gid)
    requires |a| == |cur| == |r| && OneWay(a, cur, members) && l in members
    requires s < |cur| && cur[s] == a[s] && r[s] == l
    requires forall i :: 0 <= i < |cur| && i != s ==> r[i] == cur[i]
    requires !Gained(a, cur, cur[s]) && !Lost(a, cur, l)
    requires Count(r, cur[s]) == Count(cur, cur[s]) - 1 && Count(r, l) == Count(cur, l) + 1
    requires forall g :: g != cur[s] && g != l ==> Count(r, g) == Count(cur, g)
    ensures OneWay(a, r, members)
  {
    assert Lost(a, r, cur[s]) && Gained(a, r, l);
    assert forall g :: Gained(a, cur, g) ==> Gained(a, r, g);
    assert forall g :: Lost(a, cur, g) ==> Lost(a, r, g);
  }

  /** The same argument on the counts alone: `m` is at the top, `l` at the bottom, two or more apart. */
  lemma MoveKeepsFrugal(a: seq<Gid>, cur: seq<Gid>, r: seq<Gid>, members: set<Gid>, m: Gid, l: Gid)
    requires Frugal(a, cur, members) && m in members && l in members
    requires forall g :: g in members ==> Count(cur, l) <= Count(cur, g) <= Count(cur, m)
    requires Count(cur, m) >= Count(cur, l) + 2
    requires Count(r, m) == Count(cur, m) - 1 && Count(r, l) == Count(cur, l) + 1
    requires forall g :: g != m && g != l ==> Count(r, g) == Count(cur, g)
    ensures Frugal(a, r, members)
  {
    assert !Gained(a, cur, m) && !Lost(a, cur, l);
    assert forall g :: Gained(a, r, g) ==> g == l || Gained(a, cur, g);
    assert forall g :: Lost(a, r, g) ==> g == m || Lost(a, cur, g);
  }

  lemma {:induction false} LevelKeepsGreedy(a: seq<Gid>, cur: seq<Gid>, members: set<Gid>)
    requires members != {} && Greedy(a, cur, members) && AllOwned(cur, members)
    ensures var r := Level(cur, members);
            Greedy(a, r, members) && AllOwned(r, members) && Balanced(r, members)
    decreases Squares(cur, members)
  {
    if Uneven(cur, members) {
      MoveKeepsGreedy(a, cur, members);
      MoveOneSquares(cur, members);
      LevelKeepsGreedy(a, MoveOne(cur, members), members);
    } else {
      var m, l := Most(cur, members), Least(cur, members);
      assert forall g :: g in members ==> Count(cur, l) <= Count(cur, g) <= Count(cur, m);
    }
  }

  lemma RebalancedIsGreedy(a: seq<Gid>, members: set<Gid>)
    requires members != {}
    ensures var r := Rebalanced(a, members);
            Greedy(a, r, members) && AllOwned(r, members) && Balanced(r, members)
  {
    AssignKeepsGreedy(a, a, members, 0);
    LevelKeepsGreedy(a, AssignFrom(a, members, 0), members);
  }

  // ---- Balance: every count is the floor or the ceiling of n / G ----

  /** The counts of the members add up to the number of shards they own. */
  lemma {:induction false} CountsAddUp(sh: seq<Gid>, members: set<Gid>)
    requires AllOwned(sh, members)
    ensures Sum(members, g => Count(sh, g)) == |sh|
  {
    if sh == [] {
      SumConstant(members, 0);
      SumSame(members, g => Count(sh, g), _ => 0);
    } else {
      var k := |sh| - 1;
      var rest := sh[..k];
      assert sh == rest + [sh[k]];
      assert AllOwned(rest, members);
      CountsAddUp(rest, members);
      SumChangeOne(members, g => Count(rest, g), g => Count(sh, g), sh[k], 1);
    }
  }

  lemma {:induction false} BalancedCounts(sh: seq<Gid>, members: set<Gid>)
    requires members != {} && AllOwned(sh, members) && Balanced(sh, members)
    ensures forall g :: g in members ==>
      |sh| / |members| <= Count(sh, g) <= (|sh| + |members| - 1) / |members|
  {
    var l := Least(sh, members);
    var low, n := Count(sh, l), |members|;
    CountsAddUp(sh, members);
    TotalAtLeast(sh, members, low);
    TotalBelow(sh, members, l);
    FloorIs(|sh|, n, low);
    if |sh| == n * low {
      forall g | g in members ensures Count(sh, g) == low {
        if Count(sh, g) > low { TotalAbove(sh, members, low, g); }
      }
    } else {
      CeilIs(|sh|, n, low);
    }
  }

  lemma TotalAtLeast(sh: seq<Gid>, members: set<Gid>, low: int)
    requires forall g :: g in members ==> Count(sh, g) >= low
    ensures Sum(members, g => Count(sh, g)) >= |members| * low
  {
    SumConstant(members, low);
    SumMonotone(members, _ => low, g => Count(sh, g));
  }

  lemma TotalBelow(sh: seq<Gid>, members: set<Gid>, l: Gid)
    requires l in members && forall g :: g in members ==> Count(sh, g) <= Count(sh, l) + 1
    ensures Sum(members, g => Count(sh, g)) < |members| * (Count(sh, l) + 1)
  {
    var top := Count(sh, l) + 1;
    var f := (g: Gid) => if g == l then top - 1 else top;
    SumConstant(members, top);
    SumChangeOne(members, _ => top, f, l, -1);
    SumMonotone(members, g => Count(sh, g), f);
  }

  lemma TotalAbove(sh: seq<Gid>, members: set<Gid>, low: int, g: Gid)
    requires g in members && Count(sh, g) > low
    requires forall h :: h in members ==> Count(sh, h) >= low
    ensures Sum(members, h => Count(sh, h)) > |members| * low
  {
    var f := (h: Gid) => if h == g then low + 1 else low;
    SumConstant(members, low);
    SumChangeOne(members, _ => low, f, g, 1);
    SumMonotone(members, f, h => Count(sh, h));
  }

  lemma FloorIs(t: int, n: int, low: int)
    requires n > 0 && n * low <= t < n * (low + 1)
    ensures t / n == low
    ensures t == n * low ==> (t + n - 1) / n == low
  {
    DivUnique(t, n, low);
    if t == n * low { DivUnique(t + n - 1, n, low); }
  }

  lemma CeilIs(t: int, n: int, low: int)
    requires n > 0 && n * low < t < n * (low + 1)
    ensures (t + n - 1) / n == low + 1
  {
    DivUnique(t + n - 1, n, low + 1);
  }

  lemma DivUnique(t: int, n: int, q: int)
    requires n > 0 && n * q <= t < n * (q + 1)
    ensures t / n == q
  {
    var d := t / n;
    assert n * d <= t < n * (d + 1);
    MulMonotone(n, d + 1, q);
    MulMonotone(n, q + 1, d);
  }

  lemma MulMonotone(n: int, x: int, y: int)
    requires n > 0
    ensures x <= y ==> n * x <= n * y
  {
  }
}
