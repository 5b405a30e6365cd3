/** Counting the shards that change hands: `Rebalance` moves as few as any balanced assignment would,
    and `JoinBalance` and `LeaveBalance` move only the shards they must. */
module ShardMoves {
  import opened Sums
  import opened ShardBalance
  import opened ShardOptimal

  /** How many shards have a different owner in `b` than in `a`. */
  ghost function Changed(a: seq<Gid>, b: seq<Gid>): nat
    requires |a| == |b|
  {
    if a == [] then 0 else
    var k := |a| - 1;
    Changed(a[..k], b[..k]) + (if a[k] != b[k] then 1 else 0)
  }

  /** How many shards group `g` owns in `a` but not in `b`. */
  ghost function Left(a: seq<Gid>, b: seq<Gid>, g: Gid): nat
    requires |a| == |b|
  {
    if a == [] then 0 else
    var k := |a| - 1;
    Left(a[..k], b[..k], g) + (if a[k] == g && b[k] != g then 1 else 0)
  }

  /** How many shards change hands whose owner in `a` is not a member. */
  ghost function Strays(a: seq<Gid>, b: seq<Gid>, members: set<Gid>): nat
    requires |a| == |b|
  {
    if a == [] then 0 else
    var k := |a| - 1;
    Strays(a[..k], b[..k], members) + (if a[k] !in members && a[k] != b[k] then 1 else 0)
  }

  lemma {:induction false} LeftBound(a: seq<Gid>, b: seq<Gid>, g: Gid)
    requires |a| == |b|
    ensures Left(a, b, g) >= Count(a, g) - Count(b, g)
  {
    if a != [] {
      var k := |a| - 1;
      assert a == a[..k] + [a[k]] && b == b[..k] + [b[k]];
      LeftBound(a[..k], b[..k], g);
    }
  }

  lemma {:induction false} LeftNone(a: seq<Gid>, b: seq<Gid>, g: Gid)
    requires |a| == |b| && forall s :: 0 <= s < |a| && a[s] == g ==> b[s] == g
    ensures Left(a, b, g) == 0
  {
    if a != [] { LeftNone(a[..|a| - 1], b[..|a| - 1], g); }
  }

  lemma {:induction false} LeftExactly(a: seq<Gid>, b: seq<Gid>, g: Gid)
    requires |a| == |b| && forall s :: 0 <= s < |a| && b[s] == g ==> a[s] == g
    ensures Left(a, b, g) == Count(a, g) - Count(b, g)
  {
    if a != [] {
      var k := |a| - 1;
      assert a == a[..k] + [a[k]] && b == b[..k] + [b[k]];
      LeftExactly(a[..k], b[..k], g);
    }
  }

  /** Every shard that changes hands leaves exactly one owner. */
  lemma {:induction false} ChangedByOwner(a: seq<Gid>, b: seq<Gid>, members: set<Gid>)
    requires |a| == |b|
    ensures Changed(a, b) == Strays(a, b, members) + Sum(members, g => if |a| == |b| then Left(a, b, g) else 0)
  {
    var f := (g: Gid) => if |a| == |b| then Left(a, b, g) else 0;
    if a == [] {
      SumConstant(members, 0);
      SumSame(members, f, _ => 0);
    } else {
      var k := |a| - 1;
      var a', b' := a[..k], b[..k];
      var f' := (g: Gid) => if |a'| == |b'| then Left(a', b', g) else 0;
      ChangedByOwner(a', b', members);
      if a[k] in members && a[k] != b[k] {
        SumChangeOne(members, f', f, a[k], 1);
      } else {
        SumSame(members, f', f);
      }
    }
  }

  lemma {:induction false} ChangedSymmetric(a: seq<Gid>, b: seq<Gid>)
    requires |a| == |b|
    ensures Changed(a, b) == Changed(b, a)
  {
    if a != [] { ChangedSymmetric(a[..|a| - 1], b[..|a| - 1]); }
  }

  lemma {:induction false} NoStrays(a: seq<Gid>, b: seq<Gid>, members: set<Gid>)
    requires |a| == |b| && AllOwned(a, members)
    ensures Strays(a, b, members) == 0
  {
    if a != [] { NoStrays(a[..|a| - 1], b[..|a| - 1], members); }
  }

  lemma {:induction false} SameStrays(a: seq<Gid>, b: seq<Gid>, c: seq<Gid>, members: set<Gid>)
    requires |a| == |b| == |c| && AllOwned(b, members) && AllOwned(c, members)
    ensures Strays(a, b, members) == Strays(a, c, members)
  {
    if a != [] { SameStrays(a[..|a| - 1], b[..|a| - 1], c[..|a| - 1], members); }
  }

  /** If no group gives away more in `b` than in `c`, then `b` changes no more shards than `c`. */
  lemma FewerLeave(a: seq<Gid>, b: seq<Gid>, c: seq<Gid>, members: set<Gid>)
    requires |a| == |b| == |c|
    requires forall g :: g in members ==> Left(a, b, g) <= Left(a, c, g)
    requires Strays(a, b, members) <= Strays(a, c, members)
    ensures Changed(a, b) <= Changed(a, c)
  {
    ChangedByOwner(a, b, members);
    ChangedByOwner(a, c, members);
    SumMonotone(members, g => if |a| == |b| then Left(a, b, g) else 0, g => if |a| == |c| then Left(a, c, g) else 0);
  }

  /** A group gives away exactly its loss, or nothing. */
  lemma OneWayLeft(a: seq<Gid>, b: seq<Gid>, members: set<Gid>, g: Gid)
    requires |a| == |b| && OneWay(a, b, members) && g in members
    ensures Left(a, b, g) == if Lost(a, b, g) then Count(a, g) - Count(b, g) else 0
    ensures Left(b, a, g) == if Gained(a, b, g) then Count(b, g) - Count(a, g) else 0
  {
    if Lost(a, b, g) { LeftExactly(a, b, g); } else { LeftNone(a, b, g); }
    if Gained(a, b, g) { LeftExactly(b, a, g); } else { LeftNone(b, a, g); }
  }

  /** Two balanced assignments of the same shards never differ by more than one at any group, and
      agree on the two values a count can take. */
  lemma TwoValues(b: seq<Gid>, c: seq<Gid>, members: set<Gid>) returns (low: int, high: int)
    requires |b| == |c| && members != {}
    requires AllOwned(b, members) && Balanced(b, members)
    requires AllOwned(c, members) && Balanced(c, members)
    ensures low <= high <= low + 1
    ensures forall g :: g in members ==> low <= Count(b, g) <= high && low <= Count(c, g) <= high
  {
    BalancedCounts(b, members);
    BalancedCounts(c, members);
    var n := |members|;
    low, high := |b| / n, (|b| + n - 1) / n;
    if n * low == |b| { FloorIs(|b|, n, low); } else { CeilIs(|b|, n, low); }
  }

  /** Minimal movement: whatever the starting assignment, no balanced assignment to the same groups
      changes fewer owners than the one `Rebalance` computes. */
  lemma MinimalMovement(a: seq<Gid>, c: seq<Gid>, members: set<Gid>)
    requires |a| == |c| && members != {}
    requires AllOwned(c, members) && Balanced(c, members)
    ensures Changed(a, Rebalanced(a, members)) <= Changed(a, c)
  {
    var b := Rebalanced(a, members);
    RebalancedIsGreedy(a, members);
    var low, high := TwoValues(b, c, members);
    if exists h :: h in members && Gained(a, b, h) && Count(b, h) == high {
      // every group that lost is still at the top
      forall g | g in members ensures Left(a, b, g) <= Left(a, c, g) {
        OneWayLeft(a, b, members, g);
        LeftBound(a, c, g);
      }
      SameStrays(a, b, c, members);
      FewerLeave(a, b, c, members);
    } else {
      // every group that gained is still at the bottom
      forall g | g in members ensures Left(b, a, g) <= Left(c, a, g) {
        OneWayLeft(a, b, members, g);
        LeftBound(c, a, g);
      }
      NoStrays(b, a, members);
      NoStrays(c, a, members);
      FewerTaken(a, b, c, members);
    }
  }

  lemma FewerTaken(a: seq<Gid>, b: seq<Gid>, c: seq<Gid>, members: set<Gid>)
    requires |a| == |b| == |c|
    requires forall g :: g in members ==> Left(b, a, g) <= Left(c, a, g)
    requires Strays(b, a, members) <= Strays(c, a, members)
    ensures Changed(a, b) <= Changed(a, c)
  {
    ChangedByOwner(b, a, members);
    ChangedByOwner(c, a, members);
    SumMonotone(members, g => if |b| == |a| then Left(b, a, g) else 0, g => if |c| == |a| then Left(c, a, g) else 0);
    ChangedSymmetric(a, b);
    ChangedSymmetric(a, c);
  }

  // ---- Directed movement ----

  /** `JoinBalance` from a balanced configuration: a shard that moves goes to a group that joined. */
  lemma JoinMovesIntoNew(a: seq<Gid>, before: set<Gid>, joined: set<Gid>)
    requires joined != {} && (before == {} || (AllOwned(a, before) && Balanced(a, before)))
    ensures var r := Rebalanced(a, before + joined);
            forall s :: 0 <= s < |a| && r[s] != a[s] ==> r[s] in joined
  {
    var members := before + joined;
    var r := Rebalanced(a, members);
    RebalancedIsGreedy(a, members);
    forall s | 0 <= s < |a| && r[s] != a[s] ensures r[s] in joined {
      var h, g := r[s], a[s];
      // g gave a shard to h, and ended no lower than h; if h were an old group, g would have been two above h
      assert h in members && Gained(a, r, h);
      if before != {} {
        assert g in members && Lost(a, r, g);
        assert Count(r, h) <= Count(r, g);
      }
    }
  }

  lemma AssignOneBalanced(cur: seq<Gid>, members: set<Gid>, s: nat)
    requires members != {} && s < |cur| && Balanced(cur, members) && cur[s] !in members
    ensures Balanced(cur[s := Least(cur, members)], members)
  {
    var l := Least(cur, members);
    var next := cur[s := l];
    forall g, h | g in members && h in members ensures Count(next, g) <= Count(next, h) + 1 {
      assert Count(next, g) == Count(cur, g) + (if g == l then 1 else 0);
      assert Count(next, h) == Count(cur, h) + (if h == l then 1 else 0);
    }
  }

  /** Assigning the shards of departed groups to the least loaded members keeps the rest balanced. */
  lemma {:induction false} AssignKeepsBalanced(cur: seq<Gid>, members: set<Gid>, s: nat)
    requires members != {} && s <= |cur| && Balanced(cur, members)
    ensures var r := AssignFrom(cur, members, s);
            && Balanced(r, members)
            && forall i :: 0 <= i < |cur| && r[i] != cur[i] ==> cur[i] !in members
    decreases |cur| - s
  {
    if s < |cur| {
      if cur[s] in members {
        AssignKeepsBalanced(cur, members, s + 1);
      } else {
        AssignOneBalanced(cur, members, s);
        AssignKeepsBalanced(cur[s := Least(cur, members)], members, s + 1);
      }
    }
  }

  /** `LeaveBalance` from a balanced configuration: only shards of the groups that left move. */
  lemma LeaveMovesOnlyOrphans(a: seq<Gid>, before: set<Gid>, left: set<Gid>)
    requires AllOwned(a, before) && Balanced(a, before) && before - left != {}
    ensures var r := Rebalanced(a, before - left);
            forall s :: 0 <= s < |a| ==> (r[s] != a[s] <==> a[s] in left)
  {
    var members := before - left;
    AssignKeepsBalanced(a, members, 0);
    var r := AssignFrom(a, members, 0);
    assert !Uneven(r, members);
    assert Rebalanced(a, members) == r;
    RebalancedIsGreedy(a, members);
  }
}
