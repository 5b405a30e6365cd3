/** The assignment computed by `ShardConfig.Rebalance`, as a function of the old assignment
    and the set of member groups, and what the greedy algorithm achieves. */
module ShardBalance {
  import opened Sums

  type Gid = int

  /** How many shards group `g` owns. */
  function Count(sh: seq<Gid>, g: Gid): nat
  {
    multiset(sh)[g]
  }

  /** `g` is the group that `analyze` reports as least loaded: the smallest id among the minima. */
  ghost predicate IsLeast(sh: seq<Gid>, members: set<Gid>, g: Gid)
  {
    && g in members
    && forall h :: h in members ==>
         Count(sh, g) < Count(sh, h) || (Count(sh, g) == Count(sh, h) && g <= h)
  }

  /** `g` is the group that `analyze` reports as most loaded: the smallest id among the maxima. */
  ghost predicate IsMost(sh: seq<Gid>, members: set<Gid>, g: Gid)
  {
    && g in members
    && forall h :: h in members ==>
         Count(sh, g) > Count(sh, h) || (Count(sh, g) == Count(sh, h) && g <= h)
  }

  ghost function Least(sh: seq<Gid>, members: set<Gid>): (g: Gid)
    requires members != {}
    ensures IsLeast(sh, members, g)
    decreases |members|
  {
    var g := Pick(members);
    if members == {g} then g else
    var h := Least(sh, members - {g});
    if Count(sh, g) < Count(sh, h) || (Count(sh, g) == Count(sh, h) && g <= h) then g else h
  }

  ghost function Most(sh: seq<Gid>, members: set<Gid>): (g: Gid)
    requires members != {}
    ensures IsMost(sh, members, g)
    decreases |members|
  {
    var g := Pick(members);
    if members == {g} then g else
    var h := Most(sh, members - {g});
    if Count(sh, g) > Count(sh, h) || (Count(sh, g) == Count(sh, h) && g <= h) then g else h
  }

  /** The first shard owned by `g`. */
  ghost function FirstOwned(sh: seq<Gid>, g: Gid): (i: nat)
    requires g in sh
    ensures i < |sh| && sh[i] == g && g !in sh[..i]
  {
    if sh[0] == g then 0 else
    var i := FirstOwned(sh[1..], g);
    assert sh[..i + 1] == [sh[0]] + sh[1..][..i];
    i + 1
  }

  /** Give every shard from `s` on whose owner is not a member to the least loaded member. */
  ghost function AssignFrom(sh: seq<Gid>, members: set<Gid>, s: nat): (r: seq<Gid>)
    requires members != {} && s <= |sh|
    ensures |r| == |sh|
    decreases |sh| - s
  {
    if s == |sh| then sh
    else if sh[s] in members then AssignFrom(sh, members, s + 1)
    else AssignFrom(sh[s := Least(sh, members)], members, s + 1)
  }

  ghost predicate Uneven(sh: seq<Gid>, members: set<Gid>)
    requires members != {}
  {
    Count(sh, Most(sh, members)) >= Count(sh, Least(sh, members)) + 2
  }

  /** Move one shard from the most to the least loaded group. */
  ghost function MoveOne(sh: seq<Gid>, members: set<Gid>): (r: seq<Gid>)
    requires members != {} && Uneven(sh, members)
    ensures |r| == |sh|
  {
    sh[FirstOwned(sh, Most(sh, members)) := Least(sh, members)]
  }

  ghost function Squares(sh: seq<Gid>, members: set<Gid>): int
  {
    Sum(members, g => Count(sh, g) * Count(sh, g))
  }

  lemma {:induction false} SquaresNonNegative(sh: seq<Gid>, members: set<Gid>)
    ensures Squares(sh, members) >= 0
  {
    SumConstant(members, 0);
    SumMonotone(members, _ => 0, g => Count(sh, g) * Count(sh, g));
  }

  /** The counts after one move. */
  lemma MoveOneCounts(sh: seq<Gid>, members: set<Gid>)
    requires members != {} && Uneven(sh, members)
    ensures var m, l, r := Most(sh, members), Least(sh, members), MoveOne(sh, members);
            && m != l
            && Count(r, m) == Count(sh, m) - 1
            && Count(r, l) == Count(sh, l) + 1
            && forall g :: g != m && g != l ==> Count(r, g) == Count(sh, g)
  {
  }

  /** The sum of the squared counts strictly falls with every move: this is why the loop ends. */
  lemma {:induction false} MoveOneSquares(sh: seq<Gid>, members: set<Gid>)
    requires members != {} && Uneven(sh, members)
    ensures 0 <= Squares(MoveOne(sh, members), members) < Squares(sh, members)
  {
    MoveOneCounts(sh, members);
    var m, l, r := Most(sh, members), Least(sh, members), MoveOne(sh, members);
    var f, f' := (g: Gid) => Count(sh, g) * Count(sh, g), (g: Gid) => Count(r, g) * Count(r, g);
    SquaresNonNegative(r, members);
    SumRemove(members, f, m);
    SumRemove(members - {m}, f, l);
    SumRemove(members, f', m);
    SumRemove(members - {m}, f', l);
    SumSame(members - {m} - {l}, f, f');
    SquaresFall(Count(sh, m), Count(sh, l));
  }

  lemma SquaresFall(m: int, l: int)
    requires m >= l + 2
    ensures (m - 1) * (m - 1) + (l + 1) * (l + 1) < m * m + l * l
  {
  }

  /** Move shards one at a time until the largest and smallest counts differ by at most one. */
  ghost function Level(sh: seq<Gid>, members: set<Gid>): (r: seq<Gid>)
    requires members != {}
    ensures |r| == |sh|
    decreases Squares(sh, members)
  {
    if !Uneven(sh, members) then sh else
    MoveOneSquares(sh, members);
    Level(MoveOne(sh, members), members)
  }

  /** What `Rebalance` leaves in `Shards`. */
  ghost function Rebalanced(sh: seq<Gid>, members: set<Gid>): (r: seq<Gid>)
    ensures |r| == |sh|
  {
    if members == {} then seq(|sh|, _ => 0)
    else Level(AssignFrom(sh, members, 0), members)
  }
}
