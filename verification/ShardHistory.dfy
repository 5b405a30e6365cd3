/** Sequences of accepted `JoinBalance` and `LeaveBalance` calls from the empty configuration. */
module ShardHistory {
  import opened Sums
  import opened ShardBalance
  import opened ShardOptimal
  import opened ShardConfigs

  datatype Config = Config(num: int, shards: seq<Gid>, groups: Groups)

  datatype Op = Join(servers: Groups) | Leave(gids: seq<Gid>)

  ghost function Empty(n: nat): Config
  {
    Config(0, seq(n, _ => 0), map[])
  }

  /** The effect of one accepted call, as `ShardConfig.JoinBalance` and `LeaveBalance` ensure it. */
  ghost predicate Accepted(c: Config, op: Op)
  {
    match op
    case Join(servers) => JoinAccepted(c.groups, servers)
    case Leave(gids) => LeaveAccepted(c.groups, gids)
  }

  ghost function After(c: Config, op: Op): Config
  {
    var groups := match op
      case Join(servers) => c.groups + servers
      case Leave(gids) => c.groups - Elements(gids);
    Config(c.num + 1, Rebalanced(c.shards, groups.Keys), groups)
  }

  /** `cs` is the sequence of configurations that the accepted calls `ops` produce. */
  ghost predicate History(n: nat, ops: seq<Op>, cs: seq<Config>)
  {
    && |cs| == |ops| + 1
    && cs[0] == Empty(n)
    && forall i :: 0 <= i < |ops| ==> Accepted(cs[i], ops[i]) && cs[i + 1] == After(cs[i], ops[i])
  }

  /** What every configuration of a history satisfies. */
  ghost predicate Sound(c: Config)
  {
    && ServersDisjoint(c.groups)
    && (c.groups.Keys != {} ==> AllOwned(c.shards, c.groups.Keys) && Balanced(c.shards, c.groups.Keys))
    && (c.groups.Keys == {} ==> forall s :: 0 <= s < |c.shards| ==> c.shards[s] == 0)
  }

  /** No server ends up in two groups, every shard has an owner while there is a group, the
      assignment is balanced, and `Num` counts the calls. */
  lemma {:induction false} HistoryIsSound(n: nat, ops: seq<Op>, cs: seq<Config>)
    requires History(n, ops, cs)
    ensures var c := cs[|ops|]; c.num == |ops| && |c.shards| == n && Sound(c)
  {
    if ops != [] {
      var k := |ops| - 1;
      HistoryIsSound(n, ops[..k], cs[..k + 1]);
      var c := cs[k];
      var groups := cs[k + 1].groups;
      assert cs[k + 1] == After(c, ops[k]);
      StepDisjoint(c, ops[k]);
      if groups.Keys != {} { RebalancedIsGreedy(c.shards, groups.Keys); }
    }
  }

  lemma StepDisjoint(c: Config, op: Op)
    requires Accepted(c, op) && ServersDisjoint(c.groups)
    ensures ServersDisjoint(After(c, op).groups)
  {
    if op.Join? {
      forall g | g in op.servers
        ensures forall h :: h in c.groups ==> !Shares(op.servers[g], c.groups[h])
      {
        SharesSymmetric(c.groups, op.servers[g]);
      }
    }
  }

  /** `GidServers` finds a group for every shard exactly while some group exists. */
  lemma EveryShardServed(n: nat, ops: seq<Op>, cs: seq<Config>, s: nat)
    requires History(n, ops, cs) && s < n
    ensures var c := cs[|ops|]; |c.shards| == n && (c.shards[s] in c.groups <==> c.groups.Keys != {})
  {
    HistoryIsSound(n, ops, cs);
  }

  /** `IsMember(g)` means "g is a group" exactly when there are between one and n groups. */
  lemma IsMemberExact(n: nat, ops: seq<Op>, cs: seq<Config>)
    requires History(n, ops, cs) && n > 0
    ensures var c := cs[|ops|];
            (forall g :: Count(c.shards, g) > 0 <==> g in c.groups) <==> 1 <= |c.groups| <= n
  {
    HistoryIsSound(n, ops, cs);
    var c := cs[|ops|];
    var members := c.groups.Keys;
    assert |members| == |c.groups|;
    if members == {} {
      assert c.shards[0] == 0 && Count(c.shards, 0) > 0;
    } else {
      assert forall g :: Count(c.shards, g) > 0 ==> g in members;
      BalancedCounts(c.shards, members);
      if |members| <= n {
        MulMonotone(|members|, 1, n / |members|);
        DivAtLeastOne(n, |members|);
      } else {
        TooManyGroups(c.shards, members);
      }
    }
  }

  lemma DivAtLeastOne(n: int, d: int)
    requires 0 < d <= n
    ensures n / d >= 1
  {
    assert n == d * (n / d) + n % d;
  }

  lemma TooManyGroups(sh: seq<Gid>, members: set<Gid>)
    requires AllOwned(sh, members) && |members| > |sh|
    ensures exists g :: g in members && Count(sh, g) == 0
  {
    CountsAddUp(sh, members);
    if forall g :: g in members ==> Count(sh, g) >= 1 {
      TotalAtLeast(sh, members, 1);
    }
  }

  /** The test's `CheckConfig` accepts every configuration of a history. */
  lemma HistoryPassesCheck(n: nat, ops: seq<Op>, cs: seq<Config>, wanted: seq<Gid>)
    requires History(n, ops, cs)
    requires var c := cs[|ops|]; |wanted| == |c.groups| && forall i :: 0 <= i < |wanted| ==> wanted[i] in c.groups
    ensures var c := cs[|ops|];
            (wanted != [] ==> AllOwned(c.shards, c.groups.Keys)) && Balanced(c.shards, c.groups.Keys)
  {
    HistoryIsSound(n, ops, cs);
  }
}
