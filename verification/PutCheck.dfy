/** `CheckPutConcurrent` of kvtest.go: the test's count of concurrent Puts. */
module PutCheck {
  import opened AppendCheck

  function Oks(rs: seq<ClntRes>): nat
  {
    if rs == [] then 0 else Oks(rs[..|rs| - 1]) + rs[|rs| - 1].nok
  }

  function Maybes(rs: seq<ClntRes>): nat
  {
    if rs == [] then 0 else Maybes(rs[..|rs| - 1]) + rs[|rs| - 1].nmaybe
  }

  /** Every version came from a Put that may have succeeded; on a reliable network from one that did. */
  predicate Tallied(ver: nat, rs: seq<ClntRes>, reliable: bool)
  {
    if reliable then ver == Oks(rs) else ver <= Oks(rs) + Maybes(rs)
  }

  lemma {:induction false} Prepend(r: ClntRes, rs: seq<ClntRes>)
    ensures Oks([r] + rs) == r.nok + Oks(rs) && Maybes([r] + rs) == r.nmaybe + Maybes(rs)
  {
    if rs == [] {
      assert [r] + rs == [r];
    } else {
      Prepend(r, rs[..|rs| - 1]);
      assert ([r] + rs)[..|rs|] == [r] + rs[..|rs| - 1];
    }
  }

  /** `ver` is the version that the server has for the key; `before` what `res` held at the call. */
  method CheckPutConcurrent(ver: nat, rs: seq<ClntRes>, reliable: bool, before: ClntRes) returns (res: ClntRes, passed: bool)
    ensures res == ClntRes(before.nok + Oks(rs), before.nmaybe + Maybes(rs))
    ensures passed <==> Tallied(ver, [before] + rs, reliable)
    ensures passed <==> if reliable then ver == res.nok else ver <= res.nok + res.nmaybe
  {
    res := before;
    for i := 0 to |rs|
      invariant res == ClntRes(before.nok + Oks(rs[..i]), before.nmaybe + Maybes(rs[..i]))
    {
      assert rs[..i + 1][..i] == rs[..i];
      res := ClntRes(res.nok + rs[i].nok, res.nmaybe + rs[i].nmaybe);
    }
    assert rs[..|rs|] == rs;
    Prepend(before, rs);
    passed := true;
    if !reliable && ver > res.nok + res.nmaybe { passed := false; }
    if reliable && ver != res.nok { passed := false; }
  }
}
