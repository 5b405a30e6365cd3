/** The files of a MapReduce job, and the text their names are made of. The rest of the model works with
    `Name`; this module shows that the code's string handling (Sprintf, Split, Replace, Glob) agrees. */
module Names {
  import opened Bags
  import opened Wire

  datatype Name =
    | Input(file: string)
    | TempMap(task: nat, bucket: nat)
    | MapOut(task: nat, bucket: nat)
    | TempReduce(bucket: nat)
    | ReduceOut(bucket: nat)

  /** What `renameTempFiles` makes of a name. */
  function Renamed(n: Name): Name
  {
    match n
    case TempMap(t, b) => MapOut(t, b)
    case TempReduce(b) => ReduceOut(b)
    case _ => n
  }

  function Digit(d: nat): char
    requires d < 10
  {
    "0123456789"[d]
  }

  /** %d */
  function Dec(n: nat): string
  {
    if n < 10 then [Digit(n)] else Dec(n / 10) + [Digit(n % 10)]
  }

  function MapText(t: nat, b: nat): string { "m-out-" + Dec(t) + "-" + Dec(b) }

  function ReduceText(b: nat): string { "mr-out-" + Dec(b) }

  function Text(n: Name): string
  {
    match n
    case Input(file) => file
    case TempMap(t, b) => "temp" + MapText(t, b)
    case MapOut(t, b) => MapText(t, b)
    case TempReduce(b) => "temp" + ReduceText(b)
    case ReduceOut(b) => ReduceText(b)
  }

  predicate IsDigit(c: char) { '0' <= c <= '9' }

  lemma {:induction false} DecDigits(n: nat)
    ensures Dec(n) != "" && forall i :: 0 <= i < |Dec(n)| ==> IsDigit(Dec(n)[i])
  {
    if n >= 10 { DecDigits(n / 10); }
  }

  /** The number that digits stand for. */
  ghost function Number(s: string): int
  {
    if s == "" then 0 else 10 * Number(s[..|s| - 1]) + (s[|s| - 1] as int - '0' as int)
  }

  lemma DigitIs(d: nat)
    requires d < 10
    ensures Digit(d) as int == '0' as int + d
  {
  }

  /** Decimal notation, without leading zeros. */
  lemma {:induction false} DecMeans(n: nat)
    ensures Number(Dec(n)) == n && Dec(n) != "" && (n > 0 ==> Dec(n)[0] != '0')
  {
    DigitIs(n % 10);
    if n < 10 {
      assert Dec(n)[..0] == "";
    } else {
      DecMeans(n / 10);
      assert Dec(n)[..|Dec(n)| - 1] == Dec(n / 10);
    }
  }

  lemma {:induction false} DecInjective(n: nat, m: nat)
    requires Dec(n) == Dec(m)
    ensures n == m
  {
    DecDigits(n);
    DecDigits(m);
    var d, e := Dec(n), Dec(m);
    assert d[|d| - 1] == Digit(n % 10) && e[|e| - 1] == Digit(m % 10);
    assert n % 10 == m % 10;
    if n >= 10 && m >= 10 {
      assert Dec(n / 10) == d[..|d| - 1] && Dec(m / 10) == e[..|e| - 1];
      DecInjective(n / 10, m / 10);
    } else {
      DecDigits(n / 10);
      DecDigits(m / 10);
      assert n < 10 <==> |d| == 1;
      assert m < 10 <==> |e| == 1;
    }
  }

  /** strings.Split at "-" of a text whose first part has no "-". */
  lemma SplitDash(a: string, rest: string)
    requires '-' !in a
    ensures Split(a + "-" + rest, "-") == [a] + Split(rest, "-")
  {
    var s := a + "-" + rest;
    assert OccursAt(s, "-", |a|);
    assert forall i :: 0 <= i < |a| ==> s[i] == a[i];
    assert forall i {:trigger OccursAt(s, "-", i)} :: 0 <= i < |a| && OccursAt(s, "-", i) ==> a[i] == '-';
    assert s[..|a|] == a && s[|a| + 1..] == rest;
  }

  lemma NoDash(a: string)
    requires '-' !in a
    ensures Split(a, "-") == [a]
  {
    assert forall i {:trigger OccursAt(a, "-", i)} :: OccursAt(a, "-", i) ==> a[i] in a;
  }

  lemma DecNoDash(n: nat)
    ensures '-' !in Dec(n) && 'e' !in Dec(n)
  {
    DecDigits(n);
  }

  function Join(parts: seq<string>): string
  {
    if parts == [] then "" else if |parts| == 1 then parts[0] else parts[0] + "-" + Join(parts[1..])
  }

  lemma {:induction false} SplitJoin(parts: seq<string>)
    requires parts != [] && forall i :: 0 <= i < |parts| ==> '-' !in parts[i]
    ensures Split(Join(parts), "-") == parts
  {
    if |parts| == 1 {
      NoDash(parts[0]);
    } else {
      SplitJoin(parts[1..]);
      SplitDash(parts[0], Join(parts[1..]));
    }
  }

  lemma JoinFour(a: string, b: string, c: string, d: string)
    ensures Join([a, b, c, d]) == a + "-" + b + "-" + c + "-" + d
  {
    assert [a, b, c, d][1..] == [b, c, d] && [b, c, d][1..] == [c, d] && [c, d][1..] == [d];
    assert Join([c, d]) == c + "-" + d;
    assert Join([b, c, d]) == b + "-" + (c + "-" + d);
  }

  /** The parts of an intermediate file's name: `parts[3]` is its bucket. */
  lemma BucketPart(t: nat, b: nat)
    ensures Split(MapText(t, b), "-") == ["m", "out", Dec(t), Dec(b)]
  {
    DecNoDash(t);
    DecNoDash(b);
    JoinFour("m", "out", Dec(t), Dec(b));
    assert "m-out-" == "m" + "-" + "out" + "-";
    SplitJoin(["m", "out", Dec(t), Dec(b)]);
  }

  /** Two intermediate files share `parts[3]` exactly if they share their bucket. */
  lemma SameBucketPart(t: nat, b: nat, u: nat, c: nat)
    ensures |Split(MapText(t, b), "-")| == |Split(MapText(u, c), "-")| == 4
    ensures Split(MapText(t, b), "-")[3] == Split(MapText(u, c), "-")[3] <==> b == c
  {
    BucketPart(t, b);
    BucketPart(u, c);
    if Dec(b) == Dec(c) { DecInjective(b, c); }
  }

  /** strings.Replace(s, "temp", "", -1) */
  function WithoutTemp(s: string): string { Flat((part: string) => part, Split(s, "temp")) }

  lemma DropTemp(s: string)
    requires 'e' !in s
    ensures WithoutTemp("temp" + s) == s && WithoutTemp(s) == s
  {
    var same := (part: string) => part;
    assert forall i {:trigger OccursAt(s, "temp", i)} :: OccursAt(s, "temp", i) ==> s[i..i + 4][1] == 'e' && s[i + 1] in s;
    assert ("temp" + s)[..4] == "temp" && ("temp" + s)[4..] == s;
    assert Split(s, "temp") == [s];
    assert Split("temp" + s, "temp") == [""] + [s];
    FlatOne(same, [], s);
    FlatOne(same, [], "");
    FlatOne(same, [""], s);
  }

  /** Renaming drops "temp" and leaves the rest. */
  lemma RenamedText(n: Name)
    requires !n.Input?
    ensures WithoutTemp(Text(n)) == Text(Renamed(n))
  {
    match n
    case TempMap(t, b) => MapNoE(t, b); DropTemp(MapText(t, b));
    case MapOut(t, b) => MapNoE(t, b); DropTemp(Text(n));
    case TempReduce(b) => DecNoDash(b); DropTemp(ReduceText(b));
    case ReduceOut(b) => DecNoDash(b); DropTemp(Text(n));
  }

  lemma MapNoE(t: nat, b: nat)
    ensures 'e' !in MapText(t, b)
  {
    DecNoDash(t);
    DecNoDash(b);
  }

  /** Names that differ have texts that differ. */
  lemma TextInjective(n: Name, m: Name)
    requires !n.Input? && !m.Input? && Text(n) == Text(m)
    ensures n == m
  {
    RenamedText(n);
    RenamedText(m);
    assert Text(n)[0] == 't' <==> n.TempMap? || n.TempReduce?;
    assert Text(m)[0] == 't' <==> m.TempMap? || m.TempReduce?;
    OutInjective(Renamed(n), Renamed(m));
  }

  lemma OutInjective(n: Name, m: Name)
    requires (n.MapOut? || n.ReduceOut?) && (m.MapOut? || m.ReduceOut?) && Text(n) == Text(m)
    ensures n == m
  {
    assert Text(n)[1] == '-' <==> n.MapOut?;
    assert Text(m)[1] == '-' <==> m.MapOut?;
    if n.MapOut? {
      BucketPart(n.task, n.bucket);
      BucketPart(m.task, m.bucket);
      assert Split(Text(n), "-")[2] == Split(Text(m), "-")[2] && Split(Text(n), "-")[3] == Split(Text(m), "-")[3];
      DecInjective(n.task, m.task);
      DecInjective(n.bucket, m.bucket);
    } else {
      assert Text(n)[7..] == Dec(n.bucket) && Text(m)[7..] == Dec(m.bucket);
      DecInjective(n.bucket, m.bucket);
    }
  }

  /** filepath.Glob("m-out-*-*"), which looks for files in the directory itself. */
  predicate Globbed(s: string)
  {
    |s| >= 6 && s[..6] == "m-out-" && '-' in s[6..] && '/' !in s
  }

  lemma GlobMap(t: nat, b: nat)
    ensures Globbed(MapText(t, b))
  {
    DecDigits(t);
    DecDigits(b);
    var rest := Dec(t) + "-" + Dec(b);
    assert MapText(t, b) == "m-out-" + rest;
    assert rest[|Dec(t)|] == '-';
    assert forall i :: 0 <= i < |rest| ==> rest[i] != '/';
  }

  /** The pattern finds the finished intermediate files and no other file of the job. */
  lemma GlobFinds(n: Name)
    requires !n.Input?
    ensures Globbed(Text(n)) <==> n.MapOut?
  {
    if n.MapOut? {
      GlobMap(n.task, n.bucket);
    } else {
      assert Text(n)[0] != 'm' || Text(n)[1] != '-';
    }
  }
}
