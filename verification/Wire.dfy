/** The text form of intermediate pairs: what `runMapTask` writes and `runReduceTask` reads back. */
module Wire {
  import opened Rpc
  import opened Bags

  datatype KeyValue = KeyValue(key: string, value: string)

  const SEP := ":::"
  const NL := "\n"

  // ---- strings.Split ----

  ghost predicate OccursAt(s: string, sep: string, i: int)
  {
    0 <= i && i + |sep| <= |s| && s[i..i + |sep|] == sep
  }

  ghost predicate Occurs(s: string, sep: string)
  {
    exists i :: OccursAt(s, sep, i)
  }

  lemma OccursShift(s: string, sep: string)
    requires s != ""
    ensures forall i {:trigger OccursAt(s, sep, i)} :: i > 0 ==> (OccursAt(s, sep, i) <==> OccursAt(s[1..], sep, i - 1))
    ensures forall i {:trigger OccursAt(s[1..], sep, i)} :: i >= 0 ==> (OccursAt(s, sep, i + 1) <==> OccursAt(s[1..], sep, i))
  {
    forall i: int | i >= 0 ensures OccursAt(s, sep, i + 1) <==> OccursAt(s[1..], sep, i) {
      if i + 1 + |sep| <= |s| { assert s[1..][i..i + |sep|] == s[i + 1..i + 1 + |sep|]; }
    }
    forall i: int {:trigger OccursAt(s, sep, i)} | i > 0 ensures OccursAt(s, sep, i) <==> OccursAt(s[1..], sep, i - 1) {
      assert OccursAt(s[1..], sep, i - 1) <==> OccursAt(s, sep, (i - 1) + 1);
    }
  }

  /** The first occurrence, or -1. */
  function Find(s: string, sep: string): (r: int)
    ensures r >= 0 ==> OccursAt(s, sep, r)
    ensures forall i {:trigger OccursAt(s, sep, i)} :: 0 <= i && (r < 0 || i < r) ==> !OccursAt(s, sep, i)
  {
    if |sep| <= |s| && s[..|sep|] == sep then 0
    else if s == "" then -1
    else
      var r := Find(s[1..], sep);
      OccursShift(s, sep);
      if r < 0 then -1 else r + 1
  }

  function Split(s: string, sep: string): (parts: seq<string>)
    requires sep != ""
    ensures parts != []
    decreases |s|
  {
    var i := Find(s, sep);
    if i < 0 then [s] else [s[..i]] + Split(s[i + |sep|..], sep)
  }

  lemma {:induction false} SplitChars(s: string, sep: string, k: nat, x: char)
    requires sep != "" && k < |Split(s, sep)| && x in Split(s, sep)[k]
    ensures x in s
    decreases |s|
  {
    var i := Find(s, sep);
    if i >= 0 && k > 0 { SplitChars(s[i + |sep|..], sep, k - 1, x); }
  }

  /** Lines have no newline in them. */
  lemma {:induction false} LineClean(s: string, k: nat)
    requires k < |Split(s, NL)|
    ensures '\n' !in Split(s, NL)[k]
    decreases |s|
  {
    var i := Find(s, NL);
    if i >= 0 && k > 0 {
      LineClean(s[i + 1..], k - 1);
    } else {
      forall j | 0 <= j < |Split(s, NL)[k]| ensures Split(s, NL)[k][j] != '\n' { assert !OccursAt(s, NL, j); }
    }
  }

  lemma NoNewline(s: string)
    requires '\n' !in s
    ensures Split(s, NL) == [s]
  {
    assert forall i {:trigger OccursAt(s, NL, i)} :: OccursAt(s, NL, i) ==> s[i] in s;
  }

  /** The lines of a text, one character at a time. */
  ghost function Lines(s: string): (ls: seq<string>)
    ensures ls != []
  {
    if s == "" then [""]
    else if s[0] == '\n' then [""] + Lines(s[1..])
    else [[s[0]] + Lines(s[1..])[0]] + Lines(s[1..])[1..]
  }

  lemma {:induction false} LinesAreSplit(s: string)
    ensures Lines(s) == Split(s, NL)
    decreases |s|
  {
    if s != "" {
      var i, j := Find(s, NL), Find(s[1..], NL);
      LinesAreSplit(s[1..]);
      assert s == [s[0]] + s[1..] && s[..1] == [s[0]];
      if i > 0 {
        assert s[..i] == [s[0]] + s[1..][..i - 1] && s[1..][i..] == s[i + 1..];
      }
    }
  }

  lemma {:induction false} LinesAppend(a: string, b: string)
    ensures Lines(a + NL + b) == Lines(a) + Lines(b)
  {
    var s := a + NL + b;
    if a == "" {
      assert s[1..] == b;
    } else {
      assert s[1..] == a[1..] + NL + b;
      LinesAppend(a[1..], b);
    }
  }

  /** A newline ends the lines before it. */
  lemma SplitNewline(a: string, b: string)
    ensures Split(a + NL + b, NL) == Split(a, NL) + Split(b, NL)
  {
    LinesAppend(a, b);
    LinesAreSplit(a);
    LinesAreSplit(b);
    LinesAreSplit(a + NL + b);
  }

  /** Some line holds whatever character but the newline occurs. */
  lemma {:induction false} SplitKeeps(s: string, x: char) returns (k: nat)
    requires x in s && x != '\n'
    ensures k < |Split(s, NL)| && x in Split(s, NL)[k]
    decreases |s|
  {
    var i := Find(s, NL);
    if i < 0 {
      k := 0;
    } else if x in s[..i] {
      k := 0;
    } else {
      assert s == s[..i] + [s[i]] + s[i + 1..];
      k := SplitKeeps(s[i + 1..], x);
      k := k + 1;
    }
  }

  // ---- strings.TrimSpace ----

  /** unicode.IsSpace */
  predicate IsSpace(c: char)
  {
    || c == ' ' || '\t' <= c <= '\r' || c == '\U{85}' || c == '\U{A0}'
    || c == '\U{1680}' || '\U{2000}' <= c <= '\U{200A}'
    || c == '\U{2028}' || c == '\U{2029}' || c == '\U{202F}' || c == '\U{205F}' || c == '\U{3000}'
  }

  function TrimLeft(s: string): string
  {
    if s != "" && IsSpace(s[0]) then TrimLeft(s[1..]) else s
  }

  function TrimRight(s: string): string
  {
    if s != "" && IsSpace(s[|s| - 1]) then TrimRight(s[..|s| - 1]) else s
  }

  function TrimSpace(s: string): string { TrimRight(TrimLeft(s)) }

  lemma {:induction false} TrimLeftKeeps(s: string, x: char)
    requires !IsSpace(x)
    ensures x in TrimLeft(s) <==> x in s
  {
    if s != "" && IsSpace(s[0]) {
      assert s == [s[0]] + s[1..];
      TrimLeftKeeps(s[1..], x);
    }
  }

  lemma {:induction false} TrimRightKeeps(s: string, x: char)
    requires !IsSpace(x)
    ensures x in TrimRight(s) <==> x in s
  {
    if s != "" && IsSpace(s[|s| - 1]) {
      assert s == s[..|s| - 1] + [s[|s| - 1]];
      TrimRightKeeps(s[..|s| - 1], x);
    }
  }

  lemma {:induction false} TrimLeftShorter(s: string, x: char)
    ensures |TrimLeft(s)| <= |s| && (|TrimLeft(s)| == |s| ==> TrimLeft(s) == s) && (x in TrimLeft(s) ==> x in s)
  {
    if s != "" && IsSpace(s[0]) { TrimLeftShorter(s[1..], x); }
  }

  lemma {:induction false} TrimRightShorter(s: string, x: char)
    ensures |TrimRight(s)| <= |s| && (|TrimRight(s)| == |s| ==> TrimRight(s) == s) && (x in TrimRight(s) ==> x in s)
  {
    if s != "" && IsSpace(s[|s| - 1]) { TrimRightShorter(s[..|s| - 1], x); }
  }

  /** Trimming keeps a string whole exactly when there is nothing to trim. */
  lemma TrimWhole(s: string, x: char)
    ensures x in TrimSpace(s) ==> x in s
    ensures |TrimSpace(s)| <= |s|
    ensures |TrimSpace(s)| == |s| <==> s == "" || (!IsSpace(s[0]) && !IsSpace(s[|s| - 1]))
    ensures |TrimSpace(s)| == |s| ==> TrimSpace(s) == s
  {
    TrimLeftShorter(s, x);
    TrimRightShorter(TrimLeft(s), x);
    if s != "" && IsSpace(s[0]) { TrimLeftShorter(s[1..], x); }
    if s != "" && IsSpace(s[|s| - 1]) { TrimRightShorter(s[..|s| - 1], x); }
  }

  // ---- Writing and reading pairs ----

  /** What one pair is written as, without the newline. */
  function Line(p: KeyValue): string { p.key + SEP + p.value }

  function Enc(p: KeyValue): string { Line(p) + NL }

  function EncAll(ps: seq<KeyValue>): string { Flat(Enc, ps) }

  /** What becomes of one line: nothing if it is blank, a pair, or `None` where the index panics. */
  function ParseLine(line: string): seq<Option<KeyValue>>
  {
    var l := TrimSpace(line);
    if l == "" then [] else
    var parts := Split(l, SEP);
    if |parts| < 2 then [None] else [Some(KeyValue(parts[0], parts[1]))]
  }

  function Parse(content: string): seq<Option<KeyValue>> { Flat(ParseLine, Split(content, NL)) }

  /** What reading yields if it yields the pairs themselves. */
  function Read(ps: seq<KeyValue>): seq<Option<KeyValue>>
  {
    seq(|ps|, i requires 0 <= i < |ps| => Some(ps[i]))
  }

  /** The pairs that the text form can carry. */
  ghost predicate Clean(p: KeyValue)
  {
    && '\n' !in p.key && '\n' !in p.value
    && !Occurs(p.key, SEP) && !Occurs(p.value, SEP)
    && (p.key != "" ==> !IsSpace(p.key[0]) && p.key[|p.key| - 1] != ':')
    && (p.value != "" ==> !IsSpace(p.value[|p.value| - 1]))
  }

  ghost function Lone(p: KeyValue): seq<Option<KeyValue>> { Parse(Line(p)) }

  lemma ParseOne(p: KeyValue, rest: string)
    ensures Parse(Enc(p) + rest) == Lone(p) + Parse(rest)
  {
    SplitNewline(Line(p), rest);
    FlatAppend(ParseLine, Split(Line(p), NL), Split(rest, NL));
  }

  /** Reading piece by piece, whatever the pieces are. */
  lemma {:induction false} ReadPieces<X(!new), Y>(read: string -> seq<Y>, enc: X -> string, lone: X -> seq<Y>, xs: seq<X>, rest: string)
    requires forall x, r :: read(enc(x) + r) == lone(x) + read(r)
    ensures read(Flat(enc, xs) + rest) == Flat(lone, xs) + read(rest)
  {
    if xs == [] {
      assert Flat(enc, xs) + rest == rest;
    } else {
      var m := |xs| - 1;
      var front, e := Flat(enc, xs[..m]), enc(xs[m]);
      assert (front + e) + rest == front + (e + rest);
      ReadPieces(read, enc, lone, xs[..m], e + rest);
    }
  }

  /** Each pair is read back on its own. */
  lemma ParsePairs(ps: seq<KeyValue>)
    ensures Parse(EncAll(ps)) == Flat(Lone, ps)
  {
    forall p, rest ensures Parse(Enc(p) + rest) == Lone(p) + Parse(rest) { ParseOne(p, rest); }
    ReadPieces(Parse, Enc, Lone, ps, "");
    ParseEmpty();
    assert EncAll(ps) + "" == EncAll(ps);
  }

  lemma ParseEmpty()
    ensures Parse("") == []
  {
    NoNewline("");
    assert Flat(ParseLine, [""]) == Flat(ParseLine, []) + ParseLine("");
  }

  /** Every pair leaves at least one line that is not blank. */
  lemma LoneSome(p: KeyValue)
    ensures |Lone(p)| >= 1
  {
    assert Line(p)[|p.key|] == ':';
    var k := SplitKeeps(Line(p), ':');
    var line := Split(Line(p), NL)[k];
    TrimLeftKeeps(line, ':');
    TrimRightKeeps(TrimLeft(line), ':');
    assert ':' in TrimSpace(line);
    FlatMember(ParseLine, Split(Line(p), NL), ParseLine(line)[0]);
  }

  ghost predicate SplitsInto(l: string, p: KeyValue)
  {
    |Split(l, SEP)| >= 2 && Split(l, SEP)[0] == p.key && Split(l, SEP)[1] == p.value
  }

  lemma SplitFirst(l: string)
    ensures Split(l, SEP)[0] == if Find(l, SEP) < 0 then l else l[..Find(l, SEP)]
    ensures |Split(l, SEP)| >= 2 <==> Find(l, SEP) >= 0
    ensures Find(l, SEP) >= 0 ==> Split(l, SEP)[1] == Split(l[Find(l, SEP) + 3..], SEP)[0]
  {
  }

  /** Splitting off the key: nothing earlier looks like the separator. */
  lemma SplitLine(p: KeyValue)
    ensures SplitsInto(Line(p), p)
            <==> !Occurs(p.key, SEP) && !Occurs(p.value, SEP) && (p.key != "" ==> p.key[|p.key| - 1] != ':')
  {
    var l, n := Line(p), |p.key|;
    assert OccursAt(l, SEP, n) && l[n + 3..] == p.value;
    var i := Find(l, SEP);
    assert 0 <= i <= n;
    SplitFirst(l);
    SplitFirst(l[i + 3..]);
    assert i == n <==> !Occurs(p.key, SEP) && (p.key != "" ==> p.key[n - 1] != ':') by { FirstSep(p); }
    assert Find(p.value, SEP) < 0 <==> !Occurs(p.value, SEP);
  }

  ghost predicate Colons(s: string, i: int)
  {
    0 <= i && i + 3 <= |s| && s[i] == ':' && s[i + 1] == ':' && s[i + 2] == ':'
  }

  lemma SepIsColons(s: string, i: int)
    ensures OccursAt(s, SEP, i) <==> Colons(s, i)
  {
    if Colons(s, i) { assert s[i..i + 3] == [s[i], s[i + 1], s[i + 2]]; }
    if OccursAt(s, SEP, i) { assert s[i] == s[i..i + 3][0] && s[i + 1] == s[i..i + 3][1] && s[i + 2] == s[i..i + 3][2]; }
  }

  /** Before the separator, three colons are the key's, or it ends in one. */
  lemma ColonsBefore(p: KeyValue, i: int)
    requires 0 <= i < |p.key|
    ensures Colons(Line(p), i) <==> Colons(p.key, i) || (i + 3 > |p.key| && p.key[i] == ':' && p.key[|p.key| - 1] == ':')
  {
    var l := Line(p);
    assert forall k :: 0 <= k < |p.key| ==> l[k] == p.key[k];
    assert forall k :: |p.key| <= k < |p.key| + 3 ==> l[k] == ':';
  }

  lemma FirstSep(p: KeyValue)
    ensures Find(Line(p), SEP) == |p.key| <==> !Occurs(p.key, SEP) && (p.key != "" ==> p.key[|p.key| - 1] != ':')
  {
    var l, n := Line(p), |p.key|;
    var i := Find(l, SEP);
    assert OccursAt(l, SEP, n);
    forall j: int ensures OccursAt(p.key, SEP, j) <==> Colons(p.key, j) { SepIsColons(p.key, j); }
    forall j: int | 0 <= j < n
      ensures OccursAt(l, SEP, j) <==> Colons(p.key, j) || (j + 3 > n && p.key[j] == ':' && p.key[n - 1] == ':')
    {
      SepIsColons(l, j);
      ColonsBefore(p, j);
    }
    if p.key != "" && p.key[n - 1] == ':' { assert OccursAt(l, SEP, n - 1); }
  }

  lemma SplitLength(l: string, p: KeyValue)
    requires SplitsInto(l, p)
    ensures |p.key| + 3 + |p.value| <= |l|
  {
    SplitFirst(l);
    SplitFirst(l[Find(l, SEP) + 3..]);
  }

  lemma LineEnds(p: KeyValue)
    ensures var l := Line(p);
            && |l| == |p.key| + 3 + |p.value|
            && (!IsSpace(l[0]) <==> p.key != "" ==> !IsSpace(p.key[0]))
            && (!IsSpace(l[|l| - 1]) <==> p.value != "" ==> !IsSpace(p.value[|p.value| - 1]))
  {
    var l := Line(p);
    assert l[0] == if p.key == "" then ':' else p.key[0];
    assert l[|l| - 1] == if p.value == "" then ':' else p.value[|p.value| - 1];
  }

  lemma ParseLineIs(line: string, p: KeyValue)
    ensures ParseLine(line) == [Some(p)] <==> TrimSpace(line) != "" && SplitsInto(TrimSpace(line), p)
  {
  }

  /** What a line without newlines gives. */
  lemma LineExact(p: KeyValue)
    requires '\n' !in p.key && '\n' !in p.value
    ensures ParseLine(Line(p)) == [Some(p)] <==> Clean(p)
  {
    var l := Line(p);
    ParseLineIs(l, p);
    LineEnds(p);
    TrimWhole(l, ' ');
    SplitLine(p);
    if SplitsInto(TrimSpace(l), p) { SplitLength(TrimSpace(l), p); }
  }

  /** What was read from a line has no newline. */
  lemma ReadClean(content: string, p: KeyValue)
    requires Some(p) in Parse(content)
    ensures '\n' !in p.key && '\n' !in p.value
  {
    var ls := Split(content, NL);
    FlatMember(ParseLine, ls, Some(p));
    var i :| 0 <= i < |ls| && Some(p) in ParseLine(ls[i]);
    LineClean(content, i);
    var l := TrimSpace(ls[i]);
    TrimWhole(ls[i], '\n');
    if '\n' in p.key { SplitChars(l, SEP, 0, '\n'); }
    if '\n' in p.value { SplitChars(l, SEP, 1, '\n'); }
  }

  lemma LoneExact(p: KeyValue)
    ensures Lone(p) == [Some(p)] <==> Clean(p)
  {
    if Lone(p) == [Some(p)] { ReadClean(Line(p), p); }
    if '\n' !in p.key && '\n' !in p.value {
      NoNewline(Line(p));
      assert Flat(ParseLine, [Line(p)]) == Flat(ParseLine, []) + ParseLine(Line(p));
      LineExact(p);
    }
  }

  lemma SplitEnd<X>(a: seq<X>, b: seq<X>, c: seq<X>, x: X)
    requires |a| >= |c| && |b| >= 1
    ensures a + b == c + [x] <==> a == c && b == [x]
  {
    if a + b == c + [x] {
      assert a == (a + b)[..|a|] && b == (a + b)[|a|..];
    }
  }

  lemma {:induction false} LongEnough<X, Y>(lone: X -> seq<Y>, xs: seq<X>)
    requires forall i :: 0 <= i < |xs| ==> |lone(xs[i])| >= 1
    ensures |Flat(lone, xs)| >= |xs|
  {
    if xs != [] { LongEnough(lone, xs[..|xs| - 1]); }
  }

  /** If reading gives as many pairs as were written, each pair gave its own. */
  lemma {:induction false} ReadApart(lone: KeyValue -> seq<Option<KeyValue>>, ps: seq<KeyValue>)
    requires forall i :: 0 <= i < |ps| ==> |lone(ps[i])| >= 1
    ensures Flat(lone, ps) == Read(ps) <==> forall i :: 0 <= i < |ps| ==> lone(ps[i]) == [Some(ps[i])]
  {
    if ps != [] {
      var m, p := |ps| - 1, ps[|ps| - 1];
      ReadApart(lone, ps[..m]);
      LongEnough(lone, ps[..m]);
      assert Read(ps) == Read(ps[..m]) + [Some(p)];
      SplitEnd(Flat(lone, ps[..m]), lone(p), Read(ps[..m]), Some(p));
      assert forall i :: 0 <= i < m ==> ps[..m][i] == ps[i];
    }
  }

  /** Reading recovers exactly what was written, in order, if and only if every pair is clean. */
  lemma RoundTrip(ps: seq<KeyValue>)
    ensures Parse(EncAll(ps)) == Read(ps) <==> forall i :: 0 <= i < |ps| ==> Clean(ps[i])
  {
    ParsePairs(ps);
    forall i | 0 <= i < |ps| ensures |Lone(ps[i])| >= 1 && (Lone(ps[i]) == [Some(ps[i])] <==> Clean(ps[i])) {
      LoneSome(ps[i]);
      LoneExact(ps[i]);
    }
    ReadApart(Lone, ps);
  }
}
