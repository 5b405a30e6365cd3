/** What a worker does with a task (worker.go): map writes pairs into bucket files, reduce reads them back. */
module Work {
  import opened Rpc
  import opened Bags
  import opened Wire
  import opened Names
  import opened Files

  type Pos = n: nat | n > 0 witness 1

  /** The application and its parameters; `hash` stands for ihash. */
  datatype Job = Job(mapf: (string, string) -> seq<KeyValue>, reducef: (string, seq<string>) -> string,
                     hash: string -> nat, nReduce: Pos)

  function Bucket(job: Job, key: string): nat { job.hash(key) % job.nReduce }

  // ---- What the files are to contain, apart from how they come to contain it ----

  /** The pairs that the application makes of the inputs, in order. */
  ghost function InputPairs(job: Job, fs: Fs, files: seq<Name>): seq<KeyValue>
    requires forall i :: 0 <= i < |files| ==> files[i].Input?
  {
    if files == [] then [] else
    var m := |files| - 1;
    InputPairs(job, fs, files[..m]) + job.mapf(files[m].file, if files[m] in fs then fs[files[m]] else "")
  }

  /** The pairs whose key's hash leaves the remainder `b`, in order. */
  ghost function Hashed(job: Job, ps: seq<KeyValue>, b: nat): seq<KeyValue>
  {
    if ps == [] then [] else
    var p := ps[|ps| - 1];
    Hashed(job, ps[..|ps| - 1], b) + if job.hash(p.key) % job.nReduce == b then [p] else []
  }

  /** A line for each pair. */
  ghost function PairText(ps: seq<KeyValue>): string
  {
    if ps == [] then "" else
    var p := ps[|ps| - 1];
    PairText(ps[..|ps| - 1]) + (p.key + ":::" + p.value + "\n")
  }

  /** The values that the pairs give to a key, in order. */
  ghost function KeyValues(ps: seq<KeyValue>, key: string): seq<string>
  {
    if ps == [] then [] else
    var p := ps[|ps| - 1];
    KeyValues(ps[..|ps| - 1], key) + if p.key == key then [p.value] else []
  }

  /** A line for each key: the key and what its values are reduced to. */
  ghost function OutputText(job: Job, ps: seq<KeyValue>, keys: seq<string>): string
  {
    if keys == [] then "" else
    var k := keys[|keys| - 1];
    OutputText(job, ps, keys[..|keys| - 1]) + (k + " " + job.reducef(k, KeyValues(ps, k)) + "\n")
  }

  ghost predicate HasKey(ps: seq<KeyValue>, key: string)
  {
    exists i :: 0 <= i < |ps| && ps[i].key == key
  }

  /** Each key of the pairs once. */
  ghost predicate KeysOf(keys: seq<string>, ps: seq<KeyValue>)
  {
    NoDup(keys) && forall k :: k in keys <==> HasKey(ps, k)
  }

  /** What a map task leaves: each bucket's file has grown by the lines of its pairs and no other file has
      changed. */
  ghost predicate MapTaskWrote(job: Job, fs: Fs, fs': Fs, t: nat, ps: seq<KeyValue>)
  {
    && (forall b: nat :: Content(fs', TempMap(t, b)) == Content(fs, TempMap(t, b)) + PairText(Hashed(job, ps, b)))
    && (forall n: Name :: n in fs' <==> n in fs || (n.TempMap? && n.task == t && Hashed(job, ps, n.bucket) != []))
    && (forall n: Name :: !(n.TempMap? && n.task == t) ==> Content(fs', n) == Content(fs, n))
  }

  /** The files that a map task reports: one for each bucket that got a pair. */
  ghost predicate MapTaskCreated(job: Job, t: nat, ps: seq<KeyValue>, created: seq<Name>)
  {
    NoDup(created) && forall n: Name :: n in created <==> n.TempMap? && n.task == t && Hashed(job, ps, n.bucket) != []
  }

  /** What a reduce task leaves: the output file of its bucket has grown by a line for each key. */
  ghost predicate ReduceTaskWrote(job: Job, fs: Fs, fs': Fs, b: nat, ps: seq<KeyValue>, keys: seq<string>)
  {
    && KeysOf(keys, ps)
    && Content(fs', TempReduce(b)) == Content(fs, TempReduce(b)) + OutputText(job, ps, keys)
    && (forall n: Name :: n in fs' <==> n in fs || (n == TempReduce(b) && keys != []))
    && (forall n: Name :: n != TempReduce(b) ==> Content(fs', n) == Content(fs, n))
  }

  // ---- Map ----

  function WritePair(job: Job, fs: Fs, t: nat, p: KeyValue): Fs
  {
    Appended(fs, TempMap(t, Bucket(job, p.key)), Enc(p))
  }

  function WritePairs(job: Job, fs: Fs, t: nat, ps: seq<KeyValue>): Fs
  {
    if ps == [] then fs else WritePair(job, WritePairs(job, fs, t, ps[..|ps| - 1]), t, ps[|ps| - 1])
  }

  /** The pairs that go to bucket `b`. */
  function Selected(job: Job, ps: seq<KeyValue>, b: nat): seq<KeyValue>
  {
    if ps == [] then [] else
    var m := |ps| - 1;
    Selected(job, ps[..m], b) + if Bucket(job, ps[m].key) == b then [ps[m]] else []
  }

  lemma SelectedOne(job: Job, ps: seq<KeyValue>, p: KeyValue, b: nat)
    ensures Selected(job, ps + [p], b) == Selected(job, ps, b) + if Bucket(job, p.key) == b then [p] else []
  {
    assert (ps + [p])[..|ps|] == ps;
  }

  lemma {:induction false} SelectedAppend(job: Job, a: seq<KeyValue>, c: seq<KeyValue>, b: nat)
    ensures Selected(job, a + c, b) == Selected(job, a, b) + Selected(job, c, b)
  {
    if c == [] {
      assert a + c == a;
    } else {
      var m := |c| - 1;
      SelectedAppend(job, a, c[..m], b);
      assert (a + c)[..|a + c| - 1] == a + c[..m];
    }
  }

  lemma EncOne(ps: seq<KeyValue>, p: KeyValue)
    ensures EncAll(ps + [p]) == EncAll(ps) + Enc(p)
  {
    FlatOne(Enc, ps, p);
  }

  lemma WritePairIs(job: Job, fs: Fs, t: nat, p: KeyValue, n: Name)
    ensures var fs' := WritePair(job, fs, t, p);
            if n == TempMap(t, Bucket(job, p.key)) then n in fs' && fs'[n] == Content(fs, n) + Enc(p)
            else Content(fs', n) == Content(fs, n) && (n in fs' <==> n in fs)
  {
  }

  /** What task `t` writes to file `n`. */
  function Mine(job: Job, t: nat, ps: seq<KeyValue>, n: Name): seq<KeyValue>
  {
    if n.TempMap? && n.task == t then Selected(job, ps, n.bucket) else []
  }

  /** What writing does to each file, in terms of `Mine`. */
  lemma {:induction false} WritePairsGrow(job: Job, fs: Fs, t: nat, ps: seq<KeyValue>, n: Name)
    ensures var fs', mine := WritePairs(job, fs, t, ps), Mine(job, t, ps, n);
            Content(fs', n) == Content(fs, n) + EncAll(mine) && (n in fs' <==> n in fs || mine != [])
  {
    if ps == [] {
      assert Content(fs, n) + EncAll([]) == Content(fs, n);
    } else {
      var m, p := |ps| - 1, ps[|ps| - 1];
      var before := Mine(job, t, ps[..m], n);
      WritePairsGrow(job, fs, t, ps[..m], n);
      WritePairIs(job, WritePairs(job, fs, t, ps[..m]), t, p, n);
      if n == TempMap(t, Bucket(job, p.key)) {
        assert Mine(job, t, ps, n) == before + [p];
        EncOne(before, p);
        Associate(Content(fs, n), EncAll(before), Enc(p));
      } else {
        assert Mine(job, t, ps, n) == before;
      }
    }
  }

  lemma Associate(a: string, b: string, c: string)
    ensures (a + b) + c == a + (b + c)
  {
  }

  /** All pairs of some inputs, given the directory. */
  function Mapped(job: Job, fs: Fs, files: seq<Name>): seq<KeyValue>
  {
    if files == [] then [] else
    var m := |files| - 1;
    Mapped(job, fs, files[..m]) + job.mapf(Text(files[m]), Content(fs, files[m]))
  }

  /** The files that a map task has written to: one per bucket that got a pair. */
  ghost predicate IsCreated(job: Job, t: nat, ps: seq<KeyValue>, n: Name)
  {
    n.TempMap? && n.task == t && Selected(job, ps, n.bucket) != []
  }

  ghost predicate Created(job: Job, t: nat, ps: seq<KeyValue>, created: seq<Name>)
  {
    NoDup(created) && forall n :: n in created <==> IsCreated(job, t, ps, n)
  }

  lemma InputsStay(job: Job, fs: Fs, t: nat, ps: seq<KeyValue>, n: Name)
    requires n.Input?
    ensures Content(WritePairs(job, fs, t, ps), n) == Content(fs, n) && (n in WritePairs(job, fs, t, ps) <==> n in fs)
  {
    WritePairsGrow(job, fs, t, ps, n);
    assert Content(fs, n) + EncAll([]) == Content(fs, n);
  }

  ghost predicate CreatedSet(job: Job, t: nat, ps: seq<KeyValue>, created: set<Name>)
  {
    forall n :: n in created <==> IsCreated(job, t, ps, n)
  }

  lemma CreatedNext(job: Job, fs: Fs, t: nat, ps: seq<KeyValue>, p: KeyValue, created: set<Name>)
    requires CreatedSet(job, t, ps, created)
    ensures CreatedSet(job, t, ps + [p], created + {TempMap(t, Bucket(job, p.key))})
    ensures WritePairs(job, fs, t, ps + [p]) == WritePair(job, WritePairs(job, fs, t, ps), t, p)
  {
    PairWritten(job, fs, t, ps, p);
  }

  lemma TakeOne<X>(xs: seq<X>, ys: seq<X>, k: nat)
    requires k < |ys|
    ensures xs + ys[..k + 1] == (xs + ys[..k]) + [ys[k]]
  {
  }

  lemma TakeEnds<X>(xs: seq<X>, ys: seq<X>)
    ensures xs + ys[..0] == xs && xs + ys[..|ys|] == xs + ys
  {
  }

  /** The loop over the pairs of one input; `ps` are the pairs written before. */
  method EmitPairs(job: Job, dir: Dir, taskId: nat, pairs: seq<KeyValue>, created0: set<Name>, ghost fs: Fs, ghost ps: seq<KeyValue>)
    returns (created: set<Name>)
    requires dir.files == WritePairs(job, fs, taskId, ps) && CreatedSet(job, taskId, ps, created0)
    modifies dir
    ensures dir.files == WritePairs(job, fs, taskId, ps + pairs) && CreatedSet(job, taskId, ps + pairs, created)
  {
    created := created0;
    TakeEnds(ps, pairs);
    ghost var done := ps;
    for k := 0 to |pairs|
      invariant done == ps + pairs[..k] && dir.files == WritePairs(job, fs, taskId, done)
      invariant CreatedSet(job, taskId, done, created)
    {
      var kv := pairs[k];
      var name := TempMap(taskId, Bucket(job, kv.key));
      CreatedNext(job, fs, taskId, done, kv, created);
      TakeOne(ps, pairs, k);
      created := created + {name};
      dir.Append(name, kv.key + SEP + kv.value + NL);
      done := done + [kv];
    }
  }

  /** The loop over the inputs, up to the first that cannot be read; `read` is how many were. */
  method MapInputs(job: Job, dir: Dir, taskId: nat, files: seq<Name>) returns (ok: bool, created: set<Name>, ghost read: nat)
    requires forall i :: 0 <= i < |files| ==> files[i].Input?
    modifies dir
    ensures read <= |files| && dir.files == WritePairs(job, old(dir.files), taskId, Mapped(job, old(dir.files), files[..read]))
    ensures CreatedSet(job, taskId, Mapped(job, old(dir.files), files[..read]), created)
    ensures ok == (read == |files|) && (!ok ==> files[read] !in old(dir.files))
    ensures forall k :: 0 <= k < read ==> files[k] in old(dir.files)
  {
    ghost var fs := dir.files;
    created := {};
    var i := 0;
    while i < |files|
      invariant i <= |files| && dir.files == WritePairs(job, fs, taskId, Mapped(job, fs, files[..i]))
      invariant CreatedSet(job, taskId, Mapped(job, fs, files[..i]), created)
      invariant forall k :: 0 <= k < i ==> files[k] in fs
    {
      InputsStay(job, fs, taskId, Mapped(job, fs, files[..i]), files[i]);
      var content := dir.Read(files[i]);
      if content.None? { return false, created, i; }
      assert files[..i + 1][..i] == files[..i];
      created := EmitPairs(job, dir, taskId, job.mapf(Text(files[i]), content.value), created, fs, Mapped(job, fs, files[..i]));
      i := i + 1;
    }
    ok, read := true, i;
  }

  /** runMapTask: `None` if an input cannot be read; `read` is how many were. */
  method RunMapTask(job: Job, dir: Dir, taskId: nat, files: seq<Name>) returns (res: Option<seq<Name>>, ghost read: nat)
    requires forall i :: 0 <= i < |files| ==> files[i].Input?
    modifies dir
    ensures read <= |files| && dir.files == WritePairs(job, old(dir.files), taskId, Mapped(job, old(dir.files), files[..read]))
    ensures if read < |files| then res == None && files[read] !in old(dir.files)
            else res.Some? && Created(job, taskId, Mapped(job, old(dir.files), files), res.value)
    ensures res.Some? <==> forall i :: 0 <= i < |files| ==> files[i] in old(dir.files)
    ensures MapTaskWrote(job, old(dir.files), dir.files, taskId, InputPairs(job, old(dir.files), files[..read]))
    ensures res.Some? ==> MapTaskCreated(job, taskId, InputPairs(job, old(dir.files), files), res.value)
  {
    ghost var fs := dir.files;
    var ok, created;
    ok, created, read := MapInputs(job, dir, taskId, files);
    MappedIs(job, fs, files[..read]);
    MapTaskMeans(job, fs, taskId, Mapped(job, fs, files[..read]));
    if !ok { return None, read; }
    assert files[..|files|] == files;
    var names := KeysToSlice(created);
    res := Some(names);
  }

  lemma PairWritten(job: Job, fs: Fs, t: nat, ps: seq<KeyValue>, p: KeyValue)
    ensures WritePairs(job, fs, t, ps + [p]) == WritePair(job, WritePairs(job, fs, t, ps), t, p)
    ensures forall n :: IsCreated(job, t, ps + [p], n) <==> IsCreated(job, t, ps, n) || n == TempMap(t, Bucket(job, p.key))
  {
    assert (ps + [p])[..|ps|] == ps;
    forall n: Name | n.TempMap? ensures IsCreated(job, t, ps + [p], n) <==> IsCreated(job, t, ps, n) || n == TempMap(t, Bucket(job, p.key)) {
      SelectedOne(job, ps, p, n.bucket);
    }
  }

  lemma {:induction false} SelectedIs(job: Job, ps: seq<KeyValue>, b: nat)
    ensures Selected(job, ps, b) == Hashed(job, ps, b)
  {
    if ps != [] { SelectedIs(job, ps[..|ps| - 1], b); }
  }

  lemma EncIs(p: KeyValue)
    ensures Enc(p) == p.key + ":::" + p.value + "\n"
  {
  }

  lemma {:induction false} EncAllIs(ps: seq<KeyValue>)
    ensures EncAll(ps) == PairText(ps)
  {
    if ps != [] {
      EncAllIs(ps[..|ps| - 1]);
      EncIs(ps[|ps| - 1]);
    }
  }

  lemma {:induction false} MappedIs(job: Job, fs: Fs, files: seq<Name>)
    requires forall i :: 0 <= i < |files| ==> files[i].Input?
    ensures Mapped(job, fs, files) == InputPairs(job, fs, files)
  {
    if files != [] { MappedIs(job, fs, files[..|files| - 1]); }
  }

  /** What writing does to each file: only this map task's bucket files grow, each by the lines of the pairs
      whose key hashes there, in order. */
  lemma WritePairsIs(job: Job, fs: Fs, t: nat, ps: seq<KeyValue>, n: Name)
    ensures var fs' := WritePairs(job, fs, t, ps);
            if n.TempMap? && n.task == t
            then Content(fs', n) == Content(fs, n) + PairText(Hashed(job, ps, n.bucket)) && (n in fs' <==> n in fs || Hashed(job, ps, n.bucket) != [])
            else Content(fs', n) == Content(fs, n) && (n in fs' <==> n in fs)
  {
    WritePairsGrow(job, fs, t, ps, n);
    if n.TempMap? && n.task == t {
      SelectedIs(job, ps, n.bucket);
      EncAllIs(Hashed(job, ps, n.bucket));
    } else {
      assert Content(fs, n) + EncAll([]) == Content(fs, n);
    }
  }

  lemma MapTaskMeans(job: Job, fs: Fs, t: nat, ps: seq<KeyValue>)
    ensures MapTaskWrote(job, fs, WritePairs(job, fs, t, ps), t, ps)
    ensures forall created :: Created(job, t, ps, created) ==> MapTaskCreated(job, t, ps, created)
  {
    forall n: Name | n.TempMap? ensures Hashed(job, ps, n.bucket) == Selected(job, ps, n.bucket) {
      SelectedIs(job, ps, n.bucket);
    }
    forall n: Name ensures var fs' := WritePairs(job, fs, t, ps);
      && (n in fs' <==> n in fs || (n.TempMap? && n.task == t && Hashed(job, ps, n.bucket) != []))
      && (!(n.TempMap? && n.task == t) ==> Content(fs', n) == Content(fs, n))
    {
      WritePairsIs(job, fs, t, ps, n);
    }
    forall b: nat ensures Content(WritePairs(job, fs, t, ps), TempMap(t, b)) == Content(fs, TempMap(t, b)) + PairText(Hashed(job, ps, b)) {
      WritePairsIs(job, fs, t, ps, TempMap(t, b));
    }
  }

  /** mapKeysToSlice: the keys in some order. */
  method KeysToSlice(keys: set<Name>) returns (s: seq<Name>)
    ensures NoDup(s) && |s| == |keys| && forall n :: n in s <==> n in keys
  {
    s := [];
    var rest := keys;
    while rest != {}
      invariant rest <= keys && NoDup(s) && |s| + |rest| == |keys| && forall n :: n in s <==> n in keys && n !in rest
      decreases |rest|
    {
      var n :| n in rest;
      rest := rest - {n};
      s := s + [n];
    }
  }

  // ---- Reduce ----

  type Grouping = map<string, seq<string>>

  function AddPair(m: Grouping, p: KeyValue): Grouping
  {
    m[p.key := (if p.key in m then m[p.key] else []) + [p.value]]
  }

  function AddPairs(m: Grouping, ps: seq<KeyValue>): Grouping
  {
    if ps == [] then m else AddPair(AddPairs(m, ps[..|ps| - 1]), ps[|ps| - 1])
  }

  lemma {:induction false} AddPairsAppend(m: Grouping, a: seq<KeyValue>, b: seq<KeyValue>)
    ensures AddPairs(m, a + b) == AddPairs(AddPairs(m, a), b)
  {
    if b == [] {
      assert a + b == a;
    } else {
      AddPairsAppend(m, a, b[..|b| - 1]);
      assert (a + b)[..|a + b| - 1] == a + b[..|b| - 1];
    }
  }

  /** The values of a key, in order. */
  ghost function ValuesOf(ps: seq<KeyValue>, key: string): seq<string>
  {
    if ps == [] then [] else
    ValuesOf(ps[..|ps| - 1], key) + if ps[|ps| - 1].key == key then [ps[|ps| - 1].value] else []
  }

  lemma {:induction false} GroupedValues(ps: seq<KeyValue>, key: string)
    ensures var m := AddPairs(map[], ps);
            (key in m <==> ValuesOf(ps, key) != []) && (key in m ==> m[key] == ValuesOf(ps, key))
  {
    if ps != [] { GroupedValues(ps[..|ps| - 1], key); }
  }

  lemma {:induction false} ValuesIs(ps: seq<KeyValue>, key: string)
    ensures ValuesOf(ps, key) == KeyValues(ps, key)
    ensures HasKey(ps, key) <==> KeyValues(ps, key) != []
  {
    if ps != [] {
      var m := |ps| - 1;
      ValuesIs(ps[..m], key);
      if i :| 0 <= i < |ps| && ps[i].key == key { if i < m { assert ps[..m][i].key == key; } }
      if HasKey(ps[..m], key) {
        var i :| 0 <= i < m && ps[..m][i].key == key;
        assert ps[i].key == key;
      }
      if ps[m].key == key { assert HasKey(ps, key); }
    }
  }

  /** The grouping has exactly the keys of the pairs, each with all its values in order. */
  lemma GroupedIs(ps: seq<KeyValue>, key: string)
    ensures var m := AddPairs(map[], ps);
            (key in m <==> HasKey(ps, key)) && (key in m ==> m[key] == KeyValues(ps, key) == ValuesOf(ps, key))
  {
    GroupedValues(ps, key);
    ValuesIs(ps, key);
  }

  /** The pairs among the outcomes of reading. */
  function Strip(os: seq<Option<KeyValue>>): seq<KeyValue>
  {
    if os == [] then [] else Strip(os[..|os| - 1]) + if os[|os| - 1].Some? then [os[|os| - 1].value] else []
  }

  lemma {:induction false} StripAppend(a: seq<Option<KeyValue>>, b: seq<Option<KeyValue>>)
    ensures Strip(a + b) == Strip(a) + Strip(b)
  {
    if b == [] {
      assert a + b == a;
    } else {
      StripAppend(a, b[..|b| - 1]);
      assert (a + b)[..|a + b| - 1] == a + b[..|b| - 1];
    }
  }

  lemma {:induction false} StripRead(ps: seq<KeyValue>)
    ensures Strip(Read(ps)) == ps && None !in Read(ps)
  {
    if ps != [] {
      StripRead(ps[..|ps| - 1]);
      assert Read(ps)[..|ps| - 1] == Read(ps[..|ps| - 1]);
    }
  }

  function OutLine(job: Job, key: string, values: seq<string>): string
  {
    key + " " + job.reducef(key, values) + NL
  }

  function WriteLine(job: Job, fs: Fs, b: nat, key: string, values: seq<string>): Fs
  {
    Appended(fs, TempReduce(b), OutLine(job, key, values))
  }

  function ValuesFor(m: Grouping, key: string): seq<string> { if key in m then m[key] else [] }

  function WriteLines(job: Job, fs: Fs, b: nat, order: seq<string>, m: Grouping): Fs
  {
    if order == [] then fs else
    var k := order[|order| - 1];
    WriteLine(job, WriteLines(job, fs, b, order[..|order| - 1], m), b, k, ValuesFor(m, k))
  }

  /** All outcomes of reading some files. */
  function Outcomes(fs: Fs, files: seq<Name>): seq<Option<KeyValue>>
  {
    if files == [] then [] else
    var m := |files| - 1;
    Outcomes(fs, files[..m]) + Parse(Content(fs, files[m]))
  }

  /** One line; `false` where the index panics. */
  method AddLine(line: string, m: Grouping) returns (ok: bool, m': Grouping)
    ensures ok <==> None !in ParseLine(line)
    ensures ok ==> m' == AddPairs(m, Strip(ParseLine(line)))
  {
    m' := m;
    var l := TrimSpace(line);
    if l == "" { return true, m; }
    var parts := Split(l, SEP);
    if |parts| < 2 { return false, m; }
    var p := KeyValue(parts[0], parts[1]);
    m' := m[p.key := (if p.key in m then m[p.key] else []) + [p.value]];
    ok := true;
    OnePair(m, p);
  }

  lemma OnePair(m: Grouping, p: KeyValue)
    ensures Strip([Some(p)]) == [p] && AddPairs(m, [p]) == AddPair(m, p)
  {
    assert [Some(p)][..0] == [] && [p][..0] == [];
  }

  lemma AddOutcomes(m: Grouping, a: seq<Option<KeyValue>>, b: seq<Option<KeyValue>>)
    ensures AddPairs(m, Strip(a + b)) == AddPairs(AddPairs(m, Strip(a)), Strip(b))
  {
    StripAppend(a, b);
    AddPairsAppend(m, Strip(a), Strip(b));
  }

  lemma LinesNext(lines: seq<string>, i: nat, m: Grouping)
    requires i < |lines|
    ensures var before, next := Flat(ParseLine, lines[..i]), Flat(ParseLine, lines[..i + 1]);
            && (None in next <==> None in before || None in ParseLine(lines[i]))
            && AddPairs(m, Strip(next)) == AddPairs(AddPairs(m, Strip(before)), Strip(ParseLine(lines[i])))
  {
    assert lines[..i + 1] == lines[..i] + [lines[i]];
    FlatOne(ParseLine, lines[..i], lines[i]);
    AddOutcomes(m, Flat(ParseLine, lines[..i]), ParseLine(lines[i]));
  }

  lemma BadLine(lines: seq<string>, i: nat)
    requires i < |lines| && None in ParseLine(lines[i])
    ensures None in Flat(ParseLine, lines)
  {
    FlatMember(ParseLine, lines, None);
  }

  /** The loop over the lines of one file. */
  method ReadLines(lines: seq<string>, m0: Grouping) returns (ok: bool, m: Grouping)
    ensures ok <==> None !in Flat(ParseLine, lines)
    ensures ok ==> m == AddPairs(m0, Strip(Flat(ParseLine, lines)))
  {
    m := m0;
    for i := 0 to |lines|
      invariant None !in Flat(ParseLine, lines[..i]) && m == AddPairs(m0, Strip(Flat(ParseLine, lines[..i])))
    {
      LinesNext(lines, i, m0);
      ok, m := AddLine(lines[i], m);
      if !ok {
        BadLine(lines, i);
        return;
      }
    }
    assert lines[..|lines|] == lines;
    ok := true;
  }

  method ReadPairs(content: string, m0: Grouping) returns (ok: bool, m: Grouping)
    ensures ok <==> None !in Parse(content)
    ensures ok ==> m == AddPairs(m0, Strip(Parse(content)))
  {
    ok, m := ReadLines(Split(content, NL), m0);
  }

  lemma FilesNext(fs: Fs, files: seq<Name>, i: nat)
    requires i < |files|
    ensures var before, next, here := Outcomes(fs, files[..i]), Outcomes(fs, files[..i + 1]), Parse(Content(fs, files[i]));
            && (None in next <==> None in before || None in here)
            && AddPairs(map[], Strip(next)) == AddPairs(AddPairs(map[], Strip(before)), Strip(here))
  {
    assert files[..i + 1][..i] == files[..i];
    AddOutcomes(map[], Outcomes(fs, files[..i]), Parse(Content(fs, files[i])));
  }

  lemma BadFile(fs: Fs, files: seq<Name>, i: nat)
    requires i <= |files| && None in Outcomes(fs, files[..i])
    ensures None in Outcomes(fs, files)
  {
    OutcomesGrow(fs, files, i);
  }

  /** All files are there and have a separator in every line. */
  ghost predicate Readable(fs: Fs, files: seq<Name>)
  {
    (forall i :: 0 <= i < |files| ==> files[i] in fs) && None !in Outcomes(fs, files)
  }

  ghost predicate HaveRead(fs: Fs, files: seq<Name>, i: nat, m: Grouping)
  {
    i <= |files| && Readable(fs, files[..i]) && m == AddPairs(map[], Strip(Outcomes(fs, files[..i])))
  }

  lemma ReadableNext(fs: Fs, files: seq<Name>, i: nat)
    requires i < |files| && Readable(fs, files[..i])
    ensures files[i] in fs && None !in Outcomes(fs, files[..i + 1]) ==> Readable(fs, files[..i + 1])
    ensures Readable(fs, files) ==> files[i] in fs && None !in Outcomes(fs, files[..i + 1])
  {
    var next := files[..i + 1];
    assert forall j :: 0 <= j < i ==> next[j] == files[..i][j];
    if None in Outcomes(fs, next) { BadFile(fs, files, i + 1); }
  }

  /** One file. */
  method ReadNext(dir: Dir, files: seq<Name>, i: nat, m0: Grouping) returns (ok: bool, m: Grouping)
    requires i < |files| && HaveRead(dir.files, files, i, m0)
    ensures if ok then HaveRead(dir.files, files, i + 1, m) else !Readable(dir.files, files)
  {
    ReadableNext(dir.files, files, i);
    FilesNext(dir.files, files, i);
    var content := dir.Read(files[i]);
    if content.None? { return false, m0; }
    ok, m := ReadPairs(content.value, m0);
  }

  /** The loop over the files. */
  method ReadFiles(dir: Dir, files: seq<Name>) returns (ok: bool, m: Grouping)
    ensures ok <==> Readable(dir.files, files)
    ensures ok ==> m == AddPairs(map[], Strip(Outcomes(dir.files, files)))
  {
    m := map[];
    assert files[..0] == [];
    for i := 0 to |files|
      invariant HaveRead(dir.files, files, i, m)
    {
      ok, m := ReadNext(dir, files, i, m);
      if !ok { return; }
    }
    assert files[..|files|] == files;
    ok := true;
  }

  /** `order` lists the keys of the map except `rest`, each once. */
  ghost predicate Listing(order: seq<string>, m: Grouping, rest: set<string>)
  {
    NoDup(order) && forall k :: k in order <==> k in m && k !in rest
  }

  lemma ListingNext(order: seq<string>, m: Grouping, rest: set<string>, k: string)
    requires Listing(order, m, rest) && k in rest && k in m
    ensures Listing(order + [k], m, rest - {k})
  {
  }

  lemma LineWritten(job: Job, fs: Fs, b: nat, order: seq<string>, m: Grouping, k: string)
    requires k in m
    ensures WriteLines(job, fs, b, order + [k], m) == WriteLine(job, WriteLines(job, fs, b, order, m), b, k, m[k])
  {
    assert (order + [k])[..|order|] == order;
  }

  /** The keys of the map except `rest` have their lines in the output. */
  ghost predicate HaveWritten(job: Job, fs: Fs, fs': Fs, b: nat, order: seq<string>, m: Grouping, rest: set<string>)
  {
    Listing(order, m, rest) && fs' == WriteLines(job, fs, b, order, m)
  }

  /** One key. */
  method EmitLine(job: Job, dir: Dir, b: nat, m: Grouping, key: string, ghost rest: set<string>, ghost fs: Fs, ghost order: seq<string>)
    requires key in m && key in rest && HaveWritten(job, fs, dir.files, b, order, m, rest)
    modifies dir
    ensures HaveWritten(job, fs, dir.files, b, order + [key], m, rest - {key})
  {
    LineWritten(job, fs, b, order, m, key);
    ListingNext(order, m, rest, key);
    var result := job.reducef(key, m[key]);
    dir.Append(TempReduce(b), key + " " + result + NL);
  }

  /** The loop over the grouped values; `any` says that there were some. */
  method WriteResults(job: Job, dir: Dir, b: nat, m: Grouping) returns (any: bool, ghost order: seq<string>)
    modifies dir
    ensures HaveWritten(job, old(dir.files), dir.files, b, order, m, {}) && any == (order != [])
  {
    any, order := false, [];
    var rest := m.Keys;
    ghost var fs := dir.files;
    while rest != {}
      invariant rest <= m.Keys && HaveWritten(job, fs, dir.files, b, order, m, rest) && any == (order != [])
      decreases |rest|
    {
      var k :| k in rest;
      EmitLine(job, dir, b, m, k, rest, fs, order);
      any, order, rest := true, order + [k], rest - {k};
    }
  }

  lemma OutLineIs(job: Job, key: string, values: seq<string>)
    ensures OutLine(job, key, values) == key + " " + job.reducef(key, values) + "\n"
  {
  }

  lemma WriteLineIs(job: Job, fs: Fs, b: nat, key: string, values: seq<string>)
    ensures var fs' := WriteLine(job, fs, b, key, values);
            && Content(fs', TempReduce(b)) == Content(fs, TempReduce(b)) + (key + " " + job.reducef(key, values) + "\n")
            && (forall n: Name :: n in fs' <==> n in fs || n == TempReduce(b))
            && (forall n: Name :: n != TempReduce(b) ==> Content(fs', n) == Content(fs, n))
  {
    OutLineIs(job, key, values);
  }

  lemma {:induction false} WriteLinesIs(job: Job, fs: Fs, b: nat, ps: seq<KeyValue>, keys: seq<string>)
    requires forall i :: 0 <= i < |keys| ==> HasKey(ps, keys[i])
    ensures var fs' := WriteLines(job, fs, b, keys, AddPairs(map[], ps));
            && Content(fs', TempReduce(b)) == Content(fs, TempReduce(b)) + OutputText(job, ps, keys)
            && (forall n: Name :: n in fs' <==> n in fs || (n == TempReduce(b) && keys != []))
            && (forall n: Name :: n != TempReduce(b) ==> Content(fs', n) == Content(fs, n))
  {
    if keys == [] {
      assert Content(fs, TempReduce(b)) + "" == Content(fs, TempReduce(b));
    } else {
      var m, k, grouping := |keys| - 1, keys[|keys| - 1], AddPairs(map[], ps);
      WriteLinesIs(job, fs, b, ps, keys[..m]);
      GroupedIs(ps, k);
      WriteLineIs(job, WriteLines(job, fs, b, keys[..m], grouping), b, k, KeyValues(ps, k));
      Associate(Content(fs, TempReduce(b)), OutputText(job, ps, keys[..m]), k + " " + job.reducef(k, KeyValues(ps, k)) + "\n");
    }
  }

  lemma ReduceTaskMeans(job: Job, fs: Fs, b: nat, ps: seq<KeyValue>, keys: seq<string>)
    requires NoDup(keys) && forall k :: k in keys <==> k in AddPairs(map[], ps)
    ensures ReduceTaskWrote(job, fs, WriteLines(job, fs, b, keys, AddPairs(map[], ps)), b, ps, keys)
  {
    forall k ensures k in keys <==> HasKey(ps, k) {
      GroupedIs(ps, k);
    }
    assert forall i :: 0 <= i < |keys| ==> keys[i] in keys;
    WriteLinesIs(job, fs, b, ps, keys);
  }

  /** runReduceTask: `None` if a file cannot be read or a line has no separator; `order` is the order in
      which the keys come out of the map. */
  method RunReduceTask(job: Job, dir: Dir, files: seq<Name>) returns (res: Option<seq<Name>>, ghost order: seq<string>)
    requires forall i :: 0 <= i < |files| ==> files[i].MapOut?
    modifies dir
    ensures res.Some? <==> Readable(old(dir.files), files)
    ensures res.None? || files == [] ==> dir.files == old(dir.files)
    ensures res.Some? && files == [] ==> res.value == []
    ensures res.Some? && files != [] ==>
              var m := AddPairs(map[], Strip(Outcomes(old(dir.files), files)));
              && NoDup(order) && (forall k :: k in order <==> k in m)
              && dir.files == WriteLines(job, old(dir.files), files[0].bucket, order, m)
              && res.value == if order == [] then [] else [TempReduce(files[0].bucket)]
    ensures res.Some? && files != [] ==>
              ReduceTaskWrote(job, old(dir.files), dir.files, files[0].bucket, Strip(Outcomes(old(dir.files), files)), order)
  {
    order := [];
    if |files| == 0 { return Some([]), []; }
    var b := files[0].bucket;
    var ok, m := ReadFiles(dir, files);
    if !ok { return None, []; }
    var any;
    any, order := WriteResults(job, dir, b, m);
    ReduceTaskMeans(job, old(dir.files), b, Strip(Outcomes(old(dir.files), files)), order);
    res := Some(if any then [TempReduce(b)] else []);
  }

  lemma {:induction false} OutcomesGrow(fs: Fs, files: seq<Name>, i: nat)
    requires i <= |files|
    ensures Outcomes(fs, files[..i]) <= Outcomes(fs, files)
    decreases |files|
  {
    if i < |files| {
      var m := |files| - 1;
      assert files[..m][..i] == files[..i];
      OutcomesGrow(fs, files[..m], i);
    } else {
      assert files[..i] == files;
    }
  }
}
