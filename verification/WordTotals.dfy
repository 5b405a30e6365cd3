/** Word count writes one line for each word of its inputs, with the number of times it occurs there. */
module WordTotals {
  import opened Rpc
  import opened Bags
  import opened Wire
  import opened Names
  import opened Files
  import opened Work
  import opened Sequential
  import E = ExactlyOnce
  import opened Cluster
  import opened ReduceSide
  import opened SameOutput
  import opened Results
  import opened WordCount

  // ---- Occurrences in texts ----

  /** The letters of `w` stand in the text before place `n`, with no letter on either side of them. */
  ghost predicate EndsAt(letter: char -> bool, s: string, w: string, n: nat)
  {
    && w != "" && Letters(letter, w) && |w| <= n <= |s| && s[n - |w|..n] == w
    && (n == |w| || !letter(s[n - |w| - 1])) && (n == |s| || !letter(s[n]))
  }

  /** How often the word occurs, ending at one of the first `n` places. */
  ghost function Occurrences(letter: char -> bool, s: string, w: string, n: nat): nat
  {
    if n == 0 then 0 else Occurrences(letter, s, w, n - 1) + if EndsAt(letter, s, w, n) then 1 else 0
  }

  /** How often the word occurs in the inputs. */
  ghost function Total(letter: char -> bool, fs: Fs, inputs: seq<string>, w: string): nat
  {
    if inputs == [] then 0 else
    var text := Content(fs, Input(inputs[|inputs| - 1]));
    Total(letter, fs, inputs[..|inputs| - 1], w) + Occurrences(letter, text, w, |text|)
  }

  /** `u` is the longest run of letters that the text ends with. */
  ghost predicate LastRun(letter: char -> bool, s: string, u: string)
  {
    && Letters(letter, u) && |u| <= |s| && s[|s| - |u|..|s|] == u
    && (|u| == |s| || !letter(s[|s| - |u| - 1]))
  }

  lemma RunGrows(letter: char -> bool, s: string, u: string, c: char)
    requires LastRun(letter, s, u)
    ensures LastRun(letter, s + [c], if letter(c) then u + [c] else "")
  {
    var s' := s + [c];
    assert s'[|s'| - |u| - 1..|s'|] == s[|s| - |u|..|s|] + [c];
    assert s'[|s'|..|s'|] == "";
  }

  lemma NextRun(letter: char -> bool, s: string, u: string)
    requires s != "" && LastRun(letter, s[..|s| - 1], u)
    ensures LastRun(letter, s, if letter(s[|s| - 1]) then u + [s[|s| - 1]] else "")
  {
    RunGrows(letter, s[..|s| - 1], u, s[|s| - 1]);
    assert s == s[..|s| - 1] + [s[|s| - 1]];
  }

  lemma NextWord(letter: char -> bool, s: string)
    requires s != ""
    ensures var before, c := Scanned(letter, s[..|s| - 1]), s[|s| - 1];
            Scanned(letter, s).word == if letter(c) then before.word + [c] else ""
  {
  }

  /** That is the word being read. */
  lemma {:induction false} WordIsRun(letter: char -> bool, s: string)
    ensures LastRun(letter, s, Scanned(letter, s).word)
  {
    if s == "" {
      EmptyRun(letter);
    } else {
      WordIsRun(letter, s[..|s| - 1]);
      NextRun(letter, s, Scanned(letter, s[..|s| - 1]).word);
      NextWord(letter, s);
    }
  }

  lemma EmptyRun(letter: char -> bool)
    ensures LastRun(letter, "", "")
  {
  }

  lemma InRun(letter: char -> bool, s: string, u: string, n: nat)
    requires LastRun(letter, s, u) && n < |u|
    ensures letter(s[|s| - n - 1])
  {
    assert s[|s| - n - 1] == u[|u| - n - 1];
  }

  lemma OneRun(letter: char -> bool, s: string, u: string, w: string)
    requires LastRun(letter, s, u) && LastRun(letter, s, w)
    ensures u == w
  {
    if |w| < |u| { InRun(letter, s, u, |w|); }
    if |u| < |w| { InRun(letter, s, w, |u|); }
  }

  lemma EndIsRun(letter: char -> bool, s: string, w: string)
    ensures EndsAt(letter, s, w, |s|) <==> w != "" && LastRun(letter, s, w)
  {
  }

  lemma EndsWithRun(letter: char -> bool, s: string, u: string, w: string)
    requires LastRun(letter, s, u)
    ensures EndsAt(letter, s, w, |s|) <==> w != "" && u == w
  {
    EndIsRun(letter, s, w);
    if LastRun(letter, s, w) { OneRun(letter, s, u, w); }
  }

  lemma EndsWith(letter: char -> bool, s: string, w: string)
    ensures EndsAt(letter, s, w, |s|) <==> w != "" && Scanned(letter, s).word == w
  {
    WordIsRun(letter, s);
    EndsWithRun(letter, s, Scanned(letter, s).word, w);
  }

  /** Places inside a text do not depend on its last character, except the one before it. */
  lemma EndsBefore(letter: char -> bool, s: string, w: string, n: nat)
    requires n < |s|
    ensures var m := |s| - 1;
            EndsAt(letter, s, w, n) <==> EndsAt(letter, s[..m], w, n) && (n == m ==> !letter(s[m]))
  {
    var m := |s| - 1;
    if |w| <= n { assert s[..m][n - |w|..n] == s[n - |w|..n]; }
  }

  lemma {:induction false} OccurrencesBefore(letter: char -> bool, s: string, w: string, n: nat)
    requires n + 1 < |s|
    ensures Occurrences(letter, s, w, n) == Occurrences(letter, s[..|s| - 1], w, n)
  {
    if n > 0 {
      OccurrencesBefore(letter, s, w, n - 1);
      EndsBefore(letter, s, w, n);
    }
  }

  /** The words met so far are the occurrences that have ended. */
  lemma {:induction false} WordsMet(letter: char -> bool, s: string, w: string)
    ensures E.Times(Scanned(letter, s).words, w) == if s == "" then 0 else Occurrences(letter, s, w, |s| - 1)
  {
    if s != "" {
      var m := |s| - 1;
      WordsMet(letter, s[..m], w);
      if m > 0 {
        OccurrencesBefore(letter, s, w, m - 1);
        EndsBefore(letter, s, w, m);
        EndsWith(letter, s[..m], w);
      }
      WordEnds(letter, s, w);
    }
  }

  /** What the last character adds to the words met. */
  lemma WordEnds(letter: char -> bool, s: string, w: string)
    requires s != ""
    ensures var before, c := Scanned(letter, s[..|s| - 1]), s[|s| - 1];
            E.Times(Scanned(letter, s).words, w) == E.Times(before.words, w)
            + if !letter(c) && before.word != "" && before.word == w then 1 else 0
  {
    var before := Scanned(letter, s[..|s| - 1]);
    TimesOne(before.words, before.word, w);
  }

  lemma TimesOne(ws: seq<string>, x: string, w: string)
    ensures E.Times(ws + [x], w) == E.Times(ws, w) + if x == w then 1 else 0
  {
    assert (ws + [x])[..|ws|] == ws;
  }

  /** FieldsFunc finds each occurrence once. */
  lemma FieldsCount(letter: char -> bool, s: string, w: string)
    ensures E.Times(Fields(letter, s), w) == Occurrences(letter, s, w, |s|)
  {
    var scan := Scanned(letter, s);
    WordsMet(letter, s, w);
    EndsWith(letter, s, w);
    TimesOne(scan.words, scan.word, w);
    if scan.word == "" { assert Fields(letter, s) == scan.words; }
  }

  // ---- Values of a word ----

  ghost function Ones(words: seq<string>): seq<KeyValue>
  {
    seq(|words|, i requires 0 <= i < |words| => KeyValue(words[i], "1"))
  }

  lemma {:induction false} OnesCount(words: seq<string>, w: string)
    ensures |KeyValues(Ones(words), w)| == E.Times(words, w)
  {
    if words != [] {
      var m := |words| - 1;
      OnesCount(words[..m], w);
      assert Ones(words)[..m] == Ones(words[..m]);
    }
  }

  lemma KeyValuesAppend(a: seq<KeyValue>, b: seq<KeyValue>, key: string)
    ensures KeyValues(a + b, key) == KeyValues(a, key) + KeyValues(b, key)
  {
    ValuesAppend(a, b, key);
    ValuesIs(a + b, key);
    ValuesIs(a, key);
    ValuesIs(b, key);
  }

  lemma MapCount(letter: char -> bool, file: string, text: string, w: string)
    ensures |KeyValues(Map(letter)(file, text), w)| == Occurrences(letter, text, w, |text|)
  {
    assert Map(letter)(file, text) == Ones(Fields(letter, text));
    OnesCount(Fields(letter, text), w);
    FieldsCount(letter, text, w);
  }

  lemma LastInput(job: Job, fs: Fs, inputs: seq<string>)
    requires inputs != []
    ensures var m := |inputs| - 1;
            InputPairs(job, fs, Inputs(inputs)) == InputPairs(job, fs, Inputs(inputs[..m])) + job.mapf(inputs[m], Content(fs, Input(inputs[m])))
  {
    assert Inputs(inputs)[..|inputs| - 1] == Inputs(inputs[..|inputs| - 1]);
  }

  /** A word has as many values as it occurs. */
  lemma {:induction false} ValuesCount(letter: char -> bool, hash: string -> nat, nReduce: Pos, fs: Fs, inputs: seq<string>, w: string)
    ensures |KeyValues(InputPairs(WordCountJob(letter, hash, nReduce), fs, Inputs(inputs)), w)| == Total(letter, fs, inputs, w)
  {
    if inputs != [] {
      var job, m := WordCountJob(letter, hash, nReduce), |inputs| - 1;
      var text := Content(fs, Input(inputs[m]));
      ValuesCount(letter, hash, nReduce, fs, inputs[..m], w);
      LastInput(job, fs, inputs);
      KeyValuesAppend(InputPairs(job, fs, Inputs(inputs[..m])), Map(letter)(inputs[m], text), w);
      MapCount(letter, inputs[m], text, w);
    }
  }

  // ---- Lines ----

  /** The lines that these keys have. */
  ghost function KeyLines(job: Job, ps: seq<KeyValue>, keys: seq<string>): seq<string>
  {
    seq(|keys|, i requires 0 <= i < |keys| => keys[i] + " " + job.reducef(keys[i], KeyValues(ps, keys[i])))
  }

  lemma {:induction false} OutputTerminated(job: Job, ps: seq<KeyValue>, keys: seq<string>)
    ensures Terminated(OutputText(job, ps, keys))
  {
    if keys != [] {
      var m, k := |keys| - 1, keys[|keys| - 1];
      var front := OutputText(job, ps, keys[..m]) + (k + " " + job.reducef(k, KeyValues(ps, k)));
      assert OutputText(job, ps, keys) == front + NL;
    }
  }

  lemma OneLine(line: string)
    requires '\n' !in line
    ensures FullLines(line + NL) == [line]
  {
    LinesOf(line);
    NoNewline(line);
  }

  lemma {:induction false} TextLines(job: Job, ps: seq<KeyValue>, keys: seq<string>)
    requires forall i :: 0 <= i < |keys| ==> '\n' !in KeyLines(job, ps, keys)[i]
    ensures FullLines(OutputText(job, ps, keys)) == KeyLines(job, ps, keys)
  {
    if keys == [] {
      NoLines();
    } else {
      var m := |keys| - 1;
      var front, line := keys[..m], KeyLines(job, ps, keys)[m];
      assert KeyLines(job, ps, front) == KeyLines(job, ps, keys)[..m];
      TextLines(job, ps, front);
      OutputTerminated(job, ps, front);
      LinesAdd(OutputText(job, ps, front), line + NL);
      OneLine(line);
    }
  }

  lemma SpaceInside(a: string, b: string, x: string, y: string)
    requires a + " " + x == b + " " + y && |a| < |b|
    ensures ' ' in b
  {
    assert b[|a|] == (a + " " + x)[|a|];
  }

  /** A word and a number can be told apart in a line. */
  lemma LineParts(a: string, b: string, x: string, y: string)
    requires ' ' !in a && ' ' !in b && a + " " + x == b + " " + y
    ensures a == b
  {
    if |a| < |b| { SpaceInside(a, b, x, y); }
    if |b| < |a| { SpaceInside(b, a, y, x); }
    assert a == (a + " " + x)[..|a|] && b == (b + " " + y)[..|b|];
  }

  /** A line that word count is to write. */
  ghost predicate IsCount(letter: char -> bool, fs: Fs, inputs: seq<string>, line: string)
  {
    exists w: string :: Total(letter, fs, inputs, w) > 0 && line == w + " " + Dec(Total(letter, fs, inputs, w))
  }

  lemma {:induction false} OccurringLetters(letter: char -> bool, s: string, w: string, n: nat)
    requires Occurrences(letter, s, w, n) > 0
    ensures Letters(letter, w)
  {
    if !EndsAt(letter, s, w, n) { OccurringLetters(letter, s, w, n - 1); }
  }

  lemma {:induction false} TotalLetters(letter: char -> bool, fs: Fs, inputs: seq<string>, w: string)
    requires Total(letter, fs, inputs, w) > 0
    ensures Letters(letter, w)
  {
    var text := Content(fs, Input(inputs[|inputs| - 1]));
    if Occurrences(letter, text, w, |text|) > 0 {
      OccurringLetters(letter, text, w, |text|);
    } else {
      TotalLetters(letter, fs, inputs[..|inputs| - 1], w);
    }
  }

  lemma CountLine(letter: char -> bool, w: string, n: nat)
    requires Sensible(letter) && Letters(letter, w)
    ensures ' ' !in w && '\n' !in w + " " + Dec(n)
  {
    assert IsSpace(' ') && IsSpace('\n');
    DecDigits(n);
  }

  /** The line of a word of the inputs. */
  lemma WordLine(letter: char -> bool, hash: string -> nat, nReduce: Pos, fs: Fs, inputs: seq<string>, w: string)
    requires Sensible(letter)
    ensures var job := WordCountJob(letter, hash, nReduce);
            var ps := InputPairs(job, fs, Inputs(inputs));
            && (HasKey(ps, w) <==> Total(letter, fs, inputs, w) > 0)
            && job.reducef(w, KeyValues(ps, w)) == Dec(Total(letter, fs, inputs, w))
            && (HasKey(ps, w) ==> ' ' !in w && '\n' !in w + " " + Dec(Total(letter, fs, inputs, w)))
  {
    ValuesCount(letter, hash, nReduce, fs, inputs, w);
    ValuesIs(InputPairs(WordCountJob(letter, hash, nReduce), fs, Inputs(inputs)), w);
    if Total(letter, fs, inputs, w) > 0 {
      TotalLetters(letter, fs, inputs, w);
      CountLine(letter, w, Total(letter, fs, inputs, w));
    }
  }

  /** Lines made of distinct words, each with its total. */
  lemma DistinctLines(lines: seq<string>, keys: seq<string>, total: string -> nat)
    requires |lines| == |keys| && NoDup(keys)
    requires forall i :: 0 <= i < |keys| ==> ' ' !in keys[i] && lines[i] == keys[i] + " " + Dec(total(keys[i]))
    ensures NoDup(lines)
  {
    forall i, j | 0 <= i < j < |lines| ensures lines[i] != lines[j] {
      if lines[i] == lines[j] { LineParts(keys[i], keys[j], Dec(total(keys[i])), Dec(total(keys[j]))); }
    }
  }

  /** The output made of all keys has each word's line once, and no other line. */
  lemma CountsExactly(letter: char -> bool, hash: string -> nat, nReduce: Pos, fs: Fs, inputs: seq<string>, keys: seq<string>, line: string)
    requires Sensible(letter) && KeysOf(keys, InputPairs(WordCountJob(letter, hash, nReduce), fs, Inputs(inputs)))
    ensures var job := WordCountJob(letter, hash, nReduce);
            multiset(FullLines(OutputText(job, InputPairs(job, fs, Inputs(inputs)), keys)))[line]
            == if IsCount(letter, fs, inputs, line) then 1 else 0
  {
    var job := WordCountJob(letter, hash, nReduce);
    var ps := InputPairs(job, fs, Inputs(inputs));
    var lines, total := KeyLines(job, ps, keys), (w: string) => Total(letter, fs, inputs, w);
    forall i | 0 <= i < |keys|
      ensures ' ' !in keys[i] && '\n' !in lines[i] && lines[i] == keys[i] + " " + Dec(total(keys[i])) && total(keys[i]) > 0
    {
      assert keys[i] in keys;
      WordLine(letter, hash, nReduce, fs, inputs, keys[i]);
    }
    TextLines(job, ps, keys);
    DistinctLines(lines, keys, total);
    LineThere(letter, hash, nReduce, fs, inputs, keys, lines, line);
    NoDupCount(lines, line);
  }

  lemma LineThere(letter: char -> bool, hash: string -> nat, nReduce: Pos, fs: Fs, inputs: seq<string>,
                  keys: seq<string>, lines: seq<string>, line: string)
    requires Sensible(letter) && KeysOf(keys, InputPairs(WordCountJob(letter, hash, nReduce), fs, Inputs(inputs)))
    requires |lines| == |keys| && forall i :: 0 <= i < |keys| ==>
               lines[i] == keys[i] + " " + Dec(Total(letter, fs, inputs, keys[i])) && Total(letter, fs, inputs, keys[i]) > 0
    ensures line in lines <==> IsCount(letter, fs, inputs, line)
  {
    if IsCount(letter, fs, inputs, line) {
      var w: string :| Total(letter, fs, inputs, w) > 0 && line == w + " " + Dec(Total(letter, fs, inputs, w));
      WordLine(letter, hash, nReduce, fs, inputs, w);
      assert w in keys;
      var i :| 0 <= i < |keys| && keys[i] == w;
      assert lines[i] == line;
    }
  }

  // ---- Both programs ----

  /** For every run of distributed word count that ends without reduce timeouts: each word that occurs in the
      inputs has exactly one line in the output files, which says how often it occurs, and there is no other. */
  lemma DistributedCounts(letter: char -> bool, hash: string -> nat, nReduce: Pos,
                          ss: seq<Sys>, ls: seq<Label>, inputs: seq<string>, line: string)
    requires Sensible(letter)
    requires Run(WordCountJob(letter, hash, nReduce), ss, ls, inputs) && ss[|ls|].done && NoReduceTimeout(ss[|ls|])
    ensures OutputLines(ss[|ls|].fs, nReduce)[line] == if IsCount(letter, ss[0].fs, inputs, line) then 1 else 0
  {
    WordCountClean(letter, hash, nReduce, ss[0].fs, inputs);
    WordCountInsensitive(letter, hash, nReduce);
    var keys := AllOutput(WordCountJob(letter, hash, nReduce), ss, ls, inputs);
    CountsExactly(letter, hash, nReduce, ss[0].fs, inputs, keys, line);
  }

  /** The same for the sequential program, however its sort arranges equal keys. */
  lemma SequentialCounts(letter: char -> bool, hash: string -> nat, nReduce: Pos, fs: Fs, inputs: seq<string>,
                         sorted: seq<KeyValue>, text: string, line: string)
    requires Sensible(letter)
    requires var job := WordCountJob(letter, hash, nReduce); IsOutput(job, Mapped(job, fs, Inputs(inputs)), sorted, text)
    ensures multiset(FullLines(text))[line] == if IsCount(letter, fs, inputs, line) then 1 else 0
  {
    WordCountInsensitive(letter, hash, nReduce);
    SequentialOutput(WordCountJob(letter, hash, nReduce), fs, inputs, sorted, text);
    CountsExactly(letter, hash, nReduce, fs, inputs, KeyOrder(sorted), line);
  }
}
