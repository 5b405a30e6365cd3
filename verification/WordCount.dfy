/** The word-count application (wc.go), for which the conditions of the equivalence theorem always hold. */
module WordCount {
  import opened Rpc
  import opened Bags
  import opened Wire
  import opened Names
  import opened Files
  import opened Work
  import opened Sequential
  import opened Cluster
  import opened ReduceSide
  import opened SameOutput

  /** The words met so far and the one being read. */
  datatype Scan = Scan(words: seq<string>, word: string)

  function Scanned(letter: char -> bool, s: string): Scan
  {
    if s == "" then Scan([], "") else
    var before, c := Scanned(letter, s[..|s| - 1]), s[|s| - 1];
    if letter(c) then Scan(before.words, before.word + [c])
    else if before.word == "" then before
    else Scan(before.words + [before.word], "")
  }

  /** strings.FieldsFunc: the longest runs of letters. */
  function Fields(letter: char -> bool, s: string): seq<string>
  {
    var scan := Scanned(letter, s);
    scan.words + if scan.word == "" then [] else [scan.word]
  }

  function Map(letter: char -> bool): (string, string) -> seq<KeyValue>
  {
    (file: string, contents: string) =>
      var words := Fields(letter, contents);
      seq(|words|, i requires 0 <= i < |words| => KeyValue(words[i], "1"))
  }

  function Reduce(): (string, seq<string>) -> string { (key: string, values: seq<string>) => Dec(|values|) }

  function WordCountJob(letter: char -> bool, hash: string -> nat, nReduce: Pos): Job
  {
    Job(Map(letter), Reduce(), hash, nReduce)
  }

  ghost predicate Letters(letter: char -> bool, s: string)
  {
    forall i :: 0 <= i < |s| ==> letter(s[i])
  }

  lemma {:induction false} ScannedLetters(letter: char -> bool, s: string)
    ensures Letters(letter, Scanned(letter, s).word)
    ensures forall i :: 0 <= i < |Scanned(letter, s).words| ==> Letters(letter, Scanned(letter, s).words[i])
  {
    if s != "" { ScannedLetters(letter, s[..|s| - 1]); }
  }

  /** What unicode.IsLetter does not count as a letter. */
  ghost predicate Sensible(letter: char -> bool)
  {
    !letter(':') && forall c :: IsSpace(c) ==> !letter(c)
  }

  lemma WordClean(letter: char -> bool, w: string)
    requires Sensible(letter) && Letters(letter, w)
    ensures Clean(KeyValue(w, "1"))
  {
    assert IsSpace('\n');
    forall i {:trigger OccursAt(w, SEP, i)} ensures !OccursAt(w, SEP, i) { SepIsColons(w, i); }
  }

  /** Word count writes only what the text form can carry, whatever the inputs are. */
  lemma WordCountClean(letter: char -> bool, hash: string -> nat, nReduce: Pos, fs0: Fs, inputs: seq<string>)
    requires Sensible(letter)
    ensures CleanJob(WordCountJob(letter, hash, nReduce), fs0, inputs)
  {
    var job := WordCountJob(letter, hash, nReduce);
    forall i, k | 0 <= i < |inputs| && 0 <= k < |Mapped(job, fs0, [Input(inputs[i])])|
      ensures Clean(Mapped(job, fs0, [Input(inputs[i])])[k])
    {
      var n := Input(inputs[i]);
      var contents := Content(fs0, n);
      assert [n][..0] == [];
      assert Mapped(job, fs0, [n]) == [] + job.mapf(Text(n), contents) == job.mapf(Text(n), contents);
      ScannedLetters(letter, contents);
      assert Letters(letter, Fields(letter, contents)[k]);
      WordClean(letter, Fields(letter, contents)[k]);
    }
  }

  lemma WordCountInsensitive(letter: char -> bool, hash: string -> nat, nReduce: Pos)
    ensures OrderInsensitive(WordCountJob(letter, hash, nReduce))
  {
    var job := WordCountJob(letter, hash, nReduce);
    forall key, vs, ws | multiset(vs) == multiset(ws) ensures job.reducef(key, vs) == job.reducef(key, ws) {
      assert |multiset(vs)| == |vs| && |multiset(ws)| == |ws|;
    }
  }

  /** Distributed word count: for every run without reduce timeouts that ends, the same lines as in one process. */
  lemma WordCountSame(letter: char -> bool, hash: string -> nat, nReduce: Pos,
                      ss: seq<Sys>, ls: seq<Label>, inputs: seq<string>, sorted: seq<KeyValue>, text: string)
    requires Sensible(letter)
    requires Run(WordCountJob(letter, hash, nReduce), ss, ls, inputs) && ss[|ls|].done && NoReduceTimeout(ss[|ls|])
    requires var job := WordCountJob(letter, hash, nReduce); IsOutput(job, Mapped(job, ss[0].fs, Inputs(inputs)), sorted, text)
    ensures OutputLines(ss[|ls|].fs, nReduce) == multiset(FullLines(text))
  {
    WordCountClean(letter, hash, nReduce, ss[0].fs, inputs);
    WordCountInsensitive(letter, hash, nReduce);
    SameAsSequential(WordCountJob(letter, hash, nReduce), ss, ls, inputs, sorted, text);
  }
}
