/** Term frequencies of one document: how often each token occurs, as a share of all tokens,
    and the value that reaches the term_frequency table. */
module TermFrequency {
  import opened Sums
  import opened Tokenizer

  /** An opaque document id in canonical spelling. */
  datatype DocId = DocId(n: nat)

  datatype TermFrequency = TermFrequency(docId: DocId, word: string, wordFrequency: real)

  function Frequency(tokens: seq<string>, w: string): real
    requires tokens != []
  {
    Count(tokens, w) as real / |tokens| as real
  }

  /** to_string on a float prints six decimals, halves to even; that text is what is inserted. */
  function Round6(x: real): real {
    var q := (x * 1000000.0).Floor;
    var r := x * 1000000.0 - q as real;
    (if r < 0.5 || (r == 0.5 && q % 2 == 0) then q else q + 1) as real / 1000000.0
  }

  function StoredFrequency(tokens: seq<string>, w: string): real
    requires tokens != []
  {
    Round6(Frequency(tokens, w))
  }

  /** The result of tokenize_and_compute: one entry per distinct token, in any order. */
  ghost predicate Computed(freqs: seq<TermFrequency>, docId: DocId, tokens: seq<string>) {
    && (forall i :: 0 <= i < |freqs| ==> freqs[i].word in tokens)
    && (forall i :: 0 <= i < |freqs| ==>
          freqs[i] == TermFrequency(docId, freqs[i].word, Frequency(tokens, freqs[i].word)))
    && (forall i, j :: 0 <= i < j < |freqs| ==> freqs[i].word != freqs[j].word)
    && (forall w :: w in tokens ==> exists i :: 0 <= i < |freqs| && freqs[i].word == w)
  }

  lemma {:induction false} CountSnoc(tokens: seq<string>, t: string, w: string)
    ensures Count(tokens + [t], w) == Count(tokens, w) + if t == w then 1 else 0
  {
    CountConcat(tokens, [t], w);
  }

  /** The counting loop over the tokens. */
  method CountWords(tokens: seq<string>) returns (wordCount: map<string, nat>)
    ensures forall w :: w in wordCount <==> w in tokens
    ensures forall w :: w in wordCount ==> wordCount[w] == Count(tokens, w)
  {
    wordCount := map[];
    for i := 0 to |tokens|
      invariant forall w :: w in wordCount <==> w in tokens[..i]
      invariant forall w :: w in wordCount ==> wordCount[w] == Count(tokens[..i], w)
    {
      var word := tokens[i];
      assert tokens[..i + 1] == tokens[..i] + [word];
      forall w ensures Count(tokens[..i + 1], w) == Count(tokens[..i], w) + if word == w then 1 else 0 {
        CountSnoc(tokens[..i], word, w);
      }
      CountMember(tokens[..i], word);
      wordCount := wordCount[word := (if word in wordCount then wordCount[word] else 0) + 1];
    }
    assert tokens[..|tokens|] == tokens;
  }

  /** Iteration over the unordered map visits the words in an arbitrary order. */
  method TokenizeAndCompute(docId: DocId, text: string) returns (freqs: seq<TermFrequency>)
    ensures Computed(freqs, docId, Tokenize(text))
  {
    var tokens := TokenizeText(text);
    var wordCount := CountWords(tokens);
    var totalWords := |tokens|;
    var rest := wordCount.Keys;
    freqs := [];
    while rest != {}
      invariant rest <= wordCount.Keys
      invariant forall i :: 0 <= i < |freqs| ==> freqs[i].word in wordCount.Keys - rest
      invariant forall i :: 0 <= i < |freqs| ==>
                  freqs[i] == TermFrequency(docId, freqs[i].word, Frequency(tokens, freqs[i].word))
      invariant forall i, j :: 0 <= i < j < |freqs| ==> freqs[i].word != freqs[j].word
      invariant forall w :: w in wordCount.Keys - rest ==> exists i :: 0 <= i < |freqs| && freqs[i].word == w
      decreases rest
    {
      var w :| w in rest;
      ghost var before, done := freqs, wordCount.Keys - rest;
      freqs := freqs + [TermFrequency(docId, w, wordCount[w] as real / totalWords as real)];
      rest := rest - {w};
      forall v | v in wordCount.Keys - rest ensures exists i :: 0 <= i < |freqs| && freqs[i].word == v {
        if v in done {
          var i :| 0 <= i < |before| && before[i].word == v;
          assert freqs[i].word == v;
        } else {
          assert freqs[|before|].word == v;
        }
      }
    }
    assert wordCount.Keys - rest == wordCount.Keys;
  }

  // ---------- conservation ----------

  ghost function WordsOf(freqs: seq<TermFrequency>): (ws: seq<string>)
    ensures |ws| == |freqs| && forall i :: 0 <= i < |ws| ==> ws[i] == freqs[i].word
  {
    seq(|freqs|, i requires 0 <= i < |freqs| => freqs[i].word)
  }

  lemma {:induction false} SumOfWords(freqs: seq<TermFrequency>, f: TermFrequency -> real, g: string -> real)
    requires forall i :: 0 <= i < |freqs| ==> f(freqs[i]) == g(freqs[i].word)
    ensures Sum(freqs, f) == Sum(WordsOf(freqs), g)
  {
    if freqs != [] {
      SumOfWords(freqs[1..], f, g);
      assert WordsOf(freqs)[1..] == WordsOf(freqs[1..]);
    }
  }

  lemma VocabularyCounts(tokens: seq<string>, ws: seq<string>)
    requires Lists(ws, set w | w in tokens)
    ensures Sum(ws, w => Count(tokens, w) as real) == |tokens| as real
  {
    var one: string -> real, count: string -> real := _ => 1.0, w => Count(tokens, w) as real;
    forall i | 0 <= i < |ws| ensures Times(Count(tokens, ws[i]), one(ws[i])) == count(ws[i]) {
      TimesIsProduct(Count(tokens, ws[i]), 1.0);
    }
    SumByMultiplicity(tokens, ws, one, count);
    SumConstant(tokens, one, 1.0);
  }

  /** Over any listing of the distinct tokens, the frequencies sum to 1. */
  lemma VocabularyFrequencies(tokens: seq<string>, ws: seq<string>)
    requires tokens != [] && Lists(ws, set w | w in tokens)
    ensures Sum(ws, w => Frequency(tokens, w)) == 1.0
  {
    hide Frequency, Mul;
    var n := |tokens| as real;
    var count: string -> real, freq: string -> real := w => Count(tokens, w) as real, w => Frequency(tokens, w);
    VocabularyCounts(tokens, ws);
    forall i | 0 <= i < |ws| ensures count(ws[i]) == Mul(n, freq(ws[i])) {
      FrequencyTimes(tokens, ws[i]);
    }
    SumScale(ws, freq, n, count);
    MulIsSelf(n, Sum(ws, freq));
  }

  lemma FrequencyTimes(tokens: seq<string>, w: string)
    requires tokens != []
    ensures Mul(|tokens| as real, Frequency(tokens, w)) == Count(tokens, w) as real
  {
  }

  lemma MulIsSelf(n: real, x: real)
    requires 0.0 < n
    ensures Mul(n, x) <= n ==> x <= 1.0
    ensures Mul(n, x) == n ==> x == 1.0
  {
    assert n * (1.0 - x) == n - n * x;
  }

  lemma FrequencyRange(tokens: seq<string>, w: string)
    requires tokens != [] && w in tokens
    ensures 0.0 < Frequency(tokens, w) <= 1.0
  {
    CountMember(tokens, w);
    var c, n := Count(tokens, w) as real, |tokens| as real;
    assert 0.0 < c <= n;
    DivisionInUnit(c, n);
  }

  lemma DivisionInUnit(c: real, n: real)
    requires 0.0 <= c && 0.0 < n
    ensures 0.0 <= c / n && (0.0 < c ==> 0.0 < c / n) && (c <= n ==> c / n <= 1.0)
  {
    var q := c / n;
    assert q * n == c;
  }

  /** The computed entries are one per distinct token, each in (0, 1], and together exactly 1. */
  lemma FrequenciesSumToOne(freqs: seq<TermFrequency>, docId: DocId, tokens: seq<string>)
    requires Computed(freqs, docId, tokens) && tokens != []
    ensures Sum(freqs, (tf: TermFrequency) => tf.wordFrequency) == 1.0
    ensures forall i :: 0 <= i < |freqs| ==> 0.0 < freqs[i].wordFrequency <= 1.0
    ensures |freqs| == |set w | w in tokens|
  {
    var ws := WordsOf(freqs);
    forall w ensures w in ws <==> w in tokens {
      if w in tokens {
        var i :| 0 <= i < |freqs| && freqs[i].word == w;
        assert ws[i] == w;
      }
    }
    VocabularyFrequencies(tokens, ws);
    SumOfWords(freqs, (tf: TermFrequency) => tf.wordFrequency, w => Frequency(tokens, w));
    forall i | 0 <= i < |freqs| ensures 0.0 < freqs[i].wordFrequency <= 1.0 {
      FrequencyRange(tokens, freqs[i].word);
    }
    DistinctCardinality(ws);
    assert (set w | w in ws) == (set w | w in tokens);
  }

  // ---------- rounding on insert ----------

  /** q millionths is what is stored exactly when it is nearest, an even one on a tie. */
  lemma RoundIsNearestEven(x: real, q: int)
    ensures Round6(x) == q as real / 1000000.0 <==>
              var r := x * 1000000.0 - q as real;
              -0.5 <= r <= 0.5 && (r == 0.5 || r == -0.5 ==> q % 2 == 0)
  {
    var y := x * 1000000.0;
    var f := y.Floor;
    assert f as real <= y < f as real + 1.0;
    if q < f {
      assert q as real <= f as real - 1.0;
    } else if q > f + 1 {
      assert q as real >= f as real + 2.0;
    }
  }

  lemma RoundError(x: real)
    ensures -0.0000005 <= Round6(x) - x <= 0.0000005
  {
  }

  lemma RoundMonotone(x: real, y: real)
    requires x <= y
    ensures Round6(x) <= Round6(y)
  {
    var p, q := (x * 1000000.0).Floor, (y * 1000000.0).Floor;
    assert p <= q;
  }

  lemma RoundUnit()
    ensures Round6(0.0) == 0.0 && Round6(1.0) == 1.0
  {
  }

  lemma StoredRange(tokens: seq<string>, w: string)
    requires tokens != [] && w in tokens
    ensures 0.0 <= StoredFrequency(tokens, w) <= 1.0
  {
    FrequencyRange(tokens, w);
    RoundUnit();
    RoundMonotone(0.0, Frequency(tokens, w));
    RoundMonotone(Frequency(tokens, w), 1.0);
  }

  /** A word that does occur is stored with frequency zero exactly when at most one token in two
      million is that word. */
  lemma StoredZero(tokens: seq<string>, w: string)
    requires tokens != []
    ensures StoredFrequency(tokens, w) == 0.0 <==> 2000000 * Count(tokens, w) <= |tokens|
  {
    var c, n := Count(tokens, w) as real, |tokens| as real;
    DivisionInUnit(c, n);
    DivisionBound(c, n, 0.0000005);
  }

  lemma DivisionBound(c: real, n: real, b: real)
    requires 0.0 < n
    ensures c / n <= b <==> c <= b * n
  {
    var q := c / n;
    assert q * n == c;
    assert (b - q) * n == b * n - c;
  }

  /** The stored frequencies of a document with n distinct tokens sum to 1 up to n half-units of
      the sixth decimal. */
  lemma StoredSumNearOne(tokens: seq<string>, ws: seq<string>)
    requires tokens != [] && Lists(ws, set w | w in tokens)
    ensures 1.0 - |ws| as real * 0.0000005 <= Sum(ws, w => StoredFrequency(tokens, w))
            <= 1.0 + |ws| as real * 0.0000005
  {
    VocabularyFrequencies(tokens, ws);
    StoredSumNear(tokens, ws);
  }

  /** The same for any part of the vocabulary. */
  lemma {:induction false} StoredSumNear(tokens: seq<string>, ws: seq<string>)
    requires tokens != []
    ensures -(|ws| as real) * 0.0000005
            <= Sum(ws, w => StoredFrequency(tokens, w)) - Sum(ws, w => Frequency(tokens, w))
            <= |ws| as real * 0.0000005
  {
    if ws != [] {
      StoredSumNear(tokens, ws[1..]);
      RoundError(Frequency(tokens, ws[0]));
    }
  }
}
