/** How large a score can get. */
module ScoreBounds {
  import opened Sums
  import opened TermFrequency
  import opened SearchSpec
  import opened Scoring

  /** Every idf value lies in [-bound, bound]. */
  ghost predicate IdfWithin(idf: map<string, real>, bound: real) {
    forall w :: w in idf ==> -bound <= idf[w] <= bound
  }

  lemma ProductBound(f: real, x: real, bound: real)
    requires 0.0 <= f && -bound <= x <= bound
    ensures -(f * bound) <= f * x <= f * bound
  {
    assert f * (bound - x) >= 0.0 && f * (bound + x) >= 0.0;
  }

  lemma UnitProduct(f: real, x: real, bound: real)
    requires 0.0 <= f <= 1.0 && -bound <= x <= bound
    ensures -bound <= f * x <= bound
  {
    ProductBound(f, x, bound);
    assert (1.0 - f) * bound >= 0.0;
    assert f * bound <= bound;
  }

  lemma {:induction false} TimesBound(m: nat, k: nat, x: real, bound: real)
    requires m <= k && 0.0 <= bound && -bound <= x <= bound
    ensures -Times(k, bound) <= Times(m, x) <= Times(k, bound)
  {
    if m > 0 {
      TimesBound(m - 1, k - 1, x, bound);
    } else {
      TimesIsProduct(k, bound);
      TimesNonNegative(k, bound);
    }
  }

  lemma {:induction false} TimesNonNegative(k: nat, x: real)
    requires 0.0 <= x
    ensures 0.0 <= Times(k, x)
  {
    if k > 0 {
      TimesNonNegative(k - 1, x);
    }
  }

  lemma {:induction false} SumWithin<T>(ws: seq<T>, f: T -> real, g: T -> real)
    requires forall i :: 0 <= i < |ws| ==> -g(ws[i]) <= f(ws[i]) <= g(ws[i])
    ensures -Sum(ws, g) <= Sum(ws, f) <= Sum(ws, g)
  {
    if ws != [] {
      SumWithin(ws[1..], f, g);
    }
  }

  lemma WeighBound(ps: seq<Posting>, d: DocId, idf: map<string, real>, w: string, bound: real)
    requires IdfWithin(idf, bound) && 0.0 <= bound && 0.0 <= FrequencyIn(ps, d)
    ensures -(FrequencyIn(ps, d) * bound) <= Weigh(ps, d, idf, w) <= FrequencyIn(ps, d) * bound
  {
    hide FrequencyIn;
    ProductBound(FrequencyIn(ps, d), IdfOf(idf, w), bound);
  }

  lemma WeighWithin(ps: seq<Posting>, d: DocId, idf: map<string, real>, w: string, bound: real)
    requires IdfWithin(idf, bound) && 0.0 <= bound && 0.0 <= FrequencyIn(ps, d) <= 1.0
    ensures -bound <= Weigh(ps, d, idf, w) <= bound
  {
    hide FrequencyIn;
    UnitProduct(FrequencyIn(ps, d), IdfOf(idf, w), bound);
  }

  lemma ShareBound(cache: PostingCache, rs: seq<TermFrequency>, tokens: seq<string>, idf: map<string, real>, d: DocId,
                   w: string, bound: real)
    requires IdfWithin(idf, bound) && 0.0 <= bound && w in tokens
    requires 0.0 <= FrequencyIn(View(cache, rs, w), d) <= 1.0
    ensures -Times(Count(tokens, w), bound) <= Share(cache, rs, tokens, idf, d, w) <= Times(Count(tokens, w), bound)
  {
    hide Weigh, FrequencyIn, View, Times;
    WeighWithin(View(cache, rs, w), d, idf, w, bound);
    CountMember(tokens, w);
    TimesBound(Multiplicity(cache, tokens, w), Count(tokens, w), Weigh(View(cache, rs, w), d, idf, w), bound);
  }

  /** For every query: a document's total is at most the bound times the number of tokens, because
      no frequency exceeds 1 and no multiplicity exceeds the occurrences of the word. */
  lemma TotalBound(cache: PostingCache, rs: seq<TermFrequency>, tokens: seq<string>, idf: map<string, real>, d: DocId,
                   bound: real)
    requires IdfWithin(idf, bound) && 0.0 <= bound
    requires forall i :: 0 <= i < |rs| ==> rs[i].word in Missed(cache, tokens)
    requires forall w :: w in tokens ==> 0.0 <= FrequencyIn(View(cache, rs, w), d) <= 1.0
    ensures -(|tokens| as real * bound) <= TotalScore(HitRecords(cache, tokens) + rs, d, idf)
            <= |tokens| as real * bound
  {
    hide TotalScore, HitRecords, Missed, Share, FrequencyIn, View, Times;
    var ws := Dedup(tokens);
    DedupLists(tokens);
    var share: string -> real := w => Share(cache, rs, tokens, idf, d, w);
    var limit: string -> real := w => Times(Count(tokens, w), bound);
    var flat: string -> real := _ => bound;
    ExactTotal(cache, rs, tokens, ws, d, idf, share);
    forall i | 0 <= i < |ws| ensures -limit(ws[i]) <= share(ws[i]) <= limit(ws[i]) {
      assert ws[i] in ws;
      ShareBound(cache, rs, tokens, idf, d, ws[i], bound);
    }
    SumWithin(ws, share, limit);
    SumByMultiplicity(tokens, ws, flat, limit);
    SumConstant(tokens, flat, bound);
  }

  // ---------- distinct tokens ----------

  /** The frequency a correct posting list gives a document with the given tokens. */
  function OwnFrequency(doc: seq<string>, w: string): real {
    if w in doc then StoredFrequency(doc, w) else 0.0
  }

  lemma {:induction false} CountsWithin(doc: seq<string>, ws: seq<string>, count: string -> real)
    requires Distinct(ws) && forall w :: count(w) == Count(doc, w) as real
    ensures Sum(ws, count) <= |doc| as real
  {
    if doc == [] {
      SumConstant(ws, count, 0.0);
    } else {
      var rest: string -> real, only: string -> real :=
        w => Count(doc[1..], w) as real, w => if w == doc[0] then 1.0 else 0.0;
      CountsWithin(doc[1..], ws, rest);
      SumOnly(ws, doc[0], only);
      SumAdd(ws, rest, only, count);
    }
  }

  /** Over distinct words the frequencies of one document sum to at most 1. */
  lemma FrequenciesWithin(doc: seq<string>, ws: seq<string>, freq: string -> real)
    requires doc != [] && Distinct(ws) && forall w :: freq(w) == Frequency(doc, w)
    ensures Sum(ws, freq) <= 1.0
  {
    hide Frequency, Mul;
    var count: string -> real := w => Count(doc, w) as real;
    CountsWithin(doc, ws, count);
    forall i | 0 <= i < |ws| ensures count(ws[i]) == Mul(|doc| as real, freq(ws[i])) {
      FrequencyTimes(doc, ws[i]);
    }
    SumScale(ws, freq, |doc| as real, count);
    MulIsSelf(|doc| as real, Sum(ws, freq));
  }

  /** With rounding to six decimals, at most half a unit of the sixth decimal more per word. */
  lemma {:induction false} OwnWithin(doc: seq<string>, ws: seq<string>, own: string -> real, freq: string -> real)
    requires doc != [] && forall w :: own(w) == OwnFrequency(doc, w) && freq(w) == Frequency(doc, w)
    ensures Sum(ws, own) <= Sum(ws, freq) + |ws| as real * 0.0000005
  {
    if ws != [] {
      OwnWithin(doc, ws[1..], own, freq);
      RoundError(Frequency(doc, ws[0]));
      CountMember(doc, ws[0]);
    }
  }

  lemma OwnSumBound(doc: seq<string>, ws: seq<string>, own: string -> real)
    requires doc != [] && Distinct(ws) && forall w :: own(w) == OwnFrequency(doc, w)
    ensures Sum(ws, own) <= 1.0 + |ws| as real * 0.0000005
  {
    hide Frequency, OwnFrequency;
    var freq: string -> real := w => Frequency(doc, w);
    FrequenciesWithin(doc, ws, freq);
    OwnWithin(doc, ws, own, freq);
  }

  function ScaledOwn(bound: real, doc: seq<string>, w: string): real {
    Mul(bound, OwnFrequency(doc, w))
  }

  /** The bound for n words, with half a unit of the sixth decimal of slack per word. */
  function DistinctLimit(bound: real, n: nat): real {
    bound * (1.0 + n as real * 0.0000005)
  }

  lemma ScaledOwnSum(bound: real, doc: seq<string>, ws: seq<string>, limit: string -> real)
    requires doc != [] && Distinct(ws) && 0.0 <= bound && forall w :: limit(w) == ScaledOwn(bound, doc, w)
    ensures Sum(ws, limit) <= DistinctLimit(bound, |ws|)
  {
    hide OwnFrequency;
    var own: string -> real := w => OwnFrequency(doc, w);
    OwnSumBound(doc, ws, own);
    SumScale(ws, own, bound, limit);
    ScaleLeft(bound, Sum(ws, own), 1.0 + |ws| as real * 0.0000005);
  }

  /** For a query of n distinct tokens: a document's total is at most bound * (1 + n / 2 * 10^-6),
      because the frequencies of one document sum to 1 before rounding. */
  lemma DistinctTotalBound(cache: PostingCache, rs: seq<TermFrequency>, tokens: seq<string>, idf: map<string, real>,
                           d: DocId, doc: seq<string>, bound: real)
    requires Distinct(tokens) && doc != [] && IdfWithin(idf, bound) && 0.0 <= bound
    requires forall i :: 0 <= i < |rs| ==> rs[i].word in Missed(cache, tokens)
    requires forall w :: w in tokens ==> 0.0 <= FrequencyIn(View(cache, rs, w), d) <= OwnFrequency(doc, w)
    ensures -DistinctLimit(bound, |tokens|) <= TotalScore(HitRecords(cache, tokens) + rs, d, idf)
            <= DistinctLimit(bound, |tokens|)
  {
    hide TotalScore, HitRecords, Missed, Share, FrequencyIn, View, OwnFrequency, ScaledOwn, DistinctLimit;
    var share: string -> real := w => Share(cache, rs, tokens, idf, d, w);
    var limit: string -> real := w => ScaledOwn(bound, doc, w);
    ExactTotal(cache, rs, tokens, tokens, d, idf, share);
    forall i | 0 <= i < |tokens| ensures -limit(tokens[i]) <= share(tokens[i]) <= limit(tokens[i]) {
      DistinctShare(cache, rs, tokens, idf, d, tokens[i], doc, bound);
    }
    SumWithin(tokens, share, limit);
    ScaledOwnSum(bound, doc, tokens, limit);
  }

  lemma UsedShare(cache: PostingCache, rs: seq<TermFrequency>, tokens: seq<string>, d: DocId, w: string, bound: real,
                  f: real, idf: map<string, real>)
    requires Distinct(tokens) && w in tokens && 0.0 <= bound && IdfWithin(idf, bound)
    requires f == FrequencyIn(View(cache, rs, w), d) && 0.0 <= f
    ensures -Mul(bound, f) <= Share(cache, rs, tokens, idf, d, w) <= Mul(bound, f)
  {
    hide FrequencyIn, View, Weigh, Times;
    CountDistinct(tokens, w);
    TimesOne(Weigh(View(cache, rs, w), d, idf, w));
    WeighBound(View(cache, rs, w), d, idf, w, bound);
  }

  /** A token of a query without repetitions counts once, cached or not. */
  lemma FlatShare(cache: PostingCache, rs: seq<TermFrequency>, tokens: seq<string>, d: DocId, w: string,
                  idf: map<string, real>)
    requires Distinct(tokens) && w in tokens
    ensures Share(cache, rs, tokens, idf, d, w) == Mul(IdfOf(idf, w), FrequencyIn(View(cache, rs, w), d))
  {
    hide FrequencyIn, View, Weigh, Times;
    CountDistinct(tokens, w);
    TimesOne(Weigh(View(cache, rs, w), d, idf, w));
    WeighFlat(View(cache, rs, w), d, idf, w);
  }

  lemma WeighFlat(ps: seq<Posting>, d: DocId, idf: map<string, real>, w: string)
    ensures Weigh(ps, d, idf, w) == Mul(IdfOf(idf, w), FrequencyIn(ps, d))
  {
    hide FrequencyIn, IdfOf;
  }

  lemma UsedWithin(cache: PostingCache, rs: seq<TermFrequency>, tokens: seq<string>, d: DocId, bound: real,
                   used: string -> real, idf: map<string, real>)
    requires Distinct(tokens) && 0.0 < bound && IdfWithin(idf, bound) && Sum(tokens, used) <= 1.0
    requires forall i :: 0 <= i < |rs| ==> rs[i].word in Missed(cache, tokens)
    requires forall w :: used(w) == FrequencyIn(View(cache, rs, w), d)
    requires forall w :: w in tokens ==> 0.0 <= used(w)
    ensures -bound <= TotalScore(HitRecords(cache, tokens) + rs, d, idf) <= bound
  {
    hide TotalScore, HitRecords, Missed, FrequencyIn, View, Share, Mul;
    var share: string -> real := w => Share(cache, rs, tokens, idf, d, w);
    var limit: string -> real := w => Mul(bound, used(w));
    ExactTotal(cache, rs, tokens, tokens, d, idf, share);
    forall i | 0 <= i < |tokens| ensures -limit(tokens[i]) <= share(tokens[i]) <= limit(tokens[i]) {
      assert tokens[i] in tokens;
      UsedShare(cache, rs, tokens, d, tokens[i], bound, used(tokens[i]), idf);
    }
    SumWithin(tokens, share, limit);
    SumScale(tokens, used, bound, limit);
    MulAtMost(bound, Sum(tokens, used));
  }

  /** When every query word has the same idf, the total is that idf times the sum of the frequencies. */
  lemma FlatTotal(cache: PostingCache, rs: seq<TermFrequency>, tokens: seq<string>, d: DocId, value: real,
                  used: string -> real, idf: map<string, real>)
    requires Distinct(tokens) && forall w :: w in tokens ==> w in idf && idf[w] == value
    requires forall i :: 0 <= i < |rs| ==> rs[i].word in Missed(cache, tokens)
    requires forall w :: w in tokens ==> used(w) == FrequencyIn(View(cache, rs, w), d)
    ensures TotalScore(HitRecords(cache, tokens) + rs, d, idf) == Mul(value, Sum(tokens, used))
  {
    hide TotalScore, HitRecords, Missed, FrequencyIn, View, Share, Mul;
    var share: string -> real := w => Share(cache, rs, tokens, idf, d, w);
    ExactTotal(cache, rs, tokens, tokens, d, idf, share);
    forall i | 0 <= i < |tokens| ensures share(tokens[i]) == Mul(value, used(tokens[i])) {
      assert tokens[i] in tokens;
      FlatShare(cache, rs, tokens, d, tokens[i], idf);
    }
    SumScale(tokens, used, value, share);
  }

  lemma MulAtMost(b: real, x: real)
    requires 0.0 < b && x <= 1.0
    ensures Mul(b, x) <= b
  {
    assert b * (1.0 - x) >= 0.0;
  }

  lemma ScaleLeft(b: real, x: real, y: real)
    requires 0.0 <= b && x <= y
    ensures b * x <= b * y
  {
    assert b * (y - x) >= 0.0;
  }

  lemma DistinctShare(cache: PostingCache, rs: seq<TermFrequency>, tokens: seq<string>, idf: map<string, real>,
                      d: DocId, w: string, doc: seq<string>, bound: real)
    requires Distinct(tokens) && w in tokens && doc != [] && IdfWithin(idf, bound) && 0.0 <= bound
    requires 0.0 <= FrequencyIn(View(cache, rs, w), d) <= OwnFrequency(doc, w)
    ensures -ScaledOwn(bound, doc, w) <= Share(cache, rs, tokens, idf, d, w) <= ScaledOwn(bound, doc, w)
  {
    hide FrequencyIn, View, StoredFrequency, Weigh;
    var f := FrequencyIn(View(cache, rs, w), d);
    WeighBound(View(cache, rs, w), d, idf, w, bound);
    ScaleLeft(bound, f, OwnFrequency(doc, w));
    assert f * bound == bound * f;
    CountDistinct(tokens, w);
    TimesOne(Weigh(View(cache, rs, w), d, idf, w));
  }

  lemma SixthStored(doc: seq<string>, w: string)
    requires |doc| == 6 && Count(doc, w) == 1
    ensures StoredFrequency(doc, w) == 0.166667
  {
    assert Frequency(doc, w) == 1.0 / 6.0;
    var x := 1.0 / 6.0 * 1000000.0;
    assert x.Floor == 166666;
  }

  /** The slack is real: six distinct words that make up a document are each stored as 0.166667. */
  lemma SixWordsStored(doc: seq<string>, own: string -> real)
    requires Distinct(doc) && |doc| == 6 && forall w :: own(w) == OwnFrequency(doc, w)
    ensures Sum(doc, own) == 1.000002
  {
    hide StoredFrequency;
    forall i | 0 <= i < |doc| ensures own(doc[i]) == 0.166667 {
      assert doc[i] in doc;
      CountDistinct(doc, doc[i]);
      SixthStored(doc, doc[i]);
    }
    SumConstant(doc, own, 0.166667);
  }
}
