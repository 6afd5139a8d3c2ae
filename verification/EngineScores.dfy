/** The scores a running engine returns: their bound, their exact value, and what ties leave open. */
module EngineScores {
  import opened Sums
  import opened RecencyList
  import opened Tokenizer
  import opened TermFrequency
  import opened SearchSpec
  import opened Scoring
  import opened ScoreBounds
  import opened Engine
  import opened EngineInvariants

  // ---------- frequencies the engine can use ----------

  lemma GoodFrequency(origin: map<DocId, string>, word: string, ps: seq<Posting>, d: DocId)
    requires ps == [] || GoodPostings(origin, word, ps)
    requires d in origin
    ensures 0.0 <= FrequencyIn(ps, d) <= OwnFrequency(Tokenize(origin[d]), word)
  {
    hide Tokenize, StoredFrequency;
    var doc := Tokenize(origin[d]);
    if word in doc {
      StoredRange(doc, word);
    }
    FrequencyAt(ps, d);
    if i :| 0 <= i < |ps| && ps[i].docId == d {
      assert ps[i] in ps;
    }
  }

  /** However stale the posting cache is, a posting it gives a document carries the frequency of the
      document's own text. */
  lemma ViewFrequency(c: Config, w: World, tokens: seq<string>, run: SearchRun, word: string, d: DocId)
    requires Inv(c, w) && d in w.origin && word in tokens
    requires run.rows == [] || Selects(run.rows, w.tf, Missed(w.tfCache, tokens))
    ensures 0.0 <= FrequencyIn(View(w.tfCache, run.rows, word), d) <= OwnFrequency(Tokenize(w.origin[d]), word)
  {
    hide Tokenize, StoredFrequency, FrequencyIn, OwnFrequency, IndexMatches, GoodPostings, GroupOf;
    var ps := View(w.tfCache, run.rows, word);
    if Resident(w.tfCache, word) {
      LookupFound(w.tfCache, word);
      assert Entry(word, ps) in w.tfCache;
    } else if run.rows == [] {
      GroupOfNothing(word);
    } else {
      MissedMembers(w.tfCache, tokens);
      SelectedGroup(run.rows, w.tf, Missed(w.tfCache, tokens), word);
      if ps != [] {
        SelectedPostingsGood(c, w, ps, word);
      }
    }
    GoodFrequency(w.origin, word, ps, d);
  }

  lemma GroupOfNothing(word: string)
    ensures GroupOf([], word) == []
  {
  }

  /** A scored document was issued an id, and its text contains a query word. */
  lemma ScoredWasIssued(c: Config, w: World, tokens: seq<string>, run: SearchRun, d: DocId)
    requires run.rows == [] || Selects(run.rows, w.tf, Missed(w.tfCache, tokens))
    requires Inv(c, w)
    requires exists r :: r in Records(w, tokens, run) && r.docId == d
    ensures d in w.origin && Tokenize(w.origin[d]) != []
  {
    hide Tokenize, StoredFrequency, Missed, HitRecords, Lookup;
    var r :| r in Records(w, tokens, run) && r.docId == d;
    HitMembers(w.tfCache, tokens);
    if r in HitRecords(w.tfCache, tokens) {
      LookupFound(w.tfCache, r.word);
      var ps := Lookup(w.tfCache, r.word).value;
      assert Entry(r.word, ps) in w.tfCache && Posting(d, r.wordFrequency) in ps;
    } else {
      var i :| 0 <= i < |run.rows| && run.rows[i] == r;
      assert (d, r.word) in w.tf;
    }
  }

  // ---------- bounds ----------

  lemma ScoreOf(w: World, tokens: seq<string>, run: SearchRun, topK: int, i: nat)
    requires tokens != [] && i < |run.ranked|
    requires TopK(run.ranked, Scores(Records(w, tokens, run), w.idf, |tokens|), topK)
    ensures var d := run.ranked[i].docId;
            && run.ranked[i].score == TotalScore(Records(w, tokens, run), d, w.idf) / |tokens| as real
            && exists r :: r in Records(w, tokens, run) && r.docId == d
  {
    hide TotalScore, Records;
    assert run.ranked[i].docId in Scores(Records(w, tokens, run), w.idf, |tokens|);
  }

  lemma QuotientWithin(x: real, n: real, b: real)
    requires 0.0 < n && -(n * b) <= x <= n * b
    ensures -b <= x / n <= b
  {
    DivisionBound(x, n, b);
    DivisionBound(-x, n, b);
    assert (-x) / n == -(x / n) by {
      assert (x / n) * n == x && ((-x) / n) * n == -x;
      assert (x / n + (-x) / n) * n == 0.0;
    }
  }

  lemma ScoreWithin(c: Config, w: World, tokens: seq<string>, run: SearchRun, topK: int, i: nat, bound: real)
    requires Inv(c, w) && tokens != [] && i < |run.ranked|
    requires run.rows == [] || Selects(run.rows, w.tf, Missed(w.tfCache, tokens))
    requires TopK(run.ranked, Scores(Records(w, tokens, run), w.idf, |tokens|), topK)
    requires IdfWithin(w.idf, bound) && 0.0 <= bound
    ensures -bound <= run.ranked[i].score <= bound
  {
    hide Inv, Tokenize, TotalScore, FrequencyIn, OwnFrequency, View, Missed, HitRecords, Scores, IdfWithin, TopK;
    var d := run.ranked[i].docId;
    ScoreOf(w, tokens, run, topK, i);
    ScoredWasIssued(c, w, tokens, run, d);
    forall word | word in tokens ensures 0.0 <= FrequencyIn(View(w.tfCache, run.rows, word), d) <= 1.0 {
      ViewFrequency(c, w, tokens, run, word, d);
      OwnAtMostOne(Tokenize(w.origin[d]), word);
    }
    TotalBound(w.tfCache, run.rows, tokens, w.idf, d, bound);
    QuotientWithin(TotalScore(Records(w, tokens, run), d, w.idf), |tokens| as real, bound);
  }

  /** In every reachable state, whatever the caches hold: if every idf lies within the bound, so does
      every score. */
  lemma ScoresWithinBound(c: Config, worlds: seq<World>, reqs: seq<Request>, n: nat, query: string, topK: int,
                          run: SearchRun, results: seq<SearchResult>, bound: real)
    requires Behaviour(c, worlds, reqs) && n < |reqs| && reqs[n] == Search(query, topK, run, results)
    requires IdfWithin(worlds[n].idf, bound) && 0.0 <= bound
    ensures forall r :: r in results ==> -bound <= r.score <= bound
  {
    hide Tokenize, Missed, Records, Scores, Fetch, TopK, IdfWithin, Inv;
    BehaviourInv(c, worlds, reqs, n);
    assert Next(c, worlds[n], reqs[n], worlds[n + 1]);
    if Tokenize(query) != [] {
      SearchTexts(c, worlds, reqs, n, query, topK, run, results);
      forall i | 0 <= i < |results| ensures -bound <= results[i].score <= bound {
        ScoreWithin(c, worlds[n], Tokenize(query), run, topK, i, bound);
      }
    }
  }

  lemma OwnAtMostOne(doc: seq<string>, word: string)
    requires doc != []
    ensures OwnFrequency(doc, word) <= 1.0
  {
    hide StoredFrequency;
    if word in doc {
      StoredRange(doc, word);
    }
  }

  lemma DistinctScoreWithin(c: Config, w: World, tokens: seq<string>, run: SearchRun, topK: int, i: nat, bound: real)
    requires Inv(c, w) && tokens != [] && Distinct(tokens) && i < |run.ranked|
    requires run.rows == [] || Selects(run.rows, w.tf, Missed(w.tfCache, tokens))
    requires TopK(run.ranked, Scores(Records(w, tokens, run), w.idf, |tokens|), topK)
    requires IdfWithin(w.idf, bound) && 0.0 <= bound
    ensures -DistinctLimit(bound, |tokens|) <= run.ranked[i].score * |tokens| as real <= DistinctLimit(bound, |tokens|)
  {
    hide DistinctLimit, Inv, Tokenize, TotalScore, FrequencyIn, OwnFrequency, View, Missed, HitRecords, Scores,
         IdfWithin, TopK;
    var d := run.ranked[i].docId;
    ScoreOf(w, tokens, run, topK, i);
    ScoredWasIssued(c, w, tokens, run, d);
    forall word | word in tokens
      ensures 0.0 <= FrequencyIn(View(w.tfCache, run.rows, word), d) <= OwnFrequency(Tokenize(w.origin[d]), word)
    {
      ViewFrequency(c, w, tokens, run, word, d);
    }
    DistinctTotalBound(w.tfCache, run.rows, tokens, w.idf, d, Tokenize(w.origin[d]), bound);
    QuotientTimes(TotalScore(Records(w, tokens, run), d, w.idf), |tokens| as real);
    assert run.ranked[i].score * |tokens| as real == TotalScore(Records(w, tokens, run), d, w.idf);
  }

  /** With n distinct query tokens the total, n times the score, is within the bound as well, up to
      the rounding of the stored frequencies: half a unit of the sixth decimal per token. */
  lemma DistinctScoresWithinBound(c: Config, worlds: seq<World>, reqs: seq<Request>, n: nat, query: string, topK: int,
                                  run: SearchRun, results: seq<SearchResult>, bound: real)
    requires Behaviour(c, worlds, reqs) && n < |reqs| && reqs[n] == Search(query, topK, run, results)
    requires IdfWithin(worlds[n].idf, bound) && 0.0 <= bound
    requires Distinct(Tokenize(query))
    ensures var k := |Tokenize(query)|;
            forall r :: r in results ==> -DistinctLimit(bound, k) <= r.score * k as real <= DistinctLimit(bound, k)
  {
    hide Tokenize, Missed, Records, Scores, Fetch, TopK, IdfWithin, Inv, DistinctLimit;
    var k := |Tokenize(query)|;
    BehaviourInv(c, worlds, reqs, n);
    assert Next(c, worlds[n], reqs[n], worlds[n + 1]);
    if Tokenize(query) != [] {
      SearchTexts(c, worlds, reqs, n, query, topK, run, results);
      forall i | 0 <= i < |results|
        ensures -DistinctLimit(bound, k) <= results[i].score * k as real <= DistinctLimit(bound, k)
      {
        DistinctScoreWithin(c, worlds[n], Tokenize(query), run, topK, i, bound);
      }
    }
  }

  lemma QuotientTimes(x: real, n: real)
    requires n != 0.0
    ensures (x / n) * n == x
  {
  }

  // ---------- what a search returns ----------

  /** Every returned score is the exact one: over the distinct query words, multiplicity times
      frequency times idf, divided by the number of tokens. */
  lemma ReturnedScoresExact(c: Config, worlds: seq<World>, reqs: seq<Request>, n: nat, query: string, topK: int,
                            run: SearchRun, results: seq<SearchResult>, ws: seq<string>, r: SearchResult,
                            share: string -> real)
    requires Behaviour(c, worlds, reqs) && n < |reqs| && reqs[n] == Search(query, topK, run, results)
    requires r in results && Lists(ws, set w | w in Tokenize(query))
    requires forall w :: share(w) == Share(worlds[n].tfCache, run.rows, Tokenize(query), worlds[n].idf, r.docId, w)
    ensures Tokenize(query) != [] && r.score == Sum(ws, share) / |Tokenize(query)| as real
  {
    hide Tokenize, TotalScore, Share, HitRecords, Scores, TopK, Fetch, Missed, Inv;
    var w, tokens := worlds[n], Tokenize(query);
    assert Next(c, w, reqs[n], worlds[n + 1]);
    SearchTexts(c, worlds, reqs, n, query, topK, run, results);
    var i :| 0 <= i < |results| && results[i] == r;
    ScoreOf(w, tokens, run, topK, i);
    RowsWereMissed(w, tokens, run);
    ExactTotal(w.tfCache, run.rows, tokens, ws, r.docId, w.idf, share);
  }

  lemma RowsWereMissed(w: World, tokens: seq<string>, run: SearchRun)
    requires run.rows == [] || Selects(run.rows, w.tf, Missed(w.tfCache, tokens))
    ensures forall i :: 0 <= i < |run.rows| ==> run.rows[i].word in Missed(w.tfCache, tokens)
  {
    hide Missed;
  }

  /** The results: as many as top_k allows, distinct documents, best first; and no scored document
      that was left out scores above a returned one. */
  lemma ReturnedBestFirst(c: Config, worlds: seq<World>, reqs: seq<Request>, n: nat, query: string, topK: int,
                          run: SearchRun, results: seq<SearchResult>)
    requires Behaviour(c, worlds, reqs) && n < |reqs| && reqs[n] == Search(query, topK, run, results)
    requires Tokenize(query) != []
    ensures var scores := Scores(Records(worlds[n], Tokenize(query), run), worlds[n].idf, |Tokenize(query)|);
            && (0 <= topK <= |scores| ==> |results| == topK)
            && (topK < 0 || topK >= |scores| ==> |results| == |scores|)
            && (forall i, j :: 0 <= i < j < |results| ==>
                  results[i].docId != results[j].docId && results[i].score >= results[j].score)
            && (forall i :: 0 <= i < |results| ==> results[i].docId in scores)
            && (forall d, i ::
                  d in scores && 0 <= i < |results| && (forall j :: 0 <= j < |results| ==> results[j].docId != d)
                  ==> scores[d] <= results[i].score)
  {
    hide Tokenize, Scores, Records, Fetch, Missed, Inv;
    assert Next(c, worlds[n], reqs[n], worlds[n + 1]);
    SearchTexts(c, worlds, reqs, n, query, topK, run, results);
    var scores := Scores(Records(worlds[n], Tokenize(query), run), worlds[n].idf, |Tokenize(query)|);
    forall d, i | d in scores && 0 <= i < |results| && (forall j :: 0 <= j < |results| ==> results[j].docId != d)
      ensures scores[d] <= results[i].score
    {
      assert forall j :: 0 <= j < |run.ranked| ==> run.ranked[j].docId == results[j].docId;
    }
  }

  // ---------- ties ----------

  ghost function DocsUpTo(ranked: seq<Scored>, n: nat): set<DocId>
    requires n <= |ranked|
  {
    set i | 0 <= i < n :: ranked[i].docId
  }

  lemma {:induction false} DocsUpToSize(ranked: seq<Scored>, n: nat)
    requires n <= |ranked| && forall i, j :: 0 <= i < j < |ranked| ==> ranked[i].docId != ranked[j].docId
    ensures |DocsUpTo(ranked, n)| == n
  {
    if n > 0 {
      DocsUpToSize(ranked, n - 1);
      assert DocsUpTo(ranked, n) == DocsUpTo(ranked, n - 1) + {ranked[n - 1].docId};
    }
  }

  /** A scored document that scores above position i of b is listed before i in b. */
  lemma AboveIsEarlier(b: seq<Scored>, scores: map<DocId, real>, topK: int, i: nat, d: DocId)
    requires TopK(b, scores, topK) && i < |b| && d in scores && scores[d] > b[i].score
    ensures d in DocsUpTo(b, i)
  {
    var j :| 0 <= j < |b| && b[j].docId == d;
    assert b[j].score == scores[d];
    assert j < i;
  }

  lemma AtLeast(a: seq<Scored>, scores: map<DocId, real>, topK: int, i: nat, d: DocId)
    requires TopK(a, scores, topK) && i < |a| && d in DocsUpTo(a, i + 1)
    ensures d in scores && scores[d] >= a[i].score
  {
    var k :| 0 <= k < i + 1 && a[k].docId == d;
    assert a[k].score >= a[i].score;
  }

  lemma AboveAreEarlier(a: seq<Scored>, b: seq<Scored>, scores: map<DocId, real>, topK: int, i: nat)
    requires TopK(a, scores, topK) && TopK(b, scores, topK) && i < |a| && |b| == |a| && a[i].score > b[i].score
    ensures DocsUpTo(a, i + 1) <= DocsUpTo(b, i)
  {
    hide TopK, DocsUpTo;
    forall d | d in DocsUpTo(a, i + 1) ensures d in DocsUpTo(b, i) {
      AtLeast(a, scores, topK, i, d);
      AboveIsEarlier(b, scores, topK, i, d);
    }
  }

  lemma NotAbove(a: seq<Scored>, b: seq<Scored>, scores: map<DocId, real>, topK: int, i: nat)
    requires TopK(a, scores, topK) && TopK(b, scores, topK) && i < |a|
    ensures a[i].score <= b[i].score
  {
    DocsUpToSize(a, i + 1);
    DocsUpToSize(b, i);
    if a[i].score > b[i].score {
      hide TopK, DocsUpTo;
      AboveAreEarlier(a, b, scores, topK, i);
      SubsetCardinality(DocsUpTo(a, i + 1), DocsUpTo(b, i));
    }
  }

  /** Ties may change which documents are returned, but never the scores. */
  lemma TopKScoresDetermined(a: seq<Scored>, b: seq<Scored>, scores: map<DocId, real>, topK: int)
    requires TopK(a, scores, topK) && TopK(b, scores, topK)
    ensures |a| == |b| && forall i :: 0 <= i < |a| ==> a[i].score == b[i].score
  {
    forall i | 0 <= i < |a| ensures a[i].score == b[i].score {
      NotAbove(a, b, scores, topK, i);
      NotAbove(b, a, scores, topK, i);
    }
  }
}
