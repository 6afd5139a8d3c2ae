/** The exact condition, checked on a text and a query, under which the bound for distinct query words
    holds in every reachable state; and a run that violates it. */
module ScoreRuns {
  import opened Wrappers
  import opened Sums
  import opened Tokenizer
  import opened TokenizerLaws
  import opened TermFrequency
  import opened SearchSpec
  import opened Scoring
  import opened ScoreBounds
  import opened Engine
  import opened EngineInvariants
  import opened EngineScores
  import opened EngineRuns
  import opened Database
  import opened IdfUpdater
  import opened IdfRuns

  // ---------- one stored document and empty caches ----------

  /** Over the index of one document, what a word contributes is the frequency of the document's text. */
  lemma OnlyDocumentFrequency(text: string, d: DocId, tokens: seq<string>, rows: seq<TermFrequency>, word: string)
    requires Selects(rows, RowsOf(d, text), tokens) && word in tokens
    ensures FrequencyIn(View([], rows, word), d) == OwnFrequency(Tokenize(text), word)
  {
    hide Tokenize, StoredFrequency, FrequencyIn, GroupOf;
    SelectedGroup(rows, RowsOf(d, text), tokens, word);
    PostingListFrequency(GroupOf(rows, word), RowsOf(d, text), word, d);
  }

  lemma OnlyDocumentTotal(text: string, d: DocId, tokens: seq<string>, rows: seq<TermFrequency>, value: real,
                          own: string -> real, idf: map<string, real>)
    requires Selects(rows, RowsOf(d, text), tokens) && Distinct(tokens)
    requires forall w :: w in tokens ==> w in idf && idf[w] == value
    requires forall w :: own(w) == OwnFrequency(Tokenize(text), w)
    ensures HitRecords([], tokens) + rows == rows
    ensures TotalScore(rows, d, idf) == Mul(value, Sum(tokens, own))
  {
    hide Tokenize, RowsOf, OwnFrequency, FrequencyIn, View, TotalScore, HitRecords, Missed;
    MissedByEmpty(tokens);
    forall w | w in tokens ensures own(w) == FrequencyIn(View([], rows, w), d) {
      OnlyDocumentFrequency(text, d, tokens, rows, w);
    }
    FlatTotal([], rows, tokens, d, value, own, idf);
    assert [] + rows == rows;
  }

  /** Any text of six distinct tokens, searched for when its words all have the same idf, totals 1.000002
      times that idf. */
  lemma SixWordSearch(text: string, rows: seq<TermFrequency>, idf: map<string, real>, d: DocId, value: real)
    requires Distinct(Tokenize(text)) && |Tokenize(text)| == 6
    requires Selects(rows, RowsOf(d, text), Tokenize(text))
    requires forall w :: w in Tokenize(text) ==> w in idf && idf[w] == value
    ensures TotalScore(rows, d, idf) == 1.000002 * value
  {
    hide Tokenize, RowsOf, OwnFrequency, TotalScore;
    var own: string -> real := w => OwnFrequency(Tokenize(text), w);
    OnlyDocumentTotal(text, d, Tokenize(text), rows, value, own, idf);
    SixWordsStored(Tokenize(text), own);
  }

  /** Store a text, install an IDF table, search: the search starts from this state. */
  function Indexed(text: string, table: map<string, real>): World {
    OneDocument(text).(idf := table)
  }

  ghost predicate ThreeRequests(reqs: seq<Request>, text: string, table: map<string, real>, query: string) {
    && |reqs| == 3
    && reqs[0] == Create(text, Some(FIRST), Some(FIRST))
    && reqs[1] == UpdateIdf(table)
    && reqs[2].Search? && reqs[2].query == query && reqs[2].topK == 3
  }

  lemma UpdatedRun(c: Config, text: string, table: map<string, real>)
    requires Tokenize(text) != []
    ensures Behaviour(c, [World(map[], map[], [], [], map[], map[]), OneDocument(text), Indexed(text, table)],
                      [Create(text, Some(FIRST), Some(FIRST)), UpdateIdf(table)])
  {
    hide Tokenize, RowsOf, Behaviour;
    CreateFirst(c, text);
    var empty, create := World(map[], map[], [], [], map[], map[]), Create(text, Some(FIRST), Some(FIRST));
    BehaviourSnoc(c, [empty, OneDocument(text)], [create], UpdateIdf(table), Indexed(text, table));
    assert [empty, OneDocument(text), Indexed(text, table)] == [empty, OneDocument(text)] + [Indexed(text, table)];
    assert [create, UpdateIdf(table)] == [create] + [UpdateIdf(table)];
  }

  /** The stored document is scored by every query that shares a word with it. */
  lemma SharedWordIsScored(text: string, table: map<string, real>, tokens: seq<string>, word: string, run: SearchRun)
    requires word in tokens && word in Tokenize(text) && SelectsWork(Indexed(text, table), tokens, run)
    ensures Selects(run.rows, RowsOf(FIRST, text), tokens)
    ensures FIRST in Scores(Records(Indexed(text, table), tokens, run), table, |tokens|)
  {
    hide Tokenize, RowsOf, TotalScore, HitRecords, Missed;
    assert Indexed(text, table).tf == RowsOf(FIRST, text);
    MissedByEmpty(tokens);
    RowPresent(text, word);
    var i :| 0 <= i < |run.rows| && run.rows[i].docId == FIRST && run.rows[i].word == word;
    assert run.rows[i] in Records(Indexed(text, table), tokens, run);
  }

  lemma SelectsOf(w: World, tokens: seq<string>, run: SearchRun)
    requires SelectsWork(w, tokens, run)
    ensures Selects(run.rows, w.tf, Missed(w.tfCache, tokens))
  {
  }

  lemma RankedScore(c: Config, w: World, query: string, topK: int, run: SearchRun, results: seq<SearchResult>,
                    w': World, i: nat)
    requires SearchStep(c, w, query, topK, run, results, w') && Tokenize(query) != [] && i < |run.ranked|
    ensures run.ranked[i].score * |Tokenize(query)| as real
         == TotalScore(HitRecords(w.tfCache, Tokenize(query)) + run.rows, run.ranked[i].docId, w.idf)
  {
    hide Tokenize, TotalScore, Scores, TopK, HitRecords, Missed;
    ScoreOf(w, Tokenize(query), run, topK, i);
    QuotientTimes(TotalScore(Records(w, Tokenize(query), run), run.ranked[i].docId, w.idf), |Tokenize(query)| as real);
  }

  /** The search over the one document: it is ranked, with the score in closed form. */
  lemma OneDocumentSearch(c: Config, text: string, query: string, table: map<string, real>, value: real,
                          own: string -> real)
      returns (run: SearchRun, results: seq<SearchResult>, w': World, i: nat)
    requires Inv(c, Indexed(text, table))
    requires Distinct(Tokenize(query)) && exists w :: w in Tokenize(query) && w in Tokenize(text)
    requires forall w :: w in Tokenize(query) ==> w in table && table[w] == value
    requires forall w :: own(w) == OwnFrequency(Tokenize(text), w)
    ensures SearchStep(c, Indexed(text, table), query, 3, run, results, w')
    ensures i < |run.ranked| && run.ranked[i].docId == FIRST
    ensures run.ranked[i].score * |Tokenize(query)| as real == Mul(value, Sum(Tokenize(query), own))
  {
    hide Tokenize, RowsOf, OwnFrequency, SearchStep, SelectsWork, Scores, TotalScore, Records, HitRecords, Inv, TopK,
         Mul, Distinct;
    var w, tokens := Indexed(text, table), Tokenize(query);
    var word :| word in tokens && word in Tokenize(text);
    run, results, w' := SearchCanRun(c, w, query, 3);
    SelectsOf(w, tokens, run);
    ScoredWithin(c, w, tokens, run);
    SharedWordIsScored(text, table, tokens, word, run);
    i :| 0 <= i < |run.ranked| && run.ranked[i].docId == FIRST;
    RankedScore(c, w, query, 3, run, results, w', i);
    OnlyDocumentTotal(text, FIRST, tokens, run.rows, value, own, table);
  }

  /** One document, one idf value for all query words: the search lists the document, and its score times
      the number of query words is the value times the sum of the document's own frequencies. */
  lemma OneDocumentRun(c: Config, text: string, query: string, table: map<string, real>, value: real,
                       own: string -> real)
      returns (worlds: seq<World>, reqs: seq<Request>, r: SearchResult)
    requires Distinct(Tokenize(query)) && exists w :: w in Tokenize(query) && w in Tokenize(text)
    requires forall w :: w in Tokenize(query) ==> w in table && table[w] == value
    requires forall w :: own(w) == OwnFrequency(Tokenize(text), w)
    ensures Behaviour(c, worlds, reqs) && ThreeRequests(reqs, text, table, query)
    ensures worlds[1] == OneDocument(text) && worlds[2] == Indexed(text, table)
    ensures r in reqs[2].results && r.docId == FIRST
    ensures r.score * |Tokenize(query)| as real == Mul(value, Sum(Tokenize(query), own))
  {
    hide Tokenize, OwnFrequency, Behaviour, SearchStep, Inv, Mul, Sum, Distinct, OneDocument, Indexed;
    var empty, w1, w2 := World(map[], map[], [], [], map[], map[]), OneDocument(text), Indexed(text, table);
    var create := Create(text, Some(FIRST), Some(FIRST));
    UpdatedRun(c, text, table);
    BehaviourInv(c, [empty, w1, w2], [create, UpdateIdf(table)], 2);
    var run, results, w3, i := OneDocumentSearch(c, text, query, table, value, own);
    var search := Search(query, 3, run, results);
    BehaviourSnoc(c, [empty, w1, w2], [create, UpdateIdf(table)], search, w3);
    worlds, reqs := [empty, w1, w2] + [w3], [create, UpdateIdf(table)] + [search];
    SearchTexts(c, worlds, reqs, 2, query, 3, run, results);
    r := results[i];
  }

  // ---------- the exact condition ----------

  /** Some run returns r for the query, in a state whose idf values lie within the bound, and r's document
      was inserted with the text. */
  ghost predicate Returns(c: Config, worlds: seq<World>, reqs: seq<Request>, n: nat, text: string, query: string,
                          bound: real, r: SearchResult)
  {
    && Behaviour(c, worlds, reqs) && n < |reqs|
    && reqs[n].Search? && reqs[n].query == query && r in reqs[n].results
    && IdfWithin(worlds[n].idf, bound)
    && r.docId in worlds[n].origin && worlds[n].origin[r.docId] == text
  }

  /** Whatever happened before and whatever the caches hold: the total of such a result is within the bound. */
  ghost predicate TotalsWithin(c: Config, text: string, query: string, bound: real) {
    forall worlds, reqs, n, r :: Returns(c, worlds, reqs, n, text, query, bound, r) ==>
      -bound <= r.score * |Tokenize(query)| as real <= bound
  }

  /** The frequencies a search uses for a document are at most those of its text, so their sum is. */
  lemma UsedAtMostOwn(c: Config, w: World, tokens: seq<string>, run: SearchRun, d: DocId, used: string -> real,
                      own: string -> real)
    requires Inv(c, w) && d in w.origin && RowsFit(w, tokens, run)
    requires forall x :: used(x) == FrequencyIn(View(w.tfCache, run.rows, x), d)
    requires forall x :: own(x) == OwnFrequency(Tokenize(w.origin[d]), x)
    ensures forall x :: x in tokens ==> 0.0 <= used(x)
    ensures Sum(tokens, used) <= Sum(tokens, own)
  {
    hide Inv, Tokenize, FrequencyIn, View, OwnFrequency, Missed;
    forall x | x in tokens ensures 0.0 <= used(x) <= own(x) {
      ViewFrequency(c, w, tokens, run, x, d);
    }
    forall i | 0 <= i < |tokens| ensures used(tokens[i]) <= own(tokens[i]) {
      assert tokens[i] in tokens;
    }
    SumMonotone(tokens, used, own);
  }

  ghost predicate RowsFit(w: World, tokens: seq<string>, run: SearchRun) {
    run.rows == [] || Selects(run.rows, w.tf, Missed(w.tfCache, tokens))
  }

  lemma TotalWithin(c: Config, w: World, tokens: seq<string>, run: SearchRun, d: DocId, bound: real,
                    own: string -> real)
    requires Inv(c, w) && d in w.origin && RowsFit(w, tokens, run) && Distinct(tokens)
    requires 0.0 < bound && IdfWithin(w.idf, bound)
    requires forall x :: own(x) == OwnFrequency(Tokenize(w.origin[d]), x)
    requires Sum(tokens, own) <= 1.0
    ensures -bound <= TotalScore(HitRecords(w.tfCache, tokens) + run.rows, d, w.idf) <= bound
  {
    hide Inv, Tokenize, FrequencyIn, View, OwnFrequency, Missed, HitRecords, TotalScore, IdfWithin, Sum, Distinct;
    var used: string -> real := x => FrequencyIn(View(w.tfCache, run.rows, x), d);
    UsedAtMostOwn(c, w, tokens, run, d, used, own);
    RowsWereMissed(w, tokens, run);
    UsedWithin(w.tfCache, run.rows, tokens, d, bound, used, w.idf);
  }

  /** A returned score times the number of query words is the total of its document. */
  lemma ReturnedTotal(c: Config, worlds: seq<World>, reqs: seq<Request>, n: nat, r: SearchResult)
    requires Behaviour(c, worlds, reqs) && n < |reqs| && reqs[n].Search? && r in reqs[n].results
    ensures var w, tokens, run := worlds[n], Tokenize(reqs[n].query), reqs[n].run;
            && tokens != [] && RowsFit(w, tokens, run)
            && r.score * |tokens| as real == TotalScore(HitRecords(w.tfCache, tokens) + run.rows, r.docId, w.idf)
  {
    hide Tokenize, Missed, HitRecords, TotalScore, Scores, TopK, Fetch;
    var w, query, run := worlds[n], reqs[n].query, reqs[n].run;
    assert Next(c, w, reqs[n], worlds[n + 1]);
    SearchTexts(c, worlds, reqs, n, query, reqs[n].topK, run, reqs[n].results);
    var i :| 0 <= i < |reqs[n].results| && reqs[n].results[i] == r;
    RankedScore(c, w, query, reqs[n].topK, run, reqs[n].results, worlds[n + 1], i);
  }

  lemma ReturnedWithin(c: Config, worlds: seq<World>, reqs: seq<Request>, n: nat, text: string, query: string,
                       bound: real, r: SearchResult, own: string -> real)
    requires Returns(c, worlds, reqs, n, text, query, bound, r) && Distinct(Tokenize(query)) && 0.0 < bound
    requires forall w :: own(w) == OwnFrequency(Tokenize(text), w)
    requires Sum(Tokenize(query), own) <= 1.0
    ensures -bound <= r.score * |Tokenize(query)| as real <= bound
  {
    hide Behaviour, Inv, Tokenize, OwnFrequency, HitRecords, TotalScore, IdfWithin, Sum, Distinct, RowsFit;
    Lengths(c, worlds, reqs);
    BehaviourInv(c, worlds, reqs, n);
    ReturnedTotal(c, worlds, reqs, n, r);
    TotalWithin(c, worlds[n], Tokenize(query), reqs[n].run, r.docId, bound, own);
  }

  lemma MulAboveBound(b: real, x: real)
    requires 0.0 < b && 1.0 < x
    ensures Mul(b, x) > b
  {
    assert b * (x - 1.0) > 0.0;
  }

  /** If the frequencies sum to more than 1 the query shares a word with the text. */
  lemma SharesWord(tokens: seq<string>, doc: seq<string>, own: string -> real)
    requires forall w :: own(w) == OwnFrequency(doc, w)
    requires Sum(tokens, own) > 1.0
    ensures exists w :: w in tokens && w in doc
  {
    if forall i :: 0 <= i < |tokens| ==> tokens[i] !in doc {
      SumConstant(tokens, own, 0.0);
    }
  }

  lemma BoundExceeded(c: Config, text: string, query: string, bound: real, own: string -> real)
    requires Distinct(Tokenize(query)) && 0.0 < bound && Sum(Tokenize(query), own) > 1.0
    requires forall w :: own(w) == OwnFrequency(Tokenize(text), w)
    ensures !TotalsWithin(c, text, query, bound)
  {
    hide Tokenize, OwnFrequency, Returns, Mul, Behaviour, ThreeRequests, Sum, Distinct;
    var tokens := Tokenize(query);
    var table := map w | w in tokens :: bound;
    SharesWord(tokens, Tokenize(text), own);
    var worlds, reqs, r := OneDocumentRun(c, text, query, table, bound, own);
    ReturnsIt(c, worlds, reqs, text, query, table, bound, r);
    MulAboveBound(bound, Sum(tokens, own));
  }

  /** The bound for distinct query words holds in every reachable state, for a text and a query, if and
      only if the text's stored frequencies of the query words sum to at most 1. */
  lemma DistinctBoundIff(c: Config, text: string, query: string, bound: real, own: string -> real)
    requires Distinct(Tokenize(query)) && 0.0 < bound
    requires forall w :: own(w) == OwnFrequency(Tokenize(text), w)
    ensures TotalsWithin(c, text, query, bound) <==> Sum(Tokenize(query), own) <= 1.0
  {
    hide Tokenize, OwnFrequency, Returns, Mul;
    var tokens := Tokenize(query);
    if Sum(tokens, own) <= 1.0 {
      forall worlds, reqs, n, r | Returns(c, worlds, reqs, n, text, query, bound, r)
        ensures -bound <= r.score * |tokens| as real <= bound
      {
        ReturnedWithin(c, worlds, reqs, n, text, query, bound, r, own);
      }
    } else {
      BoundExceeded(c, text, query, bound, own);
    }
  }

  lemma ReturnsIt(c: Config, worlds: seq<World>, reqs: seq<Request>, text: string, query: string,
                  table: map<string, real>, bound: real, r: SearchResult)
    requires Behaviour(c, worlds, reqs) && ThreeRequests(reqs, text, table, query) && worlds[2] == Indexed(text, table)
    requires r in reqs[2].results && r.docId == FIRST && IdfWithin(table, bound)
    ensures Returns(c, worlds, reqs, 2, text, query, bound, r)
  {
    hide Behaviour;
  }

  // ---------- a violating run, with the values the updater writes ----------

  /** One count of 1 for each of the words. */
  function Ones(words: seq<string>): (stats: seq<IdfStats>)
    ensures |stats| == |words| && forall i :: 0 <= i < |stats| ==> stats[i] == IdfStats(words[i], 1)
  {
    seq(|words|, i requires 0 <= i < |words| => IdfStats(words[i], 1))
  }

  lemma CountsOfOne(text: string, tf: TermTable)
    requires Distinct(Tokenize(text)) && tf == OneDocument(text).tf
    ensures Groups(Ones(Tokenize(text)), tf)
  {
    hide Tokenize, StoredFrequency, DocumentsWith;
    var tokens, stats := Tokenize(text), Ones(Tokenize(text));
    forall i | 0 <= i < |stats| ensures DocumentsWith(tf, stats[i].word) == {FIRST} {
      assert tokens[i] in tokens;
      DocumentsWithIsRows(tf, tokens[i]);
    }
    forall k | k in tf ensures exists i :: 0 <= i < |stats| && stats[i].word == k.1 {
      var i :| 0 <= i < |tokens| && tokens[i] == k.1;
      assert stats[i].word == k.1;
    }
  }

  /** What the updater writes after the first document: every word has ln(1/2). */
  lemma FirstRound(ln: real -> real, tokens: seq<string>) returns (table: map<string, real>)
    ensures RoundResult(ln, map[], Ones(tokens), 1, table)
    ensures forall w :: w in table <==> w in tokens
    ensures forall w :: w in table ==> table[w] == ln(0.5)
  {
    table := map w | w in tokens :: ln(0.5);
    forall i | 0 <= i < |tokens| ensures tokens[i] in tokens && IdfValue(ln, 1, 1) == ln(0.5) {
    }
    forall w | w in tokens ensures Counted(Ones(tokens), w) {
      var i :| 0 <= i < |tokens| && tokens[i] == w;
      assert Ones(tokens)[i].word == w;
    }
  }

  /** There is a text of six distinct tokens. */
  lemma SixWordText()
    ensures exists text :: Distinct(Tokenize(text)) && |Tokenize(text)| == 6
  {
    hide Tokenize, Join, IsToken;
    // the words b to g
    var tokens: seq<string> := seq(6, i requires 0 <= i < 6 => [('b' as int + i) as char]);
    forall i | 0 <= i < |tokens| ensures IsToken(tokens[i]) {
      LetterIsToken(('b' as int + i) as char);
    }
    forall i, j | 0 <= i < j < |tokens| ensures tokens[i] != tokens[j] {
      assert tokens[i][0] != tokens[j][0];
    }
    TokenizeJoin(tokens);
    assert Distinct(Tokenize(Join(tokens)));
  }

  lemma LetterIsToken(c: char)
    requires 'b' <= c <= 'g'
    ensures IsToken([c])
  {
    var w := [c];
    assert |w| == 1 && w[0] == c;
    assert !IsStopword(w);
  }

  lemma FirstRoundOnly(ln: real -> real, worlds: seq<World>, reqs: seq<Request>, text: string, table: map<string, real>)
    requires ThreeRequests(reqs, text, table, text) && |worlds| == 4 && worlds[1] == OneDocument(text)
    requires Distinct(Tokenize(text)) && RoundResult(ln, map[], Ones(Tokenize(text)), 1, table)
    ensures RoundsOnly(ln, true, worlds, reqs)
  {
    hide Tokenize, RoundResult, Groups, RowsOf;
    CountsOfOne(text, OneDocument(text).tf);
    assert WriteAt(ln, worlds, 1, 1, 1, Ones(Tokenize(text)), 1, Ones(Tokenize(text)), table);
  }

  /** The bound for distinct words fails in a run the system can have: store a text of six distinct tokens,
      let the updater run its round, and search for the same text. Every idf is ln(1/2), but the total is
      1.000002 times that. */
  lemma SixWordRun(c: Config, ln: real -> real, text: string)
    requires IsLogarithm(ln) && Distinct(Tokenize(text)) && |Tokenize(text)| == 6
    ensures exists worlds: seq<World>, reqs: seq<Request>, table, r: SearchResult ::
              && Returns(c, worlds, reqs, 2, text, text, -ln(0.5), r) && RoundsOnly(ln, true, worlds, reqs)
              && ThreeRequests(reqs, text, table, text) && r.score * 6.0 == 1.000002 * ln(0.5) < ln(0.5)
  {
    hide Tokenize, OwnFrequency, Behaviour, Returns, RoundResult, RoundsOnly, IsLogarithm, Indexed, OneDocument, Sum,
         ThreeRequests;
    var own: string -> real := w => OwnFrequency(Tokenize(text), w);
    var table := FirstRound(ln, Tokenize(text));
    assert Tokenize(text)[0] in Tokenize(text);
    var worlds, reqs, r := OneDocumentRun(c, text, text, table, ln(0.5), own);
    SixWordsStored(Tokenize(text), own);
    HalfIsNegative(ln);
    assert |worlds| == 4 by {
      Lengths(c, worlds, reqs);
      ThreeLong(reqs, text, table, text);
    }
    FirstRoundOnly(ln, worlds, reqs, text, table);
    assert IdfWithin(table, -ln(0.5));
    ReturnsIt(c, worlds, reqs, text, text, table, -ln(0.5), r);
  }

  lemma HalfIsNegative(ln: real -> real)
    requires IsLogarithm(ln)
    ensures ln(0.5) < 0.0
  {
    assert ln(0.5) < ln(1.0);
  }

  lemma ThreeLong(reqs: seq<Request>, text: string, table: map<string, real>, query: string)
    requires ThreeRequests(reqs, text, table, query)
    ensures |reqs| == 3
  {
  }
}
