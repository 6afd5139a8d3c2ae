/** Extending runs of the engine: a search can always be carried out, whatever the caches hold. */
module EngineRuns {
  import opened Wrappers
  import opened Sums
  import opened RecencyList
  import opened Tokenizer
  import opened TermFrequency
  import opened SearchSpec
  import opened Scoring
  import opened Ranking
  import opened Engine
  import opened EngineInvariants
  import opened EngineScores

  lemma BehaviourSnoc(c: Config, worlds: seq<World>, reqs: seq<Request>, req: Request, w': World)
    requires Behaviour(c, worlds, reqs) && Next(c, worlds[|reqs|], req, w')
    ensures Behaviour(c, worlds + [w'], reqs + [req])
  {
    hide Next, Initial;
  }

  // ---------- a select that works ----------

  /** rows lists the rows of the given keys, each once. */
  ghost predicate ListsRows(rows: seq<TermFrequency>, tf: TermTable, keys: set<(DocId, string)>) {
    && (forall i :: 0 <= i < |rows| ==>
          var k := (rows[i].docId, rows[i].word); k in keys && k in tf && rows[i].wordFrequency == tf[k])
    && (forall i, j :: 0 <= i < j < |rows| ==> (rows[i].docId, rows[i].word) != (rows[j].docId, rows[j].word))
    && (forall d, w :: (d, w) in keys ==> exists i :: 0 <= i < |rows| && rows[i].docId == d && rows[i].word == w)
  }

  lemma {:induction false} RowsExist(tf: TermTable, keys: set<(DocId, string)>) returns (rows: seq<TermFrequency>)
    requires keys <= tf.Keys
    ensures ListsRows(rows, tf, keys)
    decreases keys
  {
    if keys == {} {
      rows := [];
    } else {
      var k :| k in keys;
      var rest := RowsExist(tf, keys - {k});
      rows := [TermFrequency(k.0, k.1, tf[k])] + rest;
      forall d, w | (d, w) in keys ensures exists i :: 0 <= i < |rows| && rows[i].docId == d && rows[i].word == w {
        if (d, w) == k {
          assert rows[0].docId == d && rows[0].word == w;
        } else {
          var i :| 0 <= i < |rest| && rest[i].docId == d && rest[i].word == w;
          assert rows[i + 1] == rest[i];
        }
      }
    }
  }

  lemma SelectionExists(tf: TermTable, words: seq<string>) returns (rows: seq<TermFrequency>)
    ensures Selects(rows, tf, words)
  {
    rows := RowsExist(tf, set k | k in tf && k.1 in words);
  }

  lemma OrderExists(rows: seq<TermFrequency>) returns (order: seq<string>)
    ensures GroupOrder(rows, order)
  {
    var words := WordsOf(rows);
    order := Dedup(words);
    DedupLists(words);
    forall w ensures w in words <==> exists i :: 0 <= i < |rows| && rows[i].word == w {
      if i :| 0 <= i < |rows| && rows[i].word == w {
        assert words[i] == w;
      }
    }
  }

  // ---------- a search that works ----------

  /** No select of the search fails. */
  ghost predicate SelectsWork(w: World, tokens: seq<string>, run: SearchRun) {
    && Selects(run.rows, w.tf, Missed(w.tfCache, tokens))
    && forall i :: 0 <= i < |run.fails| ==> !run.fails[i]
  }

  /** The step of a search whose choices are made and whose selects by id work. */
  lemma SearchWith(c: Config, w: World, query: string, topK: int, rows: seq<TermFrequency>, order: seq<string>,
                   ranked: seq<Scored>)
      returns (run: SearchRun, results: seq<SearchResult>, w': World)
    requires Tokenize(query) != [] && Selects(rows, w.tf, Missed(w.tfCache, Tokenize(query))) && GroupOrder(rows, order)
    requires TopK(ranked, Scores(HitRecords(w.tfCache, Tokenize(query)) + rows, w.idf, |Tokenize(query)|), topK)
    ensures SearchStep(c, w, query, topK, run, results, w') && SelectsWork(w, Tokenize(query), run)
    ensures run.rows == rows && run.ranked == ranked
  {
    hide Tokenize, HitRecords, Missed, Selects, GroupOrder, TopK, PutGroups, AfterGets, Fetch, Scores;
    run := SearchRun(rows, order, ranked, seq(|ranked|, _ => false));
    var fetched := Fetch(c.docCap, w.docCache, w.documents, ranked, run.fails);
    results := fetched.1;
    w' := w.(tfCache := PutGroups(c.tfCap, AfterGets(w.tfCache, Tokenize(query)), rows, order), docCache := fetched.0);
  }

  /** From every state every search can be carried out without a failing select; if it asks for
      enough results, it lists every scored document. */
  lemma SearchCanRun(c: Config, w: World, query: string, topK: int)
      returns (run: SearchRun, results: seq<SearchResult>, w': World)
    requires Tokenize(query) != []
    ensures SearchStep(c, w, query, topK, run, results, w') && SelectsWork(w, Tokenize(query), run)
    ensures var scores := Scores(Records(w, Tokenize(query), run), w.idf, |Tokenize(query)|);
            Limit(topK, |scores|) == |scores| ==>
              forall d :: d in scores ==> exists i :: 0 <= i < |run.ranked| && run.ranked[i].docId == d
  {
    hide Tokenize, HitRecords, Missed, Selects, GroupOrder, TopK, Scores, SearchStep, SelectsWork;
    var tokens := Tokenize(query);
    var rows := SelectionExists(w.tf, Missed(w.tfCache, tokens));
    var order := OrderExists(rows);
    var ranked := RankingExists(Scores(HitRecords(w.tfCache, tokens) + rows, w.idf, |tokens|), topK);
    run, results, w' := SearchWith(c, w, query, topK, rows, order, ranked);
  }

  lemma {:induction false} WeightlessTotal(rs: seq<TermFrequency>, d: DocId, idf: map<string, real>)
    requires forall i :: 0 <= i < |rs| ==> IdfOf(idf, rs[i].word) == 0.0
    ensures TotalScore(rs, d, idf) == 0.0
  {
    if rs != [] {
      WeightlessTotal(rs[1..], d, idf);
    }
  }

  /** When its words weigh nothing, all documents tie, and a search for any number of results can list
      first whichever cached document it likes. */
  lemma TiedSearchCanList(c: Config, w: World, query: string, topK: int, d: DocId)
      returns (run: SearchRun, results: seq<SearchResult>, w': World)
    requires Tokenize(query) != [] && topK != 0 && forall t :: t in Tokenize(query) ==> IdfOf(w.idf, t) == 0.0
    requires exists r :: r in HitRecords(w.tfCache, Tokenize(query)) && r.docId == d
    ensures SearchStep(c, w, query, topK, run, results, w') && SelectsWork(w, Tokenize(query), run)
    ensures run.ranked != [] && run.ranked[0].docId == d
  {
    hide Tokenize, HitRecords, Missed, Selects, GroupOrder, TopK, SearchStep, SelectsWork, TotalScore, IdfOf;
    var tokens := Tokenize(query);
    var rows := SelectionExists(w.tf, Missed(w.tfCache, tokens));
    var order := OrderExists(rows);
    var records := HitRecords(w.tfCache, tokens) + rows;
    SearchedWords(w, tokens, rows);
    var scores := Scores(records, w.idf, |tokens|);
    var r :| r in HitRecords(w.tfCache, tokens) && r.docId == d;
    assert r in records && d in scores;
    forall e | e in scores ensures scores[e] == 0.0 {
      WeightlessTotal(records, e, w.idf);
      assert 0.0 / |tokens| as real == 0.0;
    }
    var ranked := RankingWithFirst(scores, topK, d);
    run, results, w' := SearchWith(c, w, query, topK, rows, order, ranked);
  }

  lemma SearchedWords(w: World, tokens: seq<string>, rows: seq<TermFrequency>)
    requires Selects(rows, w.tf, Missed(w.tfCache, tokens))
    ensures var records := HitRecords(w.tfCache, tokens) + rows;
            forall i :: 0 <= i < |records| ==> records[i].word in tokens
  {
    hide HitRecords, Missed;
    HitMembers(w.tfCache, tokens);
    MissedMembers(w.tfCache, tokens);
    var records := HitRecords(w.tfCache, tokens) + rows;
    forall i | 0 <= i < |records| ensures records[i].word in tokens {
      if i < |HitRecords(w.tfCache, tokens)| {
        assert records[i] in HitRecords(w.tfCache, tokens);
      }
    }
  }

  /** Only documents that were ever inserted are scored. */
  lemma ScoredWithin(c: Config, w: World, tokens: seq<string>, run: SearchRun)
    requires Inv(c, w) && tokens != []
    requires run.rows == [] || Selects(run.rows, w.tf, Missed(w.tfCache, tokens))
    ensures |Scores(Records(w, tokens, run), w.idf, |tokens|)| <= |w.origin|
  {
    hide Inv, Tokenize, Missed, Records, TotalScore;
    var scores := Scores(Records(w, tokens, run), w.idf, |tokens|);
    forall d | d in scores ensures d in w.origin {
      ScoredWasIssued(c, w, tokens, run, d);
    }
    SubsetCardinality(scores.Keys, w.origin.Keys);
  }

  // ---------- the shortest runs ----------

  const FIRST := DocId(0)

  /** The engine with one stored document, in an empty system. */
  function OneDocument(text: string): World {
    World(map[FIRST := text], map[] + RowsOf(FIRST, text), [Entry(FIRST, text)], [], map[], map[FIRST := text])
  }

  lemma CreateFirst(c: Config, text: string)
    requires Tokenize(text) != []
    ensures Behaviour(c, [World(map[], map[], [], [], map[], map[]), OneDocument(text)],
                      [Create(text, Some(FIRST), Some(FIRST))])
  {
    hide Tokenize, RowsOf;
    var empty := World(map[], map[], [], [], map[], map[]);
    assert AfterPut(c.docCap, empty.docCache, FIRST, text) == [Entry(FIRST, text)];
    assert CreateStep(c, empty, text, Some(FIRST), Some(FIRST), OneDocument(text));
  }

  lemma RowPresent(text: string, word: string)
    requires word in Tokenize(text)
    ensures (FIRST, word) in OneDocument(text).tf
  {
    hide Tokenize, StoredFrequency;
  }
}
