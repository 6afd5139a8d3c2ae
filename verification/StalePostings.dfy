/** Whether searches go on listing a document after its delete. The delete clears the posting cache only
    if the document was in the document cache; the repository's description says it always does. */
module StalePostings {
  import opened Wrappers
  import opened Sums
  import opened RecencyList
  import opened Tokenizer
  import opened TokenizerLaws
  import opened TermFrequency
  import opened SearchSpec
  import opened Scoring
  import opened Engine
  import opened EngineInvariants
  import opened EngineScores
  import opened EngineRuns

  /** Some cached posting list mentions the id. */
  ghost predicate Posted(w: World, id: DocId) {
    !Unposted(w, id)
  }

  /** Request n is a search whose results list the id. */
  ghost predicate ListsAt(reqs: seq<Request>, n: nat, id: DocId) {
    n < |reqs| && reqs[n].Search? && exists r :: r in reqs[n].results && r.docId == id
  }

  // ---------- when the delete is final for searches ----------

  lemma UnpostedUnscored(c: Config, w: World, tokens: seq<string>, run: SearchRun, id: DocId)
    requires Inv(c, w) && Gone(w, id) && Unposted(w, id)
    requires run.rows == [] || Selects(run.rows, w.tf, Missed(w.tfCache, tokens))
    ensures forall r :: r in Records(w, tokens, run) ==> r.docId != id
  {
    hide Tokenize, StoredFrequency, Missed, HitRecords, Lookup, GoodPostings;
    HitMembers(w.tfCache, tokens);
    forall r | r in Records(w, tokens, run) ensures r.docId != id {
      if r in HitRecords(w.tfCache, tokens) {
        LookupFound(w.tfCache, r.word);
        assert Entry(r.word, Lookup(w.tfCache, r.word).value) in w.tfCache;
      } else {
        var i :| 0 <= i < |run.rows| && run.rows[i] == r;
        assert (r.docId, r.word) in w.tf;
      }
    }
  }

  lemma NotListed(c: Config, worlds: seq<World>, reqs: seq<Request>, n: nat, id: DocId)
    requires Behaviour(c, worlds, reqs) && n < |reqs| && Gone(worlds[n], id) && Unposted(worlds[n], id)
    ensures !ListsAt(reqs, n, id)
  {
    hide Tokenize, Gone, Unposted, Inv, Records, TotalScore, TopK, Missed;
    if reqs[n].Search? && Tokenize(reqs[n].query) != [] {
      var w, tokens, run := worlds[n], Tokenize(reqs[n].query), reqs[n].run;
      assert Next(c, w, reqs[n], worlds[n + 1]);
      BehaviourInv(c, worlds, reqs, n);
      UnpostedUnscored(c, w, tokens, run, id);
      SearchTexts(c, worlds, reqs, n, reqs[n].query, reqs[n].topK, run, reqs[n].results);
      forall r | r in reqs[n].results ensures r.docId != id {
        var i :| 0 <= i < |reqs[n].results| && reqs[n].results[i] == r;
        ScoreOf(w, tokens, run, reqs[n].topK, i);
      }
    } else {
      assert Next(c, worlds[n], reqs[n], worlds[n + 1]);
    }
  }

  /** After the delete the document is gone; its postings stay exactly if they were there and the
      document was not cached. */
  lemma AfterDelete(c: Config, worlds: seq<World>, reqs: seq<Request>, i: nat, id: DocId)
    requires Behaviour(c, worlds, reqs) && i < |reqs| && reqs[i] == Delete(id, true)
    ensures Gone(worlds[i + 1], id)
    ensures Posted(worlds[i + 1], id) <==> Posted(worlds[i], id) && !Resident(worlds[i].docCache, id)
  {
    hide Tokenize, IndexMatches, GoodPostings;
    BehaviourInv(c, worlds, reqs, i);
    assert Next(c, worlds[i], reqs[i], worlds[i + 1]);
    WithoutLookup(worlds[i].docCache, id, id);
  }

  /** If the document was cached, or in no cached posting list, then after its delete no search of
      any run lists it again. */
  lemma NeverListedAgain(c: Config, worlds: seq<World>, reqs: seq<Request>, i: nat, n: nat, id: DocId)
    requires Behaviour(c, worlds, reqs) && i < n < |reqs| && reqs[i] == Delete(id, true)
    requires Resident(worlds[i].docCache, id) || !Posted(worlds[i], id)
    ensures !ListsAt(reqs, n, id)
  {
    hide Behaviour, Gone, Unposted, ListsAt, Lookup;
    assert |worlds| == |reqs| + 1 by {
      Lengths(c, worlds, reqs);
    }
    AfterDelete(c, worlds, reqs, i, id);
    GoneForever(c, worlds, reqs, id, i + 1, n);
    NotListed(c, worlds, reqs, n, id);
  }

  // ---------- when it is not ----------

  /** A cached word finds every document of its list. */
  lemma PostedIsScored(c: Config, w: World, word: string, ps: seq<Posting>, p: Posting, run: SearchRun)
    requires Inv(c, w) && Entry(word, ps) in w.tfCache && p in ps
    ensures p.docId in Scores(Records(w, [word], run), w.idf, 1)
  {
    hide Tokenize, IndexMatches, GoodPostings, HitRecords, TotalScore, Lookup;
    LookupIsMembership(w.tfCache, word, ps);
    HitMembers(w.tfCache, [word]);
    var r := TermFrequency(p.docId, word, p.frequency);
    assert r in HitRecords(w.tfCache, [word]);
    assert r in Records(w, [word], run);
  }

  /** A word of a cached list is a query that tokenizes to itself. */
  lemma PostedWord(c: Config, w: World, e: Entry<string, seq<Posting>>)
    requires Inv(c, w) && e in w.tfCache && e.value != []
    ensures Tokenize(e.key) == [e.key]
  {
    hide Tokenize, IndexMatches, StoredFrequency, IsToken;
    var p := e.value[0];
    assert p in e.value && GoodPostings(w.origin, e.key, e.value);
    TokenShape(w.origin[p.docId]);
    var i :| 0 <= i < |Tokenize(w.origin[p.docId])| && Tokenize(w.origin[p.docId])[i] == e.key;
    TokenizeToken(e.key);
  }

  /** From a state whose posting cache mentions a document that is gone, a search for the word of that
      list, asking for enough results, lists the document with an empty text. */
  lemma PostedIsListed(c: Config, worlds: seq<World>, reqs: seq<Request>, id: DocId, topK: int)
      returns (req: Request, w': World)
    requires Behaviour(c, worlds, reqs) && Posted(worlds[|reqs|], id) && id !in worlds[|reqs|].documents
    requires |worlds[|reqs|].origin| <= topK
    ensures Behaviour(c, worlds + [w'], reqs + [req])
    ensures req.Search? && req.topK == topK && exists r :: r in req.results && r.docId == id && r.text == ""
  {
    hide Inv, Tokenize, SearchStep, Records, Scores, Missed, Selects, GoodPostings;
    var w := worlds[|reqs|];
    BehaviourInv(c, worlds, reqs, |reqs|);
    var e, p :| e in w.tfCache && p in e.value && p.docId == id;
    PostedWord(c, w, e);
    var run, results;
    run, results, w' := SearchCanRun(c, w, e.key, topK);
    ScoredWithin(c, w, [e.key], run);
    PostedIsScored(c, w, e.key, e.value, p, run);
    var i :| 0 <= i < |run.ranked| && run.ranked[i].docId == id;
    req := Search(e.key, topK, run, results);
    BehaviourSnoc(c, worlds, reqs, req, w');
    assert (worlds + [w'])[|reqs|] == w && (reqs + [req])[|reqs|] == req;
    SearchTexts(c, worlds + [w'], reqs + [req], |reqs|, e.key, topK, run, results);
    assert results[i] in results && results[i].docId == id && results[i].text == "";
  }

  /** A cached word finds every document of its list, before anything is selected. */
  lemma PostedIsHit(c: Config, w: World, word: string, ps: seq<Posting>, p: Posting)
    requires Inv(c, w) && Entry(word, ps) in w.tfCache && p in ps
    ensures exists r :: r in HitRecords(w.tfCache, [word]) && r.docId == p.docId
  {
    hide Tokenize, IndexMatches, GoodPostings, HitRecords, Lookup;
    LookupIsMembership(w.tfCache, word, ps);
    HitMembers(w.tfCache, [word]);
    assert TermFrequency(p.docId, word, p.frequency) in HitRecords(w.tfCache, [word]);
  }

  /** However few results a search asks for: once the IDF table gives the word of the list the value 0, which
      the updater writes when all documents but one contain it, the documents tie and the sort may put the
      deleted one first. */
  lemma PostedIsListedFirst(c: Config, worlds: seq<World>, reqs: seq<Request>, id: DocId, topK: int)
      returns (update: Request, mid: World, req: Request, w': World)
    requires Behaviour(c, worlds, reqs) && Posted(worlds[|reqs|], id) && id !in worlds[|reqs|].documents && topK != 0
    ensures Behaviour(c, worlds + [mid] + [w'], reqs + [update] + [req])
    ensures update.UpdateIdf? && req.Search? && req.topK == topK
    ensures exists r :: r in req.results && r.docId == id && r.text == ""
  {
    hide Inv, Tokenize, SearchStep, HitRecords, Scores, Missed, Selects, GoodPostings, TopK, SelectsWork;
    var w, n := worlds[|reqs|], |reqs|;
    BehaviourInv(c, worlds, reqs, n);
    var e, p :| e in w.tfCache && p in e.value && p.docId == id;
    PostedWord(c, w, e);
    PostedIsHit(c, w, e.key, e.value, p);
    update, mid := UpdateIdf(w.idf[e.key := 0.0]), w.(idf := w.idf[e.key := 0.0]);
    BehaviourSnoc(c, worlds, reqs, update, mid);
    var run, results;
    run, results, w' := TiedSearchCanList(c, mid, e.key, topK, id);
    req := Search(e.key, topK, run, results);
    ListedFirst(c, worlds + [mid], reqs + [update], req, w', id);
  }

  lemma ListedFirst(c: Config, worlds: seq<World>, reqs: seq<Request>, req: Request, w': World, id: DocId)
    requires Behaviour(c, worlds, reqs) && Next(c, worlds[|reqs|], req, w') && id !in worlds[|reqs|].documents
    requires req.Search? && Tokenize(req.query) != [] && req.run.ranked != [] && req.run.ranked[0].docId == id
    ensures Behaviour(c, worlds + [w'], reqs + [req])
    ensures exists r :: r in req.results && r.docId == id && r.text == ""
  {
    hide Tokenize, Next, Behaviour;
    Lengths(c, worlds, reqs);
    BehaviourSnoc(c, worlds, reqs, req, w');
    assert (worlds + [w'])[|reqs|] == worlds[|reqs|] && (reqs + [req])[|reqs|] == req;
    SearchTexts(c, worlds + [w'], reqs + [req], |reqs|, req.query, req.topK, req.run, req.results);
    assert req.results[0] in req.results;
  }

  // ---------- exactly when ----------

  /** The run goes on with searches that all ask for topK results, and one of them lists the id. */
  ghost predicate ListedLater(c: Config, worlds: seq<World>, reqs: seq<Request>, topK: int, worlds': seq<World>,
                              reqs': seq<Request>, n: nat, id: DocId)
  {
    && Behaviour(c, worlds', reqs') && worlds <= worlds' && reqs <= reqs'
    && (forall i :: |reqs| <= i < |reqs'| && reqs'[i].Search? ==> reqs'[i].topK == topK)
    && |reqs| <= n && ListsAt(reqs', n, id)
  }

  /** With whole requests as steps a delete is final for searches if and only if, when it starts, the
      document is cached or no cached posting list mentions it. In every other case some continuation
      lists it, with an empty text, whatever number of results searches ask for. */
  lemma ListedLaterIff(c: Config, worlds: seq<World>, reqs: seq<Request>, id: DocId, topK: int)
    requires Behaviour(c, worlds, reqs) && reqs != [] && reqs[|reqs| - 1] == Delete(id, true) && topK != 0
    ensures (exists worlds', reqs', n :: ListedLater(c, worlds, reqs, topK, worlds', reqs', n, id))
            <==> Posted(worlds[|reqs| - 1], id) && !Resident(worlds[|reqs| - 1].docCache, id)
  {
    hide Posted, Next, Initial, Lookup;
    var i := |reqs| - 1;
    AfterDelete(c, worlds, reqs, i, id);
    if Posted(worlds[i], id) && !Resident(worlds[i].docCache, id) {
      var update, mid, req, w' := PostedIsListedFirst(c, worlds, reqs, id, topK);
      assert ListedLater(c, worlds, reqs, topK, worlds + [mid] + [w'], reqs + [update] + [req], |reqs| + 1, id);
    } else if worlds', reqs', n :| ListedLater(c, worlds, reqs, topK, worlds', reqs', n, id) {
      assert reqs'[i] == reqs[i] && worlds'[i] == worlds[i];
      NeverListedAgain(c, worlds', reqs', i, n, id);
    }
  }

  // ---------- a reachable instance ----------

  const SECOND := DocId(1)

  /** Searching for one word over an empty posting cache leaves the word's list in the cache. */
  lemma SearchPosts(c: Config, w: World, word: string, topK: int, run: SearchRun, results: seq<SearchResult>,
                    w': World, d: DocId)
    requires SearchStep(c, w, word, topK, run, results, w') && SelectsWork(w, [word], run)
    requires w.tfCache == [] && Tokenize(word) == [word] && (d, word) in w.tf
    ensures Posted(w', d)
  {
    hide Tokenize, TopK, Scores, Fetch, Records, Selects;
    MissedByEmpty([word]);
    var ps := GroupOf(run.rows, word);
    SelectedGroup(run.rows, w.tf, [word], word);
    var i :| 0 <= i < |ps| && ps[i].docId == d;
    OnlyWord(w, word, run);
    assert w'.tfCache == [Entry(word, ps)] by {
      hide GroupOf;
      assert AfterGets([], [word]) == AfterGets([], []) == [];
      assert [word][1..] == [];
      assert PutGroups(c.tfCap, [], run.rows, [word]) == AfterPut(c.tfCap, [], word, ps) == [Entry(word, ps)];
    }
    assert Entry(word, ps) in w'.tfCache && ps[i] in Entry(word, ps).value;
  }

  lemma OnlyWord(w: World, word: string, run: SearchRun)
    requires Selects(run.rows, w.tf, [word]) && GroupOrder(run.rows, run.order) && exists d :: (d, word) in w.tf
    ensures run.order == [word]
  {
    var d :| (d, word) in w.tf;
    assert word in run.order by {
      var i :| 0 <= i < |run.rows| && run.rows[i].docId == d && run.rows[i].word == word;
    }
    forall w | w in run.order ensures w == word {
      var i :| 0 <= i < |run.rows| && run.rows[i].word == w;
      assert run.rows[i].word in [word];
    }
    hide Selects, GroupOrder;
    OnlyElement(run.order, word);
  }

  lemma OnlyElement(order: seq<string>, word: string)
    requires Distinct(order) && word in order && forall w :: w in order ==> w == word
    ensures order == [word]
  {
    assert |order| > 1 ==> order[0] != order[1];
    forall j | 0 <= j < |order| ensures order[j] == word {
      assert order[j] in order;
    }
  }

  /** With room for one cached document, storing another evicts what was cached. */
  lemma SecondEvicts(c: Config, w: World, text: string) returns (w': World)
    requires Inv(c, w) && c.docCap == 1 && SECOND !in w.origin && Tokenize(text) != []
    ensures CreateStep(c, w, text, Some(SECOND), Some(SECOND), w')
    ensures !Resident(w'.docCache, FIRST) && w'.tfCache == w.tfCache && w'.origin == w.origin[SECOND := text]
    ensures FIRST in w.documents ==> FIRST in w'.documents
  {
    hide Tokenize, IndexMatches, GoodPostings, RowsOf;
    LookupFound(w.docCache, SECOND);
    w' := World(w.documents[SECOND := text], w.tf + RowsOf(SECOND, text), AfterPut(c.docCap, w.docCache, SECOND, text),
                w.tfCache, w.idf, w.origin[SECOND := text]);
    assert w'.docCache == [Entry(SECOND, text)] + [];
    ConsLookup(Entry(SECOND, text), [], FIRST);
  }

  /** Deleting a document that is not cached leaves the posting cache as it is. */
  lemma DeleteUncached(w: World, id: DocId) returns (w': World)
    requires id in w.documents && !Resident(w.docCache, id)
    ensures DeleteStep(w, id, true, w')
    ensures id !in w'.documents && w'.tfCache == w.tfCache && w'.origin == w.origin
  {
    hide Lookup, Without;
    w' := w.(docCache := Without(w.docCache, id), documents := w.documents - {id},
             tf := map k | k in w.tf && k.0 != id :: w.tf[k]);
  }

  /** Create, search for a word of it, create another, delete the first, search again. */
  ghost predicate FiveRequests(reqs: seq<Request>, first: string, second: string) {
    && |reqs| == 5
    && reqs[0] == Create(first, Some(FIRST), Some(FIRST))
    && reqs[1].Search? && Tokenize(reqs[1].query) == [reqs[1].query] && reqs[1].query in Tokenize(first)
    && reqs[2] == Create(second, Some(SECOND), Some(SECOND))
    && reqs[3] == Delete(FIRST, true)
    && reqs[4].Search? && reqs[4].topK == 3
  }

  /** The first two requests: afterwards the posting cache mentions the document. */
  lemma CreateThenSearch(c: Config, first: string) returns (worlds: seq<World>, search: Request)
    requires Tokenize(first) != []
    ensures |worlds| == 3 && Behaviour(c, worlds, [Create(first, Some(FIRST), Some(FIRST)), search])
    ensures search.Search? && Tokenize(search.query) == [search.query] && search.query in Tokenize(first)
    ensures worlds[2].origin == map[FIRST := first] && worlds[2].documents == map[FIRST := first]
    ensures Posted(worlds[2], FIRST)
  {
    hide Tokenize, RowsOf, Behaviour, SelectsWork, Posted, TopK, Scores, Fetch, Records, Selects, IsToken,
         StoredFrequency;
    CreateFirst(c, first);
    var word, w1 := Tokenize(first)[0], OneDocument(first);
    TokenShape(first);
    TokenizeToken(word);
    var run, results, w2 := SearchCanRun(c, w1, word, 3);
    RowPresent(first, word);
    SearchPosts(c, w1, word, 3, run, results, w2, FIRST);
    search := Search(word, 3, run, results);
    var empty := World(map[], map[], [], [], map[], map[]);
    BehaviourSnoc(c, [empty, w1], [Create(first, Some(FIRST), Some(FIRST))], search, w2);
    worlds := [empty, w1] + [w2];
    assert [Create(first, Some(FIRST), Some(FIRST)), search] == [Create(first, Some(FIRST), Some(FIRST))] + [search];
  }

  /** With room for one cached document: store any first text, search for a word of it, store any second
      text, delete the first document. The next search, with the default of three results, can list it. */
  lemma DeletedYetListed(c: Config, first: string, second: string)
    requires c.docCap == 1 && Tokenize(first) != [] && Tokenize(second) != []
    ensures exists worlds, reqs ::
              Behaviour(c, worlds, reqs) && FiveRequests(reqs, first, second) && ListsAt(reqs, 4, FIRST)
  {
    hide Tokenize, Behaviour, Inv, SearchStep, CreateStep, DeleteStep, Unposted, Lookup;
    var ws, search := CreateThenSearch(c, first);
    var reqs := [Create(first, Some(FIRST), Some(FIRST)), search];
    BehaviourInv(c, ws, reqs, 2);
    var w3 := SecondEvicts(c, ws[2], second);
    var create := Create(second, Some(SECOND), Some(SECOND));
    BehaviourSnoc(c, ws, reqs, create, w3);
    var w4 := DeleteUncached(w3, FIRST);
    SamePostings(ws[2], w4, FIRST);
    BehaviourSnoc(c, ws + [w3], reqs + [create], Delete(FIRST, true), w4);
    var again, w5 := PostedIsListed(c, ws + [w3] + [w4], reqs + [create] + [Delete(FIRST, true)], FIRST, 3);
    assert FiveRequests(reqs + [create] + [Delete(FIRST, true)] + [again], first, second);
  }

  lemma SamePostings(w: World, w': World, id: DocId)
    requires Posted(w, id) && w'.tfCache == w.tfCache
    ensures Posted(w', id)
  {
  }
}
