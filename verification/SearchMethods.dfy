/** The search service: the loops of one search request. */
module SearchMethods {
  import opened Sums
  import opened RecencyList
  import opened LruCache
  import opened Tokenizer
  import opened TermFrequency
  import opened SearchSpec
  import opened Scoring
  import opened Ranking
  import opened SearchLoops
  import opened Engine
  import opened Services

  class SearchService {
    const backend: Backend

    constructor (b: Backend)
      ensures backend == b
    {
      backend := b;
    }

    /** The loop over the tokens: cached lists become records, the rest are the missed tokens. */
    method LookupTokens(tokens: seq<string>) returns (tfRecords: seq<TermFrequency>, missed: seq<string>)
      requires backend.tfCache.Valid()
      modifies backend.tfCache.Repr
      ensures backend.tfCache.Valid() && backend.tfCache.Repr == old(backend.tfCache.Repr)
      ensures tfRecords == HitRecords(old(backend.tfCache.Entries()), tokens)
      ensures missed == Missed(old(backend.tfCache.Entries()), tokens)
      ensures backend.tfCache.Entries() == AfterGets(old(backend.tfCache.Entries()), tokens)
    {
      hide Cache.Entries, Cache.Valid, AfterGet, Lookup, RecordsOf, TokensLeft;
      var cache := backend.tfCache;
      ghost var start := cache.Entries();
      tfRecords, missed := [], [];
      var i := 0;
      TokensStart(start, tokens);
      while i < |tokens|
        invariant 0 <= i <= |tokens|
        invariant cache.Valid() && cache.Repr == old(cache.Repr)
        invariant TokensLeft(start, cache.Entries(), tokens, i, tfRecords, missed)
      {
        var token := tokens[i];
        LookupStep(cache);
        TokensStep(cache.capacity, start, cache.Entries(), tokens, i, tfRecords, missed);
        var cachedVal := cache.Get(token);
        if cachedVal.Some? {
          var cached := PushRecords(token, cachedVal.value);
          tfRecords := tfRecords + cached;
        } else {
          missed := missed + [token];
        }
        i := i + 1;
      }
      TokensEnd(start, cache.Entries(), tokens, tfRecords, missed);
    }

    lemma LookupStep(cache: Cache<string, seq<Posting>>)
      requires cache.Valid()
      ensures DistinctKeys(cache.Entries()) && |cache.Entries()| <= cache.capacity
    {
      cache.EntriesMatchMap("");
    }

    /** The inner loop: one record per cached pair. */
    method PushRecords(token: string, cached: seq<Posting>) returns (records: seq<TermFrequency>)
      ensures records == RecordsOf(token, cached)
    {
      records := [];
      for j := 0 to |cached|
        invariant records == RecordsOf(token, cached)[..j]
      {
        records := records + [TermFrequency(cached[j].docId, token, cached[j].frequency)];
      }
    }

    /** The rows grouped by word. */
    method GroupRows(rows: seq<TermFrequency>) returns (groups: map<string, seq<Posting>>)
      ensures Grouped(groups, rows)
    {
      groups := map[];
      for i := 0 to |rows|
        invariant Grouped(groups, rows[..i])
      {
        var r := rows[i];
        assert rows[..i + 1] == rows[..i] + [r];
        GroupedSnoc(groups, rows[..i], r);
        groups := AddedTo(groups, r);
      }
      assert rows[..|rows|] == rows;
    }

    /** Every group is put into the cache, in the order the hash map happens to be iterated. */
    method FillCache(rows: seq<TermFrequency>) returns (ghost order: seq<string>)
      requires backend.tfCache.Valid()
      modifies backend.tfCache.Repr
      ensures backend.tfCache.Valid() && fresh(backend.tfCache.Repr - old(backend.tfCache.Repr))
      ensures GroupOrder(rows, order)
      ensures backend.tfCache.Entries()
           == PutGroups(backend.tfCache.capacity, old(backend.tfCache.Entries()), rows, order)
    {
      hide Cache.Entries, Cache.Valid, AfterPut, GroupOf;
      var cache := backend.tfCache;
      var groups := GroupRows(rows);
      var rest := groups.Keys;
      order := [];
      while rest != {}
        invariant rest <= groups.Keys
        invariant cache.Valid() && fresh(cache.Repr - old(cache.Repr))
        invariant Distinct(order) && forall w :: w in order <==> w in groups.Keys - rest
        invariant cache.Entries() == PutGroups(cache.capacity, old(cache.Entries()), rows, order)
        decreases rest
      {
        var w :| w in rest;
        assert w !in order && forall i :: 0 <= i < |order| ==> order[i] in order;
        cache.Put(w, groups[w]);
        PutGroupsSnoc(cache.capacity, old(cache.Entries()), rows, order, w);
        order := order + [w];
        rest := rest - {w};
      }
    }

    /** idf_map: the idf of every query token, read from the shared table. */
    method LookupIdf(tokens: seq<string>) returns (idfMap: map<string, real>)
      ensures forall w :: w in tokens ==> w in idfMap && idfMap[w] == IdfOf(backend.idfTable.idfMap, w)
    {
      idfMap := map[];
      for i := 0 to |tokens|
        invariant forall k :: 0 <= k < i ==>
                    tokens[k] in idfMap && idfMap[tokens[k]] == IdfOf(backend.idfTable.idfMap, tokens[k])
      {
        var idf := backend.idfTable.GetIdf(tokens[i]);
        idfMap := idfMap[tokens[i] := idf];
      }
    }

    /** The accumulation loop over the records. */
    method Accumulate(records: seq<TermFrequency>, idfMap: map<string, real>) returns (docScores: map<DocId, real>)
      requires forall i :: 0 <= i < |records| ==> records[i].word in idfMap
      ensures forall d :: d in docScores <==> exists i :: 0 <= i < |records| && records[i].docId == d
      ensures forall d :: d in docScores ==> docScores[d] == TotalScore(records, d, idfMap)
    {
      hide TermOf, TotalScore;
      docScores := map[];
      NothingScored(idfMap);
      for i := 0 to |records|
        invariant forall d :: d in docScores <==> exists k :: 0 <= k < i && records[k].docId == d
        invariant forall d :: d in docScores ==> docScores[d] == TotalScore(records[..i], d, idfMap)
        invariant forall d :: d !in docScores ==> TotalScore(records[..i], d, idfMap) == 0.0
      {
        var rec := records[i];
        var tfIdf := rec.wordFrequency * idfMap[rec.word];
        assert records[..i + 1] == records[..i] + [rec];
        forall d ensures TotalScore(records[..i + 1], d, idfMap)
                         == TotalScore(records[..i], d, idfMap) + if d == rec.docId then tfIdf else 0.0 {
          TotalSnoc(records[..i], rec, d, idfMap);
          TermIs(rec, d, idfMap);
        }
        docScores := docScores[rec.docId := (if rec.docId in docScores then docScores[rec.docId] else 0.0) + tfIdf];
      }
      assert records[..|records|] == records;
    }

    lemma NothingScored(idfMap: map<string, real>)
      ensures forall d :: TotalScore([], d, idfMap) == 0.0
    {
    }

    lemma TermIs(r: TermFrequency, d: DocId, idfMap: map<string, real>)
      requires r.word in idfMap
      ensures TermOf(r, d, idfMap) == if d == r.docId then r.wordFrequency * idfMap[r.word] else 0.0
    {
    }

    /** The normalisation loop: every entry is divided in place. */
    method Normalise(totals: map<DocId, real>, n: nat) returns (docScores: map<DocId, real>)
      requires n > 0
      ensures docScores == map d | d in totals :: totals[d] / n as real
    {
      docScores := totals;
      var rest := totals.Keys;
      while rest != {}
        invariant rest <= totals.Keys && docScores.Keys == totals.Keys
        invariant forall d :: d in totals ==> docScores[d] == if d in rest then totals[d] else totals[d] / n as real
        decreases rest
      {
        var d :| d in rest;
        docScores := docScores[d := docScores[d] / n as real];
        rest := rest - {d};
      }
    }

    method ScoreDocuments(tokens: seq<string>, records: seq<TermFrequency>) returns (docScores: map<DocId, real>)
      requires tokens != [] && forall r :: r in records ==> r.word in tokens
      ensures docScores == Scores(records, backend.idfTable.idfMap, |tokens|)
    {
      hide TotalScore;
      var idfMap := LookupIdf(tokens);
      assert forall i :: 0 <= i < |records| ==> records[i] in records;
      var totals := Accumulate(records, idfMap);
      forall d | d in totals ensures totals[d] == TotalScore(records, d, backend.idfTable.idfMap) {
        SameIdf(records, d, idfMap, backend.idfTable.idfMap);
      }
      docScores := Normalise(totals, |tokens|);
      assert docScores == Scores(records, backend.idfTable.idfMap, |tokens|);
    }

    lemma {:induction false} SameIdf(rs: seq<TermFrequency>, d: DocId, idf1: map<string, real>, idf2: map<string, real>)
      requires forall i :: 0 <= i < |rs| ==> IdfOf(idf1, rs[i].word) == IdfOf(idf2, rs[i].word)
      ensures TotalScore(rs, d, idf1) == TotalScore(rs, d, idf2)
    {
      if rs != [] {
        SameIdf(rs[1..], d, idf1, idf2);
      }
    }

    /** std::sort by descending score, then resize: ties come in an arbitrary order. */
    method Rank(docScores: map<DocId, real>, topK: int) returns (sortedDocs: seq<Scored>)
      ensures TopK(sortedDocs, docScores, topK)
      ensures |sortedDocs| == if topK < 0 || topK > |docScores| then |docScores| else topK
    {
      hide TopK;
      sortedDocs := [];
      var rest := docScores.Keys;
      while rest != {}
        invariant BestFirst(sortedDocs, docScores, rest)
        decreases rest
      {
        BestExists(docScores, rest);
        var d :| d in rest && forall e :: e in rest ==> docScores[e] <= docScores[d];
        BestFirstSnoc(sortedDocs, docScores, rest, d);
        sortedDocs := sortedDocs + [Scored(d, docScores[d])];
        rest := rest - {d};
      }
      CutIsTopK(sortedDocs, docScores, topK);
      sortedDocs := sortedDocs[..Limit(topK, |sortedDocs|)];
    }

    /** The fetch loop. textWorks(i) is whether the select for result i works, should the cache miss. */
    method FetchTexts(ranked: seq<Scored>, textWorks: nat -> bool)
      returns (results: seq<SearchResult>, ghost fails: seq<bool>)
      requires backend.docCache.Valid() && backend.db !in backend.docCache.Repr
      modifies backend.docCache.Repr
      ensures backend.docCache.Valid() && fresh(backend.docCache.Repr - old(backend.docCache.Repr))
      ensures |fails| == |ranked| && forall i :: 0 <= i < |fails| ==> fails[i] == !textWorks(i)
      ensures (backend.docCache.Entries(), results)
           == Fetch(backend.docCache.capacity, old(backend.docCache.Entries()), backend.db.documents, ranked, fails)
    {
      hide Cache.Entries, Cache.Valid, AfterGet, AfterPut, Lookup;
      var cache := backend.docCache;
      results, fails := [], [];
      for i := 0 to |ranked|
        invariant cache.Valid() && fresh(cache.Repr - old(cache.Repr))
        invariant |fails| == i && forall j :: 0 <= j < i ==> fails[j] == !textWorks(j)
        invariant backend.db.documents == old(backend.db.documents)
        invariant (cache.Entries(), results)
               == Fetch(cache.capacity, old(cache.Entries()), backend.db.documents, ranked[..i], fails)
      {
        var docId := ranked[i].docId;
        var text, failed := "", !textWorks(i);
        ghost var mid := cache.Entries();
        var cachedDoc := cache.Get(docId);
        if cachedDoc.Some? {
          text := cachedDoc.value;
        } else {
          AbsentGet(mid, docId);
          var docOpt := backend.db.GetDocumentById(docId, textWorks(i));
          if docOpt.Some? {
            text := docOpt.value;
            cache.Put(docId, text);
          }
        }
        assert (cache.Entries(), text) == FetchStep(cache.capacity, mid, backend.db.documents, docId, failed);
        FetchSnoc(cache.capacity, old(cache.Entries()), backend.db.documents, ranked[..i], fails, ranked[i], failed);
        assert ranked[..i + 1] == ranked[..i] + [ranked[i]];
        results := results + [SearchResult(docId, ranked[i].score, text)];
        fails := fails + [failed];
      }
      assert ranked[..|ranked|] == ranked;
    }

    /** The first half of a search: records from the cache and the database, the cache refill, and
        the scores. rowsWork is whether the select of the rows works. */
    method ScoreQuery(tokens: seq<string>, rowsWork: bool)
      returns (docScores: map<DocId, real>, rows: seq<TermFrequency>, ghost order: seq<string>)
      requires backend.tfCache.Valid() && backend.idfTable !in backend.tfCache.Repr
      requires backend.db !in backend.tfCache.Repr
      requires tokens != []
      modifies backend.tfCache.Repr
      ensures backend.tfCache.Valid() && fresh(backend.tfCache.Repr - old(backend.tfCache.Repr))
      ensures if rowsWork then Selects(rows, backend.db.tf, Missed(old(backend.tfCache.Entries()), tokens))
              else rows == []
      ensures GroupOrder(rows, order)
      ensures backend.tfCache.Entries()
           == PutGroups(backend.tfCache.capacity, AfterGets(old(backend.tfCache.Entries()), tokens), rows, order)
      ensures docScores
           == Scores(HitRecords(old(backend.tfCache.Entries()), tokens) + rows, backend.idfTable.idfMap, |tokens|)
    {
      hide Cache.Entries, Cache.Valid, AfterGets, HitRecords, Missed, Scores, Selects, GroupOrder, PutGroups;
      ghost var start := backend.tfCache.Entries();
      var tfRecords, missed := LookupTokens(tokens);
      rows, order := [], [];
      NothingToPut(backend.tfCache.capacity, backend.tfCache.Entries());
      if missed != [] {
        rows := backend.db.GetWordStatsForQuery(missed, rowsWork);
        order := FillCache(rows);
      } else {
        NothingSelected(backend.db.tf);
      }
      RecordWords(start, tokens, rows, backend.db.tf);
      tfRecords := tfRecords + rows;
      docScores := ScoreDocuments(tokens, tfRecords);
    }

    lemma NothingSelected(tf: TermTable)
      ensures Selects([], tf, [])
    {
    }

    lemma NothingToPut(cap: Capacity, cache: PostingCache)
      ensures GroupOrder([], []) && PutGroups(cap, cache, [], []) == cache
    {
    }

    /** What the parts of a search leave in the fields is a search step. */
    lemma SearchFields(c: Config, w: World, query: string, topK: int, run: SearchRun, results: seq<SearchResult>,
                       w': World, scores: map<DocId, real>)
      requires Tokenize(query) != []
      requires run.rows == [] || Selects(run.rows, w.tf, Missed(w.tfCache, Tokenize(query)))
      requires GroupOrder(run.rows, run.order) && TopK(run.ranked, scores, topK) && |run.fails| == |run.ranked|
      requires scores == Scores(HitRecords(w.tfCache, Tokenize(query)) + run.rows, w.idf, |Tokenize(query)|)
      requires w' == w.(tfCache := w'.tfCache, docCache := w'.docCache)
      requires w'.tfCache == PutGroups(c.tfCap, AfterGets(w.tfCache, Tokenize(query)), run.rows, run.order)
      requires (w'.docCache, results) == Fetch(c.docCap, w.docCache, w.documents, run.ranked, run.fails)
      ensures SearchStep(c, w, query, topK, run, results, w')
    {
      hide Tokenize, AfterGets, HitRecords, Missed, PutGroups, TopK, Scores, Fetch, Selects, GroupOrder;
    }

    lemma NoTokens(c: Config, w: World, query: string, topK: int, run: SearchRun)
      requires Tokenize(query) == []
      ensures SearchStep(c, w, query, topK, run, [], w)
    {
      hide Tokenize;
    }

    /** One search request. rowsWork and textWorks say which selects work; run records that and the choices
        the database, the maps and the sort made. */
    method Search(query: string, topK: int, rowsWork: bool, textWorks: nat -> bool)
      returns (results: seq<SearchResult>, ghost run: SearchRun)
      requires backend.Valid()
      modifies backend.docCache.Repr, backend.tfCache.Repr
      ensures backend.Valid()
      ensures fresh(backend.docCache.Repr - old(backend.docCache.Repr))
      ensures fresh(backend.tfCache.Repr - old(backend.tfCache.Repr))
      ensures SearchStep(backend.Configuration(), old(backend.Abstract()), query, topK, run, results,
                         backend.Abstract())
      ensures Tokenize(query) != [] && rowsWork ==>
                Selects(run.rows, backend.db.tf, Missed(old(backend.tfCache.Entries()), Tokenize(query)))
      ensures forall i :: 0 <= i < |run.fails| ==> run.fails[i] == !textWorks(i)
    {
      hide Cache.Entries, Cache.Valid, Tokenize, AfterGets, HitRecords, Missed, PutGroups, TopK, Scores, Fetch,
           Selects, GroupOrder, SearchStep;
      ghost var before := backend.Abstract();
      results, run := [], SearchRun([], [], [], []);
      var tokens := TokenizeText(query);
      if tokens == [] {
        NoTokens(backend.Configuration(), before, query, topK, run);
        return;
      }
      var docScores, rows;
      ghost var order, fails;
      docScores, rows, order := ScoreQuery(tokens, rowsWork);
      var sortedDocs := Rank(docScores, topK);
      results, fails := FetchTexts(sortedDocs, textWorks);
      run := SearchRun(rows, order, sortedDocs, fails);
      SearchFields(backend.Configuration(), before, query, topK, run, results, backend.Abstract(), docScores);
    }

    lemma RecordWords(cache: PostingCache, tokens: seq<string>, rows: seq<TermFrequency>, tf: TermTable)
      requires rows == [] || Selects(rows, tf, Missed(cache, tokens))
      ensures HitRecords(cache, tokens) + [] == HitRecords(cache, tokens)
      ensures forall r :: r in HitRecords(cache, tokens) + rows ==> r.word in tokens
    {
      HitMembers(cache, tokens);
      MissedMembers(cache, tokens);
    }
  }
}
