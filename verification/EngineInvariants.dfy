/** What every run of whole requests keeps: the inverted index matches the documents, the caches
    agree with the tables they front, and reads tell the truth. */
module EngineInvariants {
  import opened Wrappers
  import opened RecencyList
  import opened Tokenizer
  import opened TermFrequency
  import opened SearchSpec
  import opened Scoring
  import opened Engine

  // ---------- invariants ----------

  /** term_frequency is exactly what tokenizing every stored document gives. */
  ghost predicate IndexMatches(documents: map<DocId, string>, tf: TermTable) {
    && (forall d, w :: (d, w) in tf <==> d in documents && w in Tokenize(documents[d]))
    && (forall d, w :: (d, w) in tf ==> tf[(d, w)] == StoredFrequency(Tokenize(documents[d]), w))
    && (forall d :: d in documents ==> Tokenize(documents[d]) != [])
  }

  ghost predicate CacheFits<K, V>(cap: Capacity, l: seq<Entry<K, V>>) {
    DistinctKeys(l) && |l| <= cap
  }

  /** Every cached document is the row of the table. */
  ghost predicate DocCacheCoherent(w: World) {
    forall e :: e in w.docCache ==> e.key in w.documents && w.documents[e.key] == e.value
  }

  /** ps lists different documents, and gives each the frequency of word in its original text. */
  ghost predicate GoodPostings(origin: map<DocId, string>, word: string, ps: seq<Posting>) {
    && ps != [] && DistinctDocs(ps)
    && forall p :: p in ps ==>
         && p.docId in origin && word in Tokenize(origin[p.docId])
         && p.frequency == StoredFrequency(Tokenize(origin[p.docId]), word)
  }

  ghost predicate Inv(c: Config, w: World) {
    && IndexMatches(w.documents, w.tf)
    && (forall d :: d in w.documents ==> d in w.origin && w.origin[d] == w.documents[d])
    && CacheFits(c.docCap, w.docCache) && CacheFits(c.tfCap, w.tfCache)
    && DocCacheCoherent(w)
    && forall e :: e in w.tfCache ==> GoodPostings(w.origin, e.key, e.value)
  }

  // ---------- what cache operations can leave in a cache ----------

  lemma GetMembers<K, V>(cap: Capacity, l: seq<Entry<K, V>>, k: K)
    requires CacheFits(cap, l)
    ensures CacheFits(cap, AfterGet(l, k))
    ensures forall e :: e in AfterGet(l, k) <==> e in l
  {
    StepWellFormed(cap, l, Op<K, V>.Get(k));
    LookupFound(l, k);
    WithoutMembers(l, k);
    forall v: V ensures Lookup(l, k) == Some(v) <==> Entry(k, v) in l { LookupIsMembership(l, k, v); }
  }

  lemma PutMembers<K, V>(cap: Capacity, l: seq<Entry<K, V>>, k: K, v: V)
    requires CacheFits(cap, l)
    ensures CacheFits(cap, AfterPut(cap, l, k, v))
    ensures forall e :: e in AfterPut(cap, l, k, v) ==> e == Entry(k, v) || (e in l && e.key != k)
  {
    StepWellFormed(cap, l, Put(k, v));
    if Resident(l, k) {
      TouchMembers(l, k, v);
    } else {
      NewMembers(l, if |l| >= cap then |l| - 1 else |l|, k);
    }
  }

  lemma TouchMembers<K, V>(l: seq<Entry<K, V>>, k: K, v: V)
    ensures forall e :: e in Touch(l, k, v) ==> e == Entry(k, v) || (e in l && e.key != k)
  {
    forall e | e in Touch(l, k, v) && e != Entry(k, v) ensures e in l && e.key != k {
      TouchMember(l, k, v, e);
    }
  }

  lemma TouchMember<K, V>(l: seq<Entry<K, V>>, k: K, v: V, e: Entry<K, V>)
    requires e in Touch(l, k, v) && e != Entry(k, v)
    ensures e in l && e.key != k
  {
    WithoutMembers(l, k);
    assert e in Without(l, k);
  }

  lemma NewMembers<K, V>(l: seq<Entry<K, V>>, n: nat, k: K)
    requires !Resident(l, k) && n <= |l|
    ensures l[..n] == l || n < |l|
    ensures forall e :: e in l[..n] ==> e in l && e.key != k
  {
    LookupFound(l, k);
  }

  lemma {:induction false} GetsMembers(cap: Capacity, cache: PostingCache, tokens: seq<string>)
    requires CacheFits(cap, cache)
    ensures CacheFits(cap, AfterGets(cache, tokens))
    ensures forall e :: e in AfterGets(cache, tokens) <==> e in cache
    decreases |tokens|
  {
    if tokens != [] {
      GetMembers(cap, cache, tokens[0]);
      GetsMembers(cap, AfterGet(cache, tokens[0]), tokens[1..]);
    }
  }

  lemma {:induction false} PutGroupsMembers(cap: Capacity, cache: PostingCache, rs: seq<TermFrequency>,
                                            order: seq<string>)
    requires CacheFits(cap, cache)
    ensures CacheFits(cap, PutGroups(cap, cache, rs, order))
    ensures forall e :: e in PutGroups(cap, cache, rs, order) ==>
              e in cache || (e.key in order && e.value == GroupOf(rs, e.key))
    decreases |order|
  {
    if order != [] {
      PutMembers(cap, cache, order[0], GroupOf(rs, order[0]));
      PutGroupsMembers(cap, AfterPut(cap, cache, order[0], GroupOf(rs, order[0])), rs, order[1..]);
    }
  }

  lemma {:induction false} FetchMembers(cap: Capacity, cache: DocumentCache, documents: map<DocId, string>,
                                        ranked: seq<Scored>, fails: seq<bool>)
    requires CacheFits(cap, cache) && |fails| == |ranked|
    ensures CacheFits(cap, Fetch(cap, cache, documents, ranked, fails).0)
    ensures forall e :: e in Fetch(cap, cache, documents, ranked, fails).0 ==>
              e in cache || (e.key in documents && e.value == documents[e.key])
    decreases |ranked|
  {
    if ranked != [] {
      var d := ranked[0].docId;
      GetMembers(cap, cache, d);
      if d in documents {
        PutMembers(cap, cache, d, documents[d]);
      }
      FetchMembers(cap, FetchStep(cap, cache, documents, d, fails[0]).0, documents, ranked[1..], fails[1..]);
    }
  }

  // ---------- one step ----------

  lemma CreateKeepsIndex(documents: map<DocId, string>, tf: TermTable, d: DocId, text: string)
    requires IndexMatches(documents, tf) && d !in documents && Tokenize(text) != []
    ensures IndexMatches(documents[d := text], tf + RowsOf(d, text))
  {
    hide Tokenize, StoredFrequency;
  }

  lemma DeleteKeepsIndex(documents: map<DocId, string>, tf: TermTable, d: DocId)
    requires IndexMatches(documents, tf)
    ensures IndexMatches(documents - {d}, map k | k in tf && k.0 != d :: tf[k])
  {
    hide Tokenize, StoredFrequency;
  }

  lemma GoodPostingsGrow(origin: map<DocId, string>, d: DocId, text: string, word: string, ps: seq<Posting>)
    requires GoodPostings(origin, word, ps) && d !in origin
    ensures GoodPostings(origin[d := text], word, ps)
  {
    hide Tokenize, StoredFrequency;
  }

  lemma CreateInv(c: Config, w: World, text: string, generated: Option<DocId>, created: Option<DocId>, w': World)
    requires Inv(c, w) && CreateStep(c, w, text, generated, created, w')
    ensures Inv(c, w')
  {
    hide Tokenize, RowsOf, IndexMatches, GoodPostings;
    if created.Some? {
      assert IndexMatches(w'.documents, w'.tf) by {
        FreshNotStored(c, w, created.value);
        CreateKeepsIndex(w.documents, w.tf, created.value, text);
      }
      PutMembers(c.docCap, w.docCache, created.value, text);
    }
    if generated.Some? {
      forall e | e in w'.tfCache ensures GoodPostings(w'.origin, e.key, e.value) {
        GoodPostingsGrow(w.origin, generated.value, text, e.key, e.value);
      }
    }
  }

  lemma FreshNotStored(c: Config, w: World, d: DocId)
    requires Inv(c, w) && d !in w.origin
    ensures d !in w.documents
  {
  }

  lemma DeleteInv(c: Config, w: World, id: DocId, deleted: bool, w': World)
    requires Inv(c, w) && DeleteStep(w, id, deleted, w')
    ensures Inv(c, w')
  {
    hide Tokenize, IndexMatches, GoodPostings;
    DeleteKeepsIndex(w.documents, w.tf, id);
    StepWellFormed(c.docCap, w.docCache, Op<DocId, string>.Remove(id));
    WithoutMembers(w.docCache, id);
  }

  /** Rows of the table carry the frequencies of the documents' texts. */
  lemma SelectedPostingsGood(c: Config, w: World, ps: seq<Posting>, word: string)
    requires Inv(c, w) && IsPostingList(ps, w.tf, word) && ps != []
    ensures GoodPostings(w.origin, word, ps)
  {
    hide Tokenize, StoredFrequency;
    forall p | p in ps
      ensures p.docId in w.origin && word in Tokenize(w.origin[p.docId])
           && p.frequency == StoredFrequency(Tokenize(w.origin[p.docId]), word)
    {
      var i :| 0 <= i < |ps| && ps[i] == p;
    }
  }

  /** The entries a search puts in the posting cache are full, nonempty posting lists of the table. */
  lemma SearchCaches(c: Config, w: World, tokens: seq<string>, run: SearchRun)
    requires Inv(c, w) && (run.rows == [] || Selects(run.rows, w.tf, Missed(w.tfCache, tokens)))
    requires GroupOrder(run.rows, run.order)
    ensures var l := PutGroups(c.tfCap, AfterGets(w.tfCache, tokens), run.rows, run.order);
            && CacheFits(c.tfCap, l)
            && forall e :: e in l ==> e in w.tfCache || (e.value != [] && IsPostingList(e.value, w.tf, e.key))
  {
    hide IsPostingList, Missed, AfterGets, PutGroups, GroupOf;
    GetsMembers(c.tfCap, w.tfCache, tokens);
    var l := PutGroups(c.tfCap, AfterGets(w.tfCache, tokens), run.rows, run.order);
    PutGroupsMembers(c.tfCap, AfterGets(w.tfCache, tokens), run.rows, run.order);
    forall e | e in l && e !in w.tfCache ensures e.value != [] && IsPostingList(e.value, w.tf, e.key) {
      var i :| 0 <= i < |run.rows| && run.rows[i].word == e.key;
      SelectedGroup(run.rows, w.tf, Missed(w.tfCache, tokens), e.key);
      GroupMembers(run.rows, e.key);
      assert run.rows[i] in run.rows;
      assert Posting(run.rows[i].docId, run.rows[i].wordFrequency) in GroupOf(run.rows, e.key);
    }
  }

  lemma SearchInv(c: Config, w: World, query: string, topK: int, run: SearchRun, results: seq<SearchResult>, w': World)
    requires Inv(c, w) && SearchStep(c, w, query, topK, run, results, w')
    ensures Inv(c, w')
  {
    hide Tokenize, IndexMatches, GoodPostings, Missed, AfterGets, PutGroups, Fetch, TopK;
    var tokens := Tokenize(query);
    if tokens != [] {
      SearchCaches(c, w, tokens, run);
      FetchMembers(c.docCap, w.docCache, w.documents, run.ranked, run.fails);
      forall e | e in w'.tfCache ensures GoodPostings(w'.origin, e.key, e.value) {
        if e !in w.tfCache {
          SelectedPostingsGood(c, w, e.value, e.key);
        }
      }
    }
  }

  lemma NextInv(c: Config, w: World, req: Request, w': World)
    requires Inv(c, w) && Next(c, w, req, w')
    ensures Inv(c, w')
  {
    hide IndexMatches, GoodPostings, CreateStep, DeleteStep, SearchStep;
    match req
    case Create(text, generated, created) => CreateInv(c, w, text, generated, created, w');
    case Read(id, _, _) => GetMembers(c.docCap, w.docCache, id);
    case Delete(id, deleted) => DeleteInv(c, w, id, deleted, w');
    case Search(query, topK, run, results) => SearchInv(c, w, query, topK, run, results, w');
    case UpdateIdf(_) =>
  }

  /** Every state of every run satisfies the invariant: in particular the inverted index equals
      recomputation, no document without tokens is stored, and the document cache is coherent. */
  lemma {:induction false} BehaviourInv(c: Config, worlds: seq<World>, reqs: seq<Request>, n: nat)
    requires Behaviour(c, worlds, reqs) && n < |worlds|
    ensures Inv(c, worlds[n])
  {
    if n > 0 {
      BehaviourInv(c, worlds, reqs, n - 1);
      NextInv(c, worlds[n - 1], reqs[n - 1], worlds[n]);
    }
  }

  // ---------- whole runs ----------

  lemma Lengths(c: Config, worlds: seq<World>, reqs: seq<Request>)
    requires Behaviour(c, worlds, reqs)
    ensures |worlds| == |reqs| + 1
  {
  }

  /** The inverted index computed from scratch by tokenizing every document. */
  ghost function Recomputed(documents: map<DocId, string>): TermTable {
    map d, w | d in documents && w in Tokenize(documents[d]) :: (d, w) := StoredFrequency(Tokenize(documents[d]), w)
  }

  lemma RecomputedMatches(documents: map<DocId, string>)
    requires forall d :: d in documents ==> Tokenize(documents[d]) != []
    ensures IndexMatches(documents, Recomputed(documents))
  {
    hide Tokenize, StoredFrequency;
  }

  /** Two tables that match the same documents are equal. */
  lemma MatchingIsUnique(documents: map<DocId, string>, tf1: TermTable, tf2: TermTable)
    requires IndexMatches(documents, tf1) && IndexMatches(documents, tf2)
    ensures tf1 == tf2
  {
    hide Tokenize, StoredFrequency;
    forall k ensures k in tf1 <==> k in tf2 {
      assert k == (k.0, k.1);
    }
    forall k | k in tf1 ensures tf1[k] == tf2[k] {
      assert k == (k.0, k.1);
    }
  }

  /** After any run of creates, rolled back or not, and deletes, term_frequency is the recomputed
      index, and no document without tokens is stored. */
  lemma IndexIsRecomputed(c: Config, worlds: seq<World>, reqs: seq<Request>, n: nat)
    requires Behaviour(c, worlds, reqs) && n < |worlds|
    ensures worlds[n].tf == Recomputed(worlds[n].documents)
    ensures forall d :: d in worlds[n].documents ==> Tokenize(worlds[n].documents[d]) != []
  {
    hide Tokenize, StoredFrequency, Recomputed;
    BehaviourInv(c, worlds, reqs, n);
    RecomputedMatches(worlds[n].documents);
    MatchingIsUnique(worlds[n].documents, worlds[n].tf, Recomputed(worlds[n].documents));
  }

  /** Both caches stay within their capacity with distinct keys, and every cached document is the row
      the table holds now. */
  lemma CachesCoherent(c: Config, worlds: seq<World>, reqs: seq<Request>, n: nat)
    requires Behaviour(c, worlds, reqs) && n < |worlds|
    ensures CacheFits(c.docCap, worlds[n].docCache) && CacheFits(c.tfCap, worlds[n].tfCache)
    ensures forall d :: Resident(worlds[n].docCache, d) ==>
              d in worlds[n].documents && Lookup(worlds[n].docCache, d) == Some(worlds[n].documents[d])
  {
    hide Tokenize, StoredFrequency, IndexMatches;
    BehaviourInv(c, worlds, reqs, n);
    forall d | Resident(worlds[n].docCache, d)
      ensures d in worlds[n].documents && Lookup(worlds[n].docCache, d) == Some(worlds[n].documents[d])
    {
      LookupFound(worlds[n].docCache, d);
      assert Entry(d, Lookup(worlds[n].docCache, d).value) in worlds[n].docCache;
    }
  }

  /** Every cached posting list is nonempty and was the word's full posting list at some earlier
      point of the run. (It may lag: creating a document does not touch the posting cache.) */
  lemma {:induction false} CachedPostingsAreHistoric(c: Config, worlds: seq<World>, reqs: seq<Request>, n: nat)
    requires Behaviour(c, worlds, reqs) && n < |worlds|
    ensures forall e :: e in worlds[n].tfCache ==>
              e.value != [] && exists j :: 0 <= j <= n && IsPostingList(e.value, worlds[j].tf, e.key)
  {
    if n > 0 {
      var w, w' := worlds[n - 1], worlds[n];
      CachedPostingsAreHistoric(c, worlds, reqs, n - 1);
      BehaviourInv(c, worlds, reqs, n - 1);
      assert Next(c, w, reqs[n - 1], w');
      TfCacheSources(c, w, reqs[n - 1], w');
      forall e | e in w'.tfCache
        ensures e.value != [] && exists j :: 0 <= j <= n && IsPostingList(e.value, worlds[j].tf, e.key)
      {
        if e in w.tfCache {
          var j :| 0 <= j <= n - 1 && IsPostingList(e.value, worlds[j].tf, e.key);
        }
      }
    }
  }

  /** Where an entry of the posting cache can come from in one step. */
  lemma TfCacheSources(c: Config, w: World, req: Request, w': World)
    requires Inv(c, w) && Next(c, w, req, w')
    ensures forall e :: e in w'.tfCache ==>
              e in w.tfCache || (e.value != [] && IsPostingList(e.value, w.tf, e.key))
  {
    hide Inv, IsPostingList, Tokenize;
    if req.Search? && Tokenize(req.query) != [] {
      SearchCaches(c, w, Tokenize(req.query), req.run);
    }
  }

  /** An id that was issued but has no row and no cached copy. */
  ghost predicate Gone(w: World, id: DocId) {
    id in w.origin && id !in w.documents && !Resident(w.docCache, id)
  }

  /** No cached posting list mentions the id. */
  ghost predicate Unposted(w: World, id: DocId) {
    forall e, p :: e in w.tfCache && p in e.value ==> p.docId != id
  }

  lemma GoneStays(c: Config, w: World, req: Request, w': World, id: DocId)
    requires Inv(c, w) && Next(c, w, req, w') && Gone(w, id)
    ensures Gone(w', id)
    ensures Unposted(w, id) ==> Unposted(w', id)
  {
    hide Tokenize, IndexMatches, GoodPostings, RowsOf, Fetch, PutGroups, AfterGets;
    NextInv(c, w, req, w');
    TfCacheSources(c, w, req, w');
    LookupFound(w'.docCache, id);
    assert id in w'.origin && id !in w'.documents;
    forall e, p | Unposted(w, id) && e in w'.tfCache && p in e.value ensures p.docId != id {
      if e !in w.tfCache {
        UnstoredUnlisted(c, w, e.value, e.key, id);
      }
    }
  }

  lemma UnstoredUnlisted(c: Config, w: World, ps: seq<Posting>, word: string, id: DocId)
    requires Inv(c, w) && IsPostingList(ps, w.tf, word) && id !in w.documents
    ensures forall p :: p in ps ==> p.docId != id
  {
    hide Tokenize, StoredFrequency;
  }

  lemma {:induction false} GoneForever(c: Config, worlds: seq<World>, reqs: seq<Request>, id: DocId, i: nat, n: nat)
    requires Behaviour(c, worlds, reqs) && i <= n < |worlds| && Gone(worlds[i], id)
    ensures Gone(worlds[n], id)
    ensures Unposted(worlds[i], id) ==> Unposted(worlds[n], id)
    decreases n
  {
    hide Inv, Next, Gone, Unposted, Initial, Tokenize;
    if i < n {
      GoneForever(c, worlds, reqs, id, i, n - 1);
      BehaviourInv(c, worlds, reqs, n - 1);
      GoneStays(c, worlds[n - 1], reqs[n - 1], worlds[n], id);
    }
  }

  /** A document whose insert was rolled back never reaches the table or either cache. */
  lemma RolledBackNeverCached(c: Config, worlds: seq<World>, reqs: seq<Request>, i: nat, n: nat, text: string,
                              id: DocId)
    requires Behaviour(c, worlds, reqs) && i < |reqs| && i < n < |worlds|
    requires reqs[i] == Create(text, Some(id), None)
    ensures Gone(worlds[n], id) && Unposted(worlds[n], id)
  {
    hide Tokenize;
    BehaviourInv(c, worlds, reqs, i);
    assert Next(c, worlds[i], reqs[i], worlds[i + 1]);
    LookupFound(worlds[i].docCache, id);
    assert Unposted(worlds[i + 1], id) by {
      forall e, p | e in worlds[i + 1].tfCache && p in e.value ensures p.docId != id {
        assert GoodPostings(worlds[i].origin, e.key, e.value);
      }
    }
    GoneForever(c, worlds, reqs, id, i + 1, n);
  }

  /** A read returns the stored text of the document, and nothing else: unless its select fails it
      finds exactly the documents that exist. */
  lemma ReadsAreTrue(c: Config, worlds: seq<World>, reqs: seq<Request>, n: nat, id: DocId, failed: bool,
                     found: Option<string>)
    requires Behaviour(c, worlds, reqs) && n < |reqs| && reqs[n] == Read(id, failed, found)
    ensures found.Some? ==> id in worlds[n].documents && found.value == worlds[n].documents[id]
    ensures !failed ==> (found.Some? <==> id in worlds[n].documents)
  {
    BehaviourInv(c, worlds, reqs, n);
    assert Next(c, worlds[n], reqs[n], worlds[n + 1]);
    LookupFound(worlds[n].docCache, id);
  }

  lemma {:induction false} FetchTexts(cap: Capacity, cache: DocumentCache, documents: map<DocId, string>,
                                      ranked: seq<Scored>, fails: seq<bool>)
    requires CacheFits(cap, cache) && |fails| == |ranked|
    requires forall e :: e in cache ==> e.key in documents && documents[e.key] == e.value
    ensures var rs := Fetch(cap, cache, documents, ranked, fails).1;
            && |rs| == |ranked|
            && forall i :: 0 <= i < |rs| ==>
                 && rs[i].docId == ranked[i].docId && rs[i].score == ranked[i].score
                 && (rs[i].text == "" || (rs[i].docId in documents && rs[i].text == documents[rs[i].docId]))
                 && (!fails[i] && rs[i].docId in documents ==> rs[i].text == documents[rs[i].docId])
    decreases |ranked|
  {
    if ranked != [] {
      var d := ranked[0].docId;
      LookupFound(cache, d);
      GetMembers(cap, cache, d);
      if d in documents {
        PutMembers(cap, cache, d, documents[d]);
      }
      FetchTexts(cap, FetchStep(cap, cache, documents, d, fails[0]).0, documents, ranked[1..], fails[1..]);
    }
  }

  /** The results are the ranking in order; each text is the document's, or empty, and where the
      select works it is empty exactly when the document no longer exists. */
  lemma SearchTexts(c: Config, worlds: seq<World>, reqs: seq<Request>, n: nat, query: string, topK: int,
                    run: SearchRun, results: seq<SearchResult>)
    requires Behaviour(c, worlds, reqs) && n < |reqs| && reqs[n] == Search(query, topK, run, results)
    requires Tokenize(query) != []
    ensures |results| == |run.ranked| == |run.fails|
    ensures forall i :: 0 <= i < |results| ==>
              var r := results[i];
              && r.docId == run.ranked[i].docId && r.score == run.ranked[i].score
              && (r.text != "" ==> r.docId in worlds[n].documents && r.text == worlds[n].documents[r.docId])
              && (!run.fails[i] ==> (r.text == "" <==> r.docId !in worlds[n].documents))
  {
    hide Tokenize, TopK, Missed, Records;
    var w := worlds[n];
    BehaviourInv(c, worlds, reqs, n);
    assert Next(c, w, reqs[n], worlds[n + 1]);
    FetchTexts(c.docCap, w.docCache, w.documents, run.ranked, run.fails);
    EmptyHasNoTokens();
  }

  lemma EmptyHasNoTokens()
    ensures Tokenize("") == []
  {
  }

  /** After a successful delete no later read finds the document and no later search shows its text. */
  lemma DeletedStaysDeleted(c: Config, worlds: seq<World>, reqs: seq<Request>, i: nat, n: nat, id: DocId)
    requires Behaviour(c, worlds, reqs) && i < n < |reqs| && reqs[i] == Delete(id, true)
    ensures reqs[n].Read? && reqs[n].id == id ==> reqs[n].found == None
    ensures reqs[n].Search? ==> forall r :: r in reqs[n].results && r.docId == id ==> r.text == ""
  {
    hide Tokenize;
    BehaviourInv(c, worlds, reqs, i);
    assert Next(c, worlds[i], reqs[i], worlds[i + 1]);
    WithoutLookup(worlds[i].docCache, id, id);
    GoneForever(c, worlds, reqs, id, i + 1, n);
    assert Next(c, worlds[n], reqs[n], worlds[n + 1]);
    if reqs[n].Search? && Tokenize(reqs[n].query) != [] {
      SearchTexts(c, worlds, reqs, n, reqs[n].query, reqs[n].topK, reqs[n].run, reqs[n].results);
    }
  }
}
