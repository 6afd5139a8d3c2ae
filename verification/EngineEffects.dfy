/** What each request does, in terms of what can be looked up before and after it. */
module EngineEffects {
  import opened Wrappers
  import opened Sums
  import opened RecencyList
  import opened Tokenizer
  import opened TermFrequency
  import opened SearchSpec
  import opened Scoring
  import opened Engine
  import opened EngineInvariants

  // ---------- how far a cached entry is from the end ----------

  /** The entry is among the first n + 1. */
  ghost predicate Near<K, V>(l: seq<Entry<K, V>>, k: K, v: V, n: nat) {
    exists i :: 0 <= i <= n && i < |l| && l[i] == Entry(k, v)
  }

  lemma NearFound<K, V>(l: seq<Entry<K, V>>, k: K, v: V, n: nat)
    requires DistinctKeys(l) && Near(l, k, v, n)
    ensures Lookup(l, k) == Some(v)
  {
    var i :| 0 <= i <= n && i < |l| && l[i] == Entry(k, v);
    LookupAt(l, i);
  }

  lemma {:induction false} WithoutShifts<K, V>(l: seq<Entry<K, V>>, k: K, i: nat)
    requires i < |l| && l[i].key != k
    ensures exists j :: 0 <= j <= i && j < |Without(l, k)| && Without(l, k)[j] == l[i]
  {
    if i > 0 {
      WithoutShifts(l[1..], k, i - 1);
      var j :| 0 <= j <= i - 1 && j < |Without(l[1..], k)| && Without(l[1..], k)[j] == l[i];
      if l[0].key != k {
        assert Without(l, k)[j + 1] == l[i];
      } else {
        assert Without(l, k)[j] == l[i];
      }
    } else {
      assert Without(l, k)[0] == l[0];
    }
  }

  lemma TouchNear<K, V>(l: seq<Entry<K, V>>, k: K, v: V, k': K, v': V, n: nat)
    requires Near(l, k, v, n) && k' != k
    ensures Near(Touch(l, k', v'), k, v, n + 1)
  {
    var i :| 0 <= i <= n && i < |l| && l[i] == Entry(k, v);
    WithoutShifts(l, k', i);
    var j :| 0 <= j <= i && j < |Without(l, k')| && Without(l, k')[j] == l[i];
    assert Touch(l, k', v')[j + 1] == Entry(k, v);
  }

  /** A put of another key moves an entry back by one place at most. */
  lemma PutNear<K, V>(cap: Capacity, l: seq<Entry<K, V>>, k: K, v: V, k': K, v': V, n: nat)
    requires Near(l, k, v, n) && k' != k && n + 1 < cap
    ensures Near(AfterPut(cap, l, k', v'), k, v, n + 1)
  {
    hide Lookup, Without;
    TouchNear(l, k, v, k', v', n);
    var i :| 0 <= i <= n && i < |l| && l[i] == Entry(k, v);
    if !Resident(l, k') {
      assert AfterPut(cap, l, k', v')[i + 1] == Entry(k, v);
    }
  }

  lemma PutFirst<K, V>(cap: Capacity, l: seq<Entry<K, V>>, k: K, v: V)
    ensures Near(AfterPut(cap, l, k, v), k, v, 0)
  {
    assert AfterPut(cap, l, k, v)[0] == Entry(k, v);
  }

  /** So does a get of another key; and a hit moves its own entry to the front. */
  lemma GetNear<K, V>(l: seq<Entry<K, V>>, k: K, v: V, k': K, n: nat)
    requires Near(l, k, v, n) && k' != k
    ensures Near(AfterGet(l, k'), k, v, n + 1)
  {
    if Resident(l, k') {
      TouchNear(l, k, v, k', Lookup(l, k').value, n);
    }
  }

  lemma GetFirst<K, V>(l: seq<Entry<K, V>>, k: K)
    requires Resident(l, k)
    ensures Near(AfterGet(l, k), k, Lookup(l, k).value, 0)
  {
    assert AfterGet(l, k)[0] == Entry(k, Lookup(l, k).value);
  }

  // ---------- create, read, delete ----------

  /** What a key finds after the last entry of a full list is dropped. */
  function AfterEviction(cap: Capacity, l: DocumentCache, d: DocId): Option<string> {
    if |l| == cap && l[cap - 1].key == d then None else Lookup(l, d)
  }

  /** A create that returns an id has stored, indexed and cached the text under it, evicted at most the
      entry longest untouched, and left the posting cache alone. One that returns none has changed
      neither the tables nor the caches. */
  lemma CreateEffect(c: Config, worlds: seq<World>, reqs: seq<Request>, n: nat, text: string, generated: Option<DocId>,
                     created: Option<DocId>)
    requires Behaviour(c, worlds, reqs) && n < |reqs| && reqs[n] == Create(text, generated, created)
    ensures var w, w' := worlds[n], worlds[n + 1];
            && w'.tfCache == w.tfCache && w'.idf == w.idf
            && (created.None? ==> w'.documents == w.documents && w'.tf == w.tf && w'.docCache == w.docCache)
            && (created.Some? ==>
                  var id := created.value;
                  && id !in w.documents && w'.documents == w.documents[id := text]
                  && (forall d, x :: (d, x) in w'.tf <==> (d, x) in w.tf || (d == id && x in Tokenize(text)))
                  && (forall k :: k in w.tf ==> w'.tf[k] == w.tf[k])
                  && Lookup(w'.docCache, id) == Some(text)
                  && forall d :: d != id ==> Lookup(w'.docCache, d) == AfterEviction(c.docCap, w.docCache, d))
  {
    hide Tokenize, StoredFrequency, GoodPostings, AfterPut, Lookup;
    var w, w' := worlds[n], worlds[n + 1];
    BehaviourInv(c, worlds, reqs, n);
    assert Next(c, w, reqs[n], w');
    if created.Some? {
      var id := created.value;
      FreshNotStored(c, w, id);
      LookupFound(w.docCache, id);
      forall d
        ensures Lookup(w'.docCache, d) == if d == id then Some(text) else AfterEviction(c.docCap, w.docCache, d)
      {
        StepLookup(c.docCap, w.docCache, Put(id, text), d);
      }
    }
  }

  /** A read changes no table and no posting, and fills no cache: the same documents are cached after it. */
  lemma ReadEffect(c: Config, worlds: seq<World>, reqs: seq<Request>, n: nat, id: DocId, failed: bool,
                   found: Option<string>)
    requires Behaviour(c, worlds, reqs) && n < |reqs| && reqs[n] == Read(id, failed, found)
    ensures var w, w' := worlds[n], worlds[n + 1];
            && w'.documents == w.documents && w'.tf == w.tf && w'.tfCache == w.tfCache && w'.idf == w.idf
            && forall d :: Lookup(w'.docCache, d) == Lookup(w.docCache, d)
  {
    hide Tokenize, StoredFrequency, IndexMatches, GoodPostings, AfterGet, Lookup;
    BehaviourInv(c, worlds, reqs, n);
    assert Next(c, worlds[n], reqs[n], worlds[n + 1]);
    forall d ensures Lookup(worlds[n + 1].docCache, d) == Lookup(worlds[n].docCache, d) {
      StepLookup(c.docCap, worlds[n].docCache, Op<DocId, string>.Get(id), d);
    }
  }

  /** A delete removes the row and its terms if it succeeds, always uncaches the document, and empties the
      posting cache if and only if the document was cached. Nothing else changes. */
  lemma DeleteEffect(c: Config, worlds: seq<World>, reqs: seq<Request>, n: nat, id: DocId, deleted: bool)
    requires Behaviour(c, worlds, reqs) && n < |reqs| && reqs[n] == Delete(id, deleted)
    ensures var w, w' := worlds[n], worlds[n + 1];
            && (deleted ==> id in w.documents && id !in w'.documents)
            && (forall d :: d != id || !deleted ==> (d in w'.documents <==> d in w.documents))
            && (forall d :: d in w'.documents ==> w'.documents[d] == w.documents[d])
            && (forall d, x :: (d, x) in w'.tf <==> (d, x) in w.tf && (d != id || !deleted))
            && (forall k :: k in w'.tf ==> w'.tf[k] == w.tf[k])
            && (forall d :: Lookup(w'.docCache, d) == if d == id then None else Lookup(w.docCache, d))
            && (if Resident(w.docCache, id) then w'.tfCache == [] else w'.tfCache == w.tfCache) && w'.idf == w.idf
  {
    hide Tokenize, StoredFrequency, IndexMatches, GoodPostings, Without, Lookup;
    assert Next(c, worlds[n], reqs[n], worlds[n + 1]);
    forall d ensures Lookup(worlds[n + 1].docCache, d) == if d == id then None else Lookup(worlds[n].docCache, d) {
      WithoutLookup(worlds[n].docCache, id, d);
    }
  }

  // ---------- search ----------

  /** A query without tokens finds nothing and changes nothing; any other touches no table. */
  lemma SearchKeepsTables(c: Config, worlds: seq<World>, reqs: seq<Request>, n: nat, query: string, topK: int,
                          run: SearchRun, results: seq<SearchResult>)
    requires Behaviour(c, worlds, reqs) && n < |reqs| && reqs[n] == Search(query, topK, run, results)
    ensures var w, w' := worlds[n], worlds[n + 1];
            && w'.documents == w.documents && w'.tf == w.tf && w'.idf == w.idf
            && (Tokenize(query) == [] ==> results == [] && w' == w)
  {
    hide Tokenize, Missed, AfterGets, PutGroups, Scores, Fetch, TopK, Selects, GroupOrder;
    assert Next(c, worlds[n], reqs[n], worlds[n + 1]);
  }

  /** Puts of different words leave the entry where it is, up to one place each. */
  lemma {:induction false} PutGroupsNear(cap: Capacity, l: PostingCache, rs: seq<TermFrequency>, order: seq<string>,
                                         k: string, v: seq<Posting>, n: nat)
    requires Near(l, k, v, n) && k !in order && n + |order| < cap
    ensures Near(PutGroups(cap, l, rs, order), k, v, n + |order|)
    decreases |order|
  {
    hide AfterPut, GroupOf, Near;
    if order != [] {
      assert order[0] in order;
      PutNear(cap, l, k, v, order[0], GroupOf(rs, order[0]), n);
      PutGroupsNear(cap, AfterPut(cap, l, order[0], GroupOf(rs, order[0])), rs, order[1..], k, v, n + 1);
    }
  }

  /** The last groups, as many as the cache has room for, are in the cache at the end. */
  lemma {:induction false} PutGroupsKeeps(cap: Capacity, l: PostingCache, rs: seq<TermFrequency>, order: seq<string>,
                                          i: nat)
    requires Distinct(order) && i < |order| && |order| - i <= cap
    ensures Near(PutGroups(cap, l, rs, order), order[i], GroupOf(rs, order[i]), |order| - i - 1)
    decreases |order|
  {
    hide AfterPut, GroupOf, Near;
    var next := AfterPut(cap, l, order[0], GroupOf(rs, order[0]));
    if i > 0 {
      PutGroupsKeeps(cap, next, rs, order[1..], i - 1);
    } else {
      PutFirst(cap, l, order[0], GroupOf(rs, order[0]));
      PutGroupsNear(cap, next, rs, order[1..], order[0], GroupOf(rs, order[0]), 0);
    }
  }

  /** A search whose select works leaves the full posting list of every word it fetched in the posting
      cache, if they fit; of the words that do not fit, the ones it puts last. It changes no table. */
  lemma SearchFillsPostings(c: Config, worlds: seq<World>, reqs: seq<Request>, n: nat, query: string, topK: int,
                            run: SearchRun, results: seq<SearchResult>, i: nat)
    requires Behaviour(c, worlds, reqs) && n < |reqs| && reqs[n] == Search(query, topK, run, results)
    requires Tokenize(query) != [] && Selects(run.rows, worlds[n].tf, Missed(worlds[n].tfCache, Tokenize(query)))
    requires i < |run.order| && |run.order| - i <= c.tfCap
    ensures var w, w' := worlds[n], worlds[n + 1];
            && w'.documents == w.documents && w'.tf == w.tf && w'.idf == w.idf
            && Resident(w'.tfCache, run.order[i])
            && IsPostingList(Lookup(w'.tfCache, run.order[i]).value, w.tf, run.order[i])
  {
    hide Tokenize, Missed, AfterGets, PutGroups, GroupOf, TopK, Scores, Fetch, Inv, Lookup, Near, IsPostingList;
    var w, w', word := worlds[n], worlds[n + 1], run.order[i];
    BehaviourInv(c, worlds, reqs, n + 1);
    assert CacheFits(c.tfCap, w'.tfCache) by {
      FitsAfter(c, w');
    }
    assert Next(c, w, reqs[n], w');
    PutGroupsKeeps(c.tfCap, AfterGets(w.tfCache, Tokenize(query)), run.rows, run.order, i);
    NearFound(w'.tfCache, word, GroupOf(run.rows, word), |run.order| - i - 1);
    assert word in run.order;
    var r :| 0 <= r < |run.rows| && run.rows[r].word == word;
    SelectedGroup(run.rows, w.tf, Missed(w.tfCache, Tokenize(query)), word);
  }

  lemma FitsAfter(c: Config, w: World)
    requires Inv(c, w)
    ensures CacheFits(c.tfCap, w.tfCache) && CacheFits(c.docCap, w.docCache)
  {
  }

  /** The words a search fetches: those that were not cached and have a row. */
  lemma FetchedWords(w: World, tokens: seq<string>, run: SearchRun)
    requires Selects(run.rows, w.tf, Missed(w.tfCache, tokens)) && GroupOrder(run.rows, run.order)
    ensures forall x :: x in run.order <==> x in tokens && !Resident(w.tfCache, x) && exists d :: (d, x) in w.tf
  {
    hide Missed, Lookup;
    MissedMembers(w.tfCache, tokens);
    forall x ensures x in run.order <==> x in tokens && !Resident(w.tfCache, x) && exists d :: (d, x) in w.tf {
      if x in run.order {
        var i :| 0 <= i < |run.rows| && run.rows[i].word == x;
        assert (run.rows[i].docId, x) in w.tf;
      }
      if x in tokens && !Resident(w.tfCache, x) && exists d :: (d, x) in w.tf {
        var d :| (d, x) in w.tf;
        var i :| 0 <= i < |run.rows| && run.rows[i].docId == d && run.rows[i].word == x;
      }
    }
  }

  /** One text fetched: its document comes to the front, and any other moves back by one place at most. */
  lemma FetchStepNear(cap: Capacity, l: DocumentCache, documents: map<DocId, string>, d: DocId, failed: bool, k: DocId,
                      v: string, n: nat)
    requires Near(l, k, v, n) && k != d && n + 1 < cap
    ensures Near(FetchStep(cap, l, documents, d, failed).0, k, v, n + 1)
  {
    hide Lookup, AfterGet, AfterPut, Near;
    GetNear(l, k, v, d, n);
    assert Near(l, k, v, n + 1) by {
      NearGrows(l, k, v, n);
    }
    if d in documents {
      PutNear(cap, l, k, v, d, documents[d], n);
    }
  }

  lemma NearGrows<K, V>(l: seq<Entry<K, V>>, k: K, v: V, n: nat)
    requires Near(l, k, v, n)
    ensures Near(l, k, v, n + 1)
  {
  }

  lemma FetchStepFirst(cap: Capacity, l: DocumentCache, documents: map<DocId, string>, d: DocId, failed: bool)
    requires CacheFits(cap, l) && forall e :: e in l ==> e.key in documents && documents[e.key] == e.value
    requires d in documents && !failed
    ensures Near(FetchStep(cap, l, documents, d, failed).0, d, documents[d], 0)
  {
    hide AfterGet, AfterPut, Near;
    LookupFound(l, d);
    if Resident(l, d) {
      GetFirst(l, d);
    } else {
      PutFirst(cap, l, d, documents[d]);
    }
  }

  lemma {:induction false} FetchNear(cap: Capacity, l: DocumentCache, documents: map<DocId, string>,
                                     ranked: seq<Scored>, fails: seq<bool>, k: DocId, v: string, n: nat)
    requires |fails| == |ranked| && Near(l, k, v, n) && n + |ranked| < cap
    requires forall i :: 0 <= i < |ranked| ==> ranked[i].docId != k
    ensures Near(Fetch(cap, l, documents, ranked, fails).0, k, v, n + |ranked|)
    decreases |ranked|
  {
    hide FetchStep, Near;
    if ranked != [] {
      FetchStepNear(cap, l, documents, ranked[0].docId, fails[0], k, v, n);
      FetchNear(cap, FetchStep(cap, l, documents, ranked[0].docId, fails[0]).0, documents, ranked[1..], fails[1..],
                k, v, n + 1);
    }
  }

  lemma {:induction false} FetchKeeps(cap: Capacity, l: DocumentCache, documents: map<DocId, string>,
                                      ranked: seq<Scored>, fails: seq<bool>, i: nat)
    requires |fails| == |ranked| && i < |ranked| && |ranked| - i <= cap && !fails[i] && ranked[i].docId in documents
    requires CacheFits(cap, l) && forall e :: e in l ==> e.key in documents && documents[e.key] == e.value
    requires forall j, m :: 0 <= j < m < |ranked| ==> ranked[j].docId != ranked[m].docId
    ensures Near(Fetch(cap, l, documents, ranked, fails).0, ranked[i].docId, documents[ranked[i].docId],
                 |ranked| - i - 1)
    decreases |ranked|
  {
    hide FetchStep, Near;
    var d := ranked[0].docId;
    var next := FetchStep(cap, l, documents, d, fails[0]).0;
    if i > 0 {
      FetchStepFits(cap, l, documents, d, fails[0]);
      FetchKeeps(cap, next, documents, ranked[1..], fails[1..], i - 1);
    } else {
      FetchStepFirst(cap, l, documents, d, fails[0]);
      FetchNear(cap, next, documents, ranked[1..], fails[1..], d, documents[d], 0);
    }
  }

  lemma FetchStepFits(cap: Capacity, l: DocumentCache, documents: map<DocId, string>, d: DocId, failed: bool)
    requires CacheFits(cap, l) && forall e :: e in l ==> e.key in documents && documents[e.key] == e.value
    ensures var next := FetchStep(cap, l, documents, d, failed).0;
            CacheFits(cap, next) && forall e :: e in next ==> e.key in documents && documents[e.key] == e.value
  {
    hide Lookup, AfterGet, AfterPut;
    GetMembers(cap, l, d);
    if d in documents {
      PutMembers(cap, l, d, documents[d]);
    }
  }

  /** A search leaves the documents it lists in the document cache, if they exist, their selects work, and
      they fit; of those that do not fit, the ones ranked last. */
  lemma SearchFillsDocuments(c: Config, worlds: seq<World>, reqs: seq<Request>, n: nat, query: string, topK: int,
                             run: SearchRun, results: seq<SearchResult>, i: nat)
    requires Behaviour(c, worlds, reqs) && n < |reqs| && reqs[n] == Search(query, topK, run, results)
    requires Tokenize(query) != [] && i < |results| == |run.fails| && |results| - i <= c.docCap
    requires !run.fails[i] && results[i].docId in worlds[n].documents
    ensures Lookup(worlds[n + 1].docCache, results[i].docId) == Some(worlds[n].documents[results[i].docId])
  {
    hide Tokenize, Missed, AfterGets, PutGroups, Scores, Fetch, IndexMatches, GoodPostings, Lookup, Near;
    var w, w' := worlds[n], worlds[n + 1];
    BehaviourInv(c, worlds, reqs, n);
    BehaviourInv(c, worlds, reqs, n + 1);
    assert Next(c, w, reqs[n], w');
    SearchTexts(c, worlds, reqs, n, query, topK, run, results);
    FetchKeeps(c.docCap, w.docCache, w.documents, run.ranked, run.fails, i);
    NearFound(w'.docCache, results[i].docId, w.documents[results[i].docId], |run.ranked| - i - 1);
  }
}
