/** Whether searches go on listing a deleted document although operations interleave. Clearing the posting
    cache is not enough: a search that has grouped its rows before caches them afterwards. */
module InterleavingLists {
  import opened Wrappers
  import opened RecencyList
  import opened Tokenizer
  import opened TokenizerLaws
  import opened TermFrequency
  import opened SearchSpec
  import opened Scoring
  import opened Ranking
  import opened Engine
  import opened EngineInvariants
  import opened EngineRuns
  import opened Interleaving
  import opened InterleavingProofs
  import opened InterleavingRuns
  import opened InterleavingHistory
  import opened InterleavingLeaks
  import opened Operations
  import opened Serial
  import opened Serving

  /** A posting list that is cached, or about to be, mentions d. */
  ghost predicate Mentioned(s: State, d: DocId) {
    exists e, p :: Held(s, e) && p in e.value && p.docId == d
  }

  /** Thread q has finished a search whose results list d; EndSearch hands them to the client. */
  ghost predicate AboutToList(s: State, q: ProcId, d: DocId) {
    && q in s.procs && s.procs[q].Fetching? && s.procs[q].todo == []
    && exists r :: r in s.procs[q].results && r.docId == d
  }

  /** Nothing the thread has collected so far mentions d. */
  ghost predicate Free(proc: Proc, d: DocId) {
    match proc
    case LookingUp(_, _, records, _) => forall r :: r in records ==> r.docId != d
    case Filling(_, records, _) => forall r :: r in records ==> r.docId != d
    case Fetching(todo, results) => NotAmong(todo, results, d)
    case FetchMissed(todo, results) => NotAmong(todo, results, d)
    case FetchFound(todo, results, _) => NotAmong(todo, results, d)
    case _ => true
  }

  ghost predicate NotAmong(todo: seq<Scored>, results: seq<SearchResult>, d: DocId) {
    (forall t :: t in todo ==> t.docId != d) && forall r :: r in results ==> r.docId != d
  }

  // ---------- without a mention it is not listed again ----------

  lemma NotStored(c: Config, s: State, d: DocId, word: string, ps: seq<Posting>)
    requires Consistent(c, s) && d !in s.documents && IsPostingList(ps, s.tf, word)
    ensures forall p :: p in ps ==> p.docId != d
  {
    hide Tokenize, StoredFrequency, GoodPostings, GoodProc;
  }

  /** No action brings back a mention of a deleted document. */
  lemma MentionsStayAway(c: Config, s: State, a: Action, d: DocId)
    requires Consistent(c, s) && Enabled(s, a) && d in s.deleted && !Mentioned(s, d)
    ensures !Mentioned(Apply(c, s, a), d)
  {
    hide Consistent, Held, Enabled, Apply, IsPostingList;
    DeletedFacts(c, s, d);
    forall e, p | Held(Apply(c, s, a), e) && p in e.value ensures p.docId != d {
      HeldSources(c, s, a, e);
      if !Held(s, e) {
        NotStored(c, s, d, e.key, e.value);
      }
    }
  }

  lemma HitFree(s: State, w: string, ps: seq<Posting>, d: DocId)
    requires !Mentioned(s, d) && Lookup(s.tfCache, w) == Some(ps)
    ensures forall r :: r in RecordsOf(w, ps) ==> r.docId != d
  {
    LookupFound(s.tfCache, w);
    assert Held(s, Entry(w, ps));
    RecordsMembers(w, ps);
  }

  lemma RowsFree(c: Config, s: State, rows: seq<TermFrequency>, words: seq<string>, d: DocId)
    requires Consistent(c, s) && d !in s.documents && (rows == [] || Selects(rows, s.tf, words))
    ensures forall r :: r in rows ==> r.docId != d
  {
    hide Tokenize, StoredFrequency, GoodPostings, GoodProc;
    forall r | r in rows ensures r.docId != d {
      var i :| 0 <= i < |rows| && rows[i] == r;
      assert (r.docId, r.word) in s.tf;
    }
  }

  lemma RankedFree(ranked: seq<Scored>, records: seq<TermFrequency>, idf: map<string, real>, n: nat, topK: int,
                   d: DocId)
    requires n > 0 && TopK(ranked, Scores(records, idf, n), topK) && forall r :: r in records ==> r.docId != d
    ensures NotAmong(ranked, [], d)
  {
    hide TotalScore;
    forall t | t in ranked ensures t.docId != d {
      var i :| 0 <= i < |ranked| && ranked[i] == t;
      assert ranked[i].docId in Scores(records, idf, n);
    }
  }

  /** One more text: the document it belongs to was ranked. */
  lemma FetchedFree(proc: Proc, text: string, d: DocId)
    requires (proc.Fetching? || proc.FetchMissed? || proc.FetchFound?) && proc.todo != [] && Free(proc, d)
    ensures Free(Fetched(proc, text), d)
  {
    assert proc.todo[0] in proc.todo;
  }

  lemma LookingStaysFree(c: Config, s: State, a: Action, d: DocId)
    requires Consistent(c, s) && Enabled(s, a) && d in s.deleted && !Mentioned(s, d)
    requires a.p in s.procs && s.procs[a.p].LookingUp? && Free(s.procs[a.p], d)
    ensures a.p in Apply(c, s, a).procs && Free(Apply(c, s, a).procs[a.p], d)
  {
    hide Consistent, Mentioned, Enabled, Apply, Lookup, AfterGet, RecordsOf, GroupList, Selects, GroupOrder;
    var proc := s.procs[a.p];
    DeletedFacts(c, s, d);
    if proc.next < |proc.tokens| {
      AtToken(c, s, a.p, a);
      var w := proc.tokens[proc.next];
      if Lookup(s.tfCache, w).Some? {
        HitFree(s, w, Lookup(s.tfCache, w).value, d);
      }
    } else {
      AtRows(c, s, a.p, a);
      RowsFree(c, s, a.rows, proc.missed, d);
    }
  }

  lemma FillingStaysFree(c: Config, s: State, a: Action, d: DocId)
    requires Enabled(s, a) && a.p in s.procs && s.procs[a.p].Filling? && Free(s.procs[a.p], d)
    ensures a.p in Apply(c, s, a).procs && Free(Apply(c, s, a).procs[a.p], d)
  {
    hide Enabled, Apply, AfterPut, TopK, Scores;
    var proc := s.procs[a.p];
    if proc.groups != [] {
      AtGroup(c, s, a.p, a);
    } else {
      HasTokens(s, a);
      AtRank(c, s, a.p, a);
      RankedFree(a.ranked, proc.records, a.idf, |proc.tokens|, a.topK, d);
    }
  }

  lemma HasTokens(s: State, a: Action)
    requires a.p in s.procs && s.procs[a.p].Filling? && s.procs[a.p].groups == [] && Enabled(s, a)
    ensures s.procs[a.p].tokens != []
  {
    hide TopK, Scores;
  }

  lemma FetchingStaysFree(c: Config, s: State, a: Action, d: DocId)
    requires Enabled(s, a) && a.p in s.procs && Free(s.procs[a.p], d)
    requires s.procs[a.p].Fetching? || s.procs[a.p].FetchMissed? || s.procs[a.p].FetchFound?
    ensures a.p in Apply(c, s, a).procs && Free(Apply(c, s, a).procs[a.p], d)
  {
    hide Enabled, Apply, Lookup, AfterGet, AfterPut, Select, ReplyTexts, Fetched;
    var proc := s.procs[a.p];
    if proc.todo == [] {
      FetchingOnly(s, a);
      AtEnd(c, s, a.p, a);
    } else {
      forall text ensures Free(Fetched(proc, text), d) {
        FetchedFree(proc, text, d);
      }
      match proc {
        case Fetching(_, _) => AtFetch(c, s, a.p, a);
        case FetchMissed(_, _) => AtFetchMissed(c, s, a.p, a);
        case FetchFound(_, _, _) => AtFetchFound(c, s, a.p, a);
      }
    }
  }

  lemma FetchingOnly(s: State, a: Action)
    requires Enabled(s, a) && a.p in s.procs
    requires s.procs[a.p].Fetching? || s.procs[a.p].FetchMissed? || s.procs[a.p].FetchFound?
    ensures s.procs[a.p].todo == [] ==> s.procs[a.p].Fetching?
  {
  }

  /** The other points of a request lead to no collected results. */
  lemma OtherwiseFree(c: Config, s: State, a: Action, d: DocId)
    requires Enabled(s, a) && a.p in s.procs
    requires var proc := s.procs[a.p];
             !proc.LookingUp? && !proc.Filling? && !proc.Fetching? && !proc.FetchMissed? && !proc.FetchFound?
    ensures a.p in Apply(c, s, a).procs && Free(Apply(c, s, a).procs[a.p], d)
  {
    hide Enabled, Apply, AfterPut, Select, Inserted, RowDeleted;
    match s.procs[a.p] {
      case Idle => StartsFree(c, s, a, d);
      case Inserting(_, _, _, _, _, _) =>
        if s.procs[a.p].next < |s.procs[a.p].freqs| {
          AtInsert(c, s, a.p, a);
          StaysInserting(s.procs[a.p], a.inserted);
        } else {
          AtEndInserts(c, s, a.p, a);
        }
      case Uncommitted(_, _, _) => AtCommit(c, s, a.p, a);
      case ReadMissed(_) => AtReadMissed(c, s, a.p, a);
      case Clearing(_) => AtClearing(c, s, a.p, a);
      case Deleting(_) => AtDeleting(c, s, a.p, a);
    }
  }

  lemma StartsFree(c: Config, s: State, a: Action, d: DocId)
    requires Enabled(s, a) && a.p in s.procs && s.procs[a.p].Idle?
    ensures a.p in Apply(c, s, a).procs && Free(Apply(c, s, a).procs[a.p], d)
  {
    hide Lookup, AfterGet, Without, Tokenize, Computed;
  }

  lemma StaysInserting(proc: Proc, inserted: bool)
    requires proc.Inserting? && proc.next < |proc.freqs|
    ensures Inserted(proc, inserted).Inserting?
  {
  }

  lemma ThreadStaysFree(c: Config, s: State, a: Action, q: ProcId, d: DocId)
    requires Consistent(c, s) && Enabled(s, a) && d in s.deleted && !Mentioned(s, d)
    requires q in s.procs && Free(s.procs[q], d)
    ensures q in Apply(c, s, a).procs && Free(Apply(c, s, a).procs[q], d) && d in Apply(c, s, a).deleted
  {
    hide Consistent, Mentioned, Free, Enabled, Apply;
    OthersStay(c, s, a);
    if a.p == q {
      var proc := s.procs[q];
      if proc.LookingUp? {
        LookingStaysFree(c, s, a, d);
      } else if proc.Filling? {
        FillingStaysFree(c, s, a, d);
      } else if proc.Fetching? || proc.FetchMissed? || proc.FetchFound? {
        FetchingStaysFree(c, s, a, d);
      } else {
        OtherwiseFree(c, s, a, d);
      }
    }
  }

  lemma {:induction false} StaysFree(c: Config, s: State, actions: seq<Action>, s': State, q: ProcId, d: DocId)
    requires Consistent(c, s) && Executes(c, s, actions, s') && d in s.deleted && !Mentioned(s, d)
    requires q in s.procs && Free(s.procs[q], d)
    ensures q in s'.procs && Free(s'.procs[q], d) && d in s'.deleted && !Mentioned(s', d)
    decreases |actions|
  {
    hide Consistent, Mentioned, Free, Enabled, Apply;
    if actions != [] {
      ActionInv(c, s, actions[0]);
      MentionsStayAway(c, s, actions[0], d);
      ThreadStaysFree(c, s, actions[0], q, d);
      StaysFree(c, Apply(c, s, actions[0]), actions[1..], s', q, d);
    }
  }

  /** A deleted document that no held list mentions is in the results of no search that starts later. */
  lemma NotListedLater(c: Config, s: State, actions: seq<Action>, s': State, q: ProcId, d: DocId)
    requires Consistent(c, s) && Executes(c, s, actions, s') && d in s.deleted && !Mentioned(s, d)
    requires q in s.procs && s.procs[q].Idle?
    ensures !AboutToList(s', q, d)
  {
    hide Consistent, Mentioned, Executes;
    StaysFree(c, s, actions, s', q, d);
  }

  // ---------- with a mention it is ----------

  /** A search that holds the list caches it. */
  lemma {:induction false} PutUntil(c: Config, s: State, p: ProcId, i: nat) returns (actions: seq<Action>, s': State)
    requires p in s.procs && s.procs[p].Filling? && i < |s.procs[p].groups|
    ensures Executes(c, s, actions, s')
    ensures var g := s.procs[p].groups[i]; Lookup(s'.tfCache, g.key) == Some(g.value)
    ensures forall q :: q in s.procs && q != p ==> q in s'.procs && s'.procs[q] == s.procs[q]
    decreases i
  {
    hide Lookup, AfterPut, Executes, Enabled, Apply;
    var a, g := PutGroup(p), s.procs[p].groups[0];
    AtGroup(c, s, p, a);
    ExecutesOne(c, s, a);
    actions, s' := [a], Apply(c, s, a);
    if i == 0 {
      PutFound(c.tfCap, s.tfCache, g.key, g.value);
    } else {
      var rest;
      rest, s' := PutUntil(c, s', p, i - 1);
      ExecutesCons(c, s, a, rest, s');
      actions := [a] + rest;
    }
  }

  /** A list that is held gets cached, without the other threads. */
  lemma HeldGetsCached(c: Config, s: State, e: Entry<string, seq<Posting>>, q: ProcId)
      returns (actions: seq<Action>, s': State)
    requires Consistent(c, s) && Held(s, e) && q in s.procs && s.procs[q].Idle?
    ensures Executes(c, s, actions, s')
    ensures Lookup(s'.tfCache, e.key) == Some(e.value) && q in s'.procs && s'.procs[q].Idle?
  {
    hide Consistent, CachesGood, Lookup, Executes, Enabled, Apply;
    if e in s.tfCache {
      CachesOf(c, s);
      FitsCache(c, s);
      LookupIsMembership(s.tfCache, e.key, e.value);
      ExecutesNil(c, s);
      actions, s' := [], s;
    } else {
      var p :| p in s.procs && s.procs[p].Filling? && e in s.procs[p].groups;
      var i :| 0 <= i < |s.procs[p].groups| && s.procs[p].groups[i] == e;
      actions, s' := PutUntil(c, s, p, i);
    }
  }

  /** The word of a held list is a query that tokenizes to itself. */
  lemma HeldWord(c: Config, s: State, e: Entry<string, seq<Posting>>)
    requires Consistent(c, s) && Held(s, e)
    ensures Tokenize(e.key) == [e.key]
  {
    hide Consistent, Tokenize, StoredFrequency, IsToken;
    assert GoodPostings(s.origin, e.key, e.value) by {
      CachesOf(c, s);
      if e !in s.tfCache {
        var p :| p in s.procs && s.procs[p].Filling? && e in s.procs[p].groups;
        ProcOf(c, s, p);
      }
    }
    var p := e.value[0];
    assert p in e.value;
    TokenShape(s.origin[p.docId]);
    var i :| 0 <= i < |Tokenize(s.origin[p.docId])| && Tokenize(s.origin[p.docId])[i] == e.key;
    TokenizeToken(e.key);
  }

  /** The lookups of a one-word search that hits. */
  lemma SearchHits(c: Config, s: State, q: ProcId, w: string, ps: seq<Posting>)
      returns (actions: seq<Action>, s': State)
    requires q in s.procs && s.procs[q].Idle? && Tokenize(w) == [w] && Lookup(s.tfCache, w) == Some(ps)
    ensures Executes(c, s, actions, s')
    ensures q in s'.procs && s'.procs[q] == Filling([w], RecordsOf(w, ps), [])
  {
    hide Tokenize, Lookup, AfterGet, RecordsOf, Executes, Enabled, Apply;
    var begin, lookup, select := BeginSearch(q, w), LookupToken(q), SelectRows(q, [], []);
    BeginsSearch(c, s, q, w);
    var s1 := Apply(c, s, begin);
    AtToken(c, s1, q, lookup);
    var s2 := Apply(c, s1, lookup);
    assert [] + RecordsOf(w, ps) == RecordsOf(w, ps);
    AtRows(c, s2, q, select);
    NoRows();
    s' := Apply(c, s2, select);
    assert RecordsOf(w, ps) + [] == RecordsOf(w, ps);
    actions := [begin, lookup, select];
    ExecutesThree(c, s, actions, s1, s2, s');
  }

  lemma BeginsSearch(c: Config, s: State, q: ProcId, w: string)
    requires q in s.procs && s.procs[q].Idle? && Tokenize(w) == [w]
    ensures Enabled(s, BeginSearch(q, w)) && Apply(c, s, BeginSearch(q, w)) == Goto(s, q, LookingUp([w], 0, [], []))
  {
    hide Tokenize;
  }

  lemma NoRows()
    ensures GroupOrder([], []) && GroupList([], []) == []
  {
  }

  /** With an IDF table in which the word has no value all documents of the list tie, so d can be ranked. */
  lemma RankFirst(w: string, ps: seq<Posting>, p: Posting, topK: int) returns (ranked: seq<Scored>)
    requires p in ps && topK != 0
    ensures TopK(ranked, Scores(RecordsOf(w, ps), map[], 1), topK) && ranked != [] && ranked[0].docId == p.docId
  {
    hide TopK, TotalScore;
    var records := RecordsOf(w, ps);
    var scores := Scores(records, map[], 1);
    RecordsMembers(w, ps);
    assert TermFrequency(p.docId, w, p.frequency) in records && p.docId in scores;
    forall e | e in scores ensures scores[e] == 0.0 {
      WeightlessTotal(records, e, map[]);
      assert 0.0 / 1 as real == 0.0;
    }
    ranked := RankingWithFirst(scores, topK, p.docId);
  }

  /** The operations that fetch one text. */
  lemma FetchOne(c: Config, s: State, q: ProcId) returns (actions: seq<Action>, s': State, text: string)
    requires q in s.procs && s.procs[q].Fetching? && s.procs[q].todo != []
    ensures Executes(c, s, actions, s')
    ensures q in s'.procs && s'.procs[q] == Fetched(s.procs[q], text)
  {
    hide Lookup, AfterGet, AfterPut, Select, Executes, Enabled, Apply;
    var lookup, select, put := FetchLookup(q), FetchSelect(q, false), FetchPut(q);
    AtFetch(c, s, q, lookup);
    ExecutesOne(c, s, lookup);
    actions, s' := [lookup], Apply(c, s, lookup);
    match Lookup(s.docCache, s.procs[q].todo[0].docId)
    case Some(t) => text := t;
    case None =>
      AtFetchMissed(c, s', q, select);
      var s2 := Apply(c, s', select);
      ExecutesSnoc(c, s, actions, s', select);
      actions := actions + [select];
      match Select(s'.documents, s.procs[q].todo[0].docId, false)
      case Some(t) =>
        AtFetchFound(c, s2, q, put);
        ExecutesSnoc(c, s, actions, s2, put);
        actions, s', text := actions + [put], Apply(c, s2, put), t;
      case None => s', text := s2, "";
  }

  /** The whole fetch loop: every ranked document gets a result. */
  lemma {:induction false} FetchAll(c: Config, s: State, q: ProcId, d: DocId) returns (actions: seq<Action>, s': State)
    requires q in s.procs && s.procs[q].Fetching?
    requires (exists t :: t in s.procs[q].todo && t.docId == d) || exists r :: r in s.procs[q].results && r.docId == d
    ensures Executes(c, s, actions, s') && AboutToList(s', q, d)
    decreases if q in s.procs && s.procs[q].Fetching? then |s.procs[q].todo| else 0
  {
    hide Executes, Enabled, Apply;
    if s.procs[q].todo == [] {
      ExecutesNil(c, s);
      actions, s' := [], s;
    } else {
      var first, m, text := FetchOne(c, s, q);
      ResultAdded(s.procs[q], text, d);
      var rest;
      rest, s' := FetchAll(c, m, q, d);
      ExecutesConcat(c, s, first, m, rest, s');
      actions := first + rest;
    }
  }

  lemma ResultAdded(proc: Proc, text: string, d: DocId)
    requires proc.Fetching? && proc.todo != []
    requires (exists t :: t in proc.todo && t.docId == d) || exists r :: r in proc.results && r.docId == d
    ensures var next := Fetched(proc, text);
            (exists t :: t in next.todo && t.docId == d) || exists r :: r in next.results && r.docId == d
  {
    var next := Fetched(proc, text);
    assert next.results[|proc.results|].docId == proc.todo[0].docId;
    assert next.results[|proc.results|] in next.results;
    if t :| t in proc.todo && t.docId == d {
      assert t == proc.todo[0] || t in next.todo;
    } else {
      var r :| r in proc.results && r.docId == d;
      assert r in next.results;
    }
  }

  /** Any idle thread can come to list the document. */
  lemma MentionIsListed(c: Config, s: State, q: ProcId, d: DocId) returns (actions: seq<Action>, s': State)
    requires Consistent(c, s) && Mentioned(s, d) && q in s.procs && s.procs[q].Idle?
    ensures Executes(c, s, actions, s') && AboutToList(s', q, d)
  {
    hide Consistent, Held, Tokenize, Lookup, RecordsOf, TopK, Scores, AboutToList, Executes, Enabled, Apply;
    var e, p :| Held(s, e) && p in e.value && p.docId == d;
    HeldWord(c, s, e);
    var first, s1 := HeldGetsCached(c, s, e, q);
    var second, s2 := SearchHits(c, s1, q, e.key, e.value);
    var ranked := RankFirst(e.key, e.value, p, 3);
    var rank := RankDocuments(q, ranked, map[], 3);
    AtRank(c, s2, q, rank);
    var s3 := Apply(c, s2, rank);
    assert ranked[0] in s3.procs[q].todo;
    var third;
    third, s' := FetchAll(c, s3, q, d);
    ExecutesConcat(c, s, first, s1, second, s2);
    ExecutesSnoc(c, s, first + second, s2, rank);
    ExecutesConcat(c, s, first + second + [rank], s3, third, s');
    actions := first + second + [rank] + third;
  }

  // ---------- exactly when ----------

  /** For a delete, in every execution: after the row is deleted, some later search lists the document if and
      only if at that moment a list that is cached, or held by a search that has grouped its rows and not
      cached them yet, mentions it. The thread that deleted the row stands for any idle one. */
  lemma ListingIsFinalIff(c: Config, s0: State, before: seq<Action>, s: State, p: ProcId)
    requires Initially(s0) && Executes(c, s0, before, s) && Enabled(s, DeleteRow(p, true))
    ensures var d, s1 := s.procs[p].id, Apply(c, s, DeleteRow(p, true));
            (exists later, s' :: Executes(c, s1, later, s') && AboutToList(s', p, d)) <==> Mentioned(s, d)
  {
    var d, s1 := s.procs[p].id, Apply(c, s, DeleteRow(p, true));
    hide Consistent, Initially, Mentioned, Executes, Enabled, Apply, AboutToList;
    InitiallyConsistent(c, s0);
    RunConsistent(c, s0, before, s);
    ActionInv(c, s, DeleteRow(p, true));
    RowGone(c, s, p);
    if Mentioned(s, d) {
      var later, s' := MentionIsListed(c, s1, p, d);
    } else if later, s' :| Executes(c, s1, later, s') && AboutToList(s', p, d) {
      NotListedLater(c, s1, later, s', p, d);
    }
  }

  lemma RowGone(c: Config, s: State, p: ProcId)
    requires Enabled(s, DeleteRow(p, true))
    ensures var d, s1 := s.procs[p].id, Apply(c, s, DeleteRow(p, true));
            d in s1.deleted && p in s1.procs && s1.procs[p].Idle? && (Mentioned(s1, d) <==> Mentioned(s, d))
  {
    var d, s1 := s.procs[p].id, Apply(c, s, DeleteRow(p, true));
    forall e ensures Held(s1, e) <==> Held(s, e) {
      if q :| q in s.procs && s.procs[q].Filling? && e in s.procs[q].groups {
        assert s1.procs[q] == s.procs[q];
      }
    }
  }

  // ---------- a reachable instance: the posting cache is cleared, and still ----------

  lemma {:induction false} AloneExecutes(c: Config, k: Call, m: State, actions: seq<Action>, s': State)
    requires Alone(c, k, m, actions, s')
    ensures Executes(c, m, actions, s')
    decreases |actions|
  {
    hide Enabled, Apply, OfCall;
    var next := Apply(c, m, actions[0]);
    if k.p in next.procs && next.procs[k.p].Idle? {
      assert actions[1..] == [];
    } else {
      AloneExecutes(c, k, next, actions[1..], s');
    }
  }

  lemma GroupStaysHeld(t: string)
    ensures var s := Erased(Evicted(GroupedState(t), DOC), DOC, true);
            && DOC in s.deleted && DOC !in s.documents && s.tfCache == []
            && 1 in s.procs && s.procs[1].Idle? && Mentioned(s, DOC)
  {
    var s, g := Erased(Evicted(GroupedState(t), DOC), DOC, true), Entry(t, [Posting(DOC, 1.0)]);
    assert Resident(GroupedState(t).docCache, DOC);
    assert s.procs[0].Filling? && g in s.procs[0].groups;
    assert Held(s, g) && Posting(DOC, 1.0) in g.value;
  }

  /** Reachable from an empty system: a whole delete has cleared the posting cache and deleted the row, and
      a search that starts only then lists the document. */
  lemma ListedAfterClear(c: Config, t: string)
    requires IsToken(t)
    ensures exists before, s, later, s' ::
              && Initially(Start()) && Executes(c, Start(), before, s)
              && DOC in s.deleted && DOC !in s.documents && s.tfCache == [] && 1 in s.procs && s.procs[1].Idle?
              && Executes(c, s, later, s') && AboutToList(s', 1, DOC)
  {
    hide Consistent, Executes, Mentioned, AboutToList, Alone, Evicted, Erased;
    var u := GroupedState(t);
    var reach := ReachFilling(c, t);
    var delete := ServeDelete(c, Call(1, u, map[]), DOC, true);
    var s := Erased(Evicted(u, DOC), DOC, true);
    AloneExecutes(c, Call(1, u, map[]), u, delete, s);
    ExecutesConcat(c, Start(), reach, u, delete, s);
    InitiallyConsistent(c, Start());
    RunConsistent(c, Start(), reach + delete, s);
    GroupStaysHeld(t);
    var later, s' := MentionIsListed(c, s, 1, DOC);
  }
}
