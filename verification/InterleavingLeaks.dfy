/** When a delete is final although operations interleave: exactly when, at the deletion of the row, the
    document is neither cached nor held by a search that has read it and not cached it yet. */
module InterleavingLeaks {
  import opened Wrappers
  import opened RecencyList
  import opened Tokenizer
  import opened TermFrequency
  import opened SearchSpec
  import opened Engine
  import opened EngineInvariants
  import opened Interleaving
  import opened InterleavingProofs
  import opened InterleavingRuns

  /** A search thread has read d's row and is about to cache it. */
  ghost predicate AboutToCache(proc: Proc, d: DocId) {
    proc.FetchFound? && proc.todo != [] && proc.todo[0].docId == d
  }

  /** d's text is still on its way to readers without the table. */
  ghost predicate Leaks(s: State, d: DocId) {
    Resident(s.docCache, d) || exists p :: p in s.procs && AboutToCache(s.procs[p], d)
  }

  /** The action hands d's text to a client or to a search. */
  ghost predicate GivesText(s: State, a: Action, d: DocId)
    requires Enabled(s, a)
  {
    match a
    case BeginRead(_, id) => id == d && Resident(s.docCache, d)
    case ReadSelect(p, failed) => s.procs[p].id == d && Select(s.documents, d, failed).Some?
    case FetchLookup(p) => s.procs[p].todo[0].docId == d && Resident(s.docCache, d)
    case FetchSelect(p, failed) => s.procs[p].todo[0].docId == d && Select(s.documents, d, failed).Some?
    case FetchPut(p) => s.procs[p].todo[0].docId == d
    case _ => false
  }

  // ---------- without a leak the document stays away ----------

  /** The facts about a deleted document that the proofs below use. */
  lemma DeletedFacts(c: Config, s: State, d: DocId)
    requires Consistent(c, s) && d in s.deleted
    ensures d !in s.documents && CacheFits(c.docCap, s.docCache) && GoodText(s.origin, d, s.origin[d])
    ensures forall p :: p in s.procs ==> Pending(s.procs[p]) != Some(d)
  {
    hide GoodProc, GoodPostings, IndexMatches;
    assert d in Once(s) && d in s.origin;
  }

  /** No action caches a deleted document that does not leak already. */
  lemma CacheStaysClear(c: Config, s: State, a: Action, d: DocId)
    requires Consistent(c, s) && Enabled(s, a) && d in s.deleted && !Leaks(s, d)
    ensures !Resident(Apply(c, s, a).docCache, d)
  {
    hide Consistent, Lookup, AfterGet, AfterPut, Without, Tokenize;
    DeletedFacts(c, s, d);
    match a
    case EndInserts(p) =>
      assert Pending(s.procs[p]) == Some(s.procs[p].id);
      StepLookup(c.docCap, s.docCache, Op<DocId, string>.Put(s.procs[p].id, s.procs[p].text), d);
    case BeginRead(_, id) => StepLookup(c.docCap, s.docCache, Op<DocId, string>.Get(id), d);
    case BeginDelete(_, id) => StepLookup(c.docCap, s.docCache, Op<DocId, string>.Remove(id), d);
    case FetchLookup(p) => StepLookup(c.docCap, s.docCache, Op<DocId, string>.Get(s.procs[p].todo[0].docId), d);
    case FetchPut(p) =>
      assert !AboutToCache(s.procs[p], d);
      StepLookup(c.docCap, s.docCache, Op<DocId, string>.Put(s.procs[p].todo[0].docId, s.procs[p].text), d);
    case _ =>
  }

  /** Only a select during a fetch brings a thread to that point. */
  lemma OwnStaysClear(c: Config, s: State, a: Action, d: DocId)
    requires Enabled(s, a) && d !in s.documents && !AboutToCache(s.procs[a.p], d)
    ensures a.p in Apply(c, s, a).procs ==> !AboutToCache(Apply(c, s, a).procs[a.p], d)
  {
    if Searches(a) {
      SearchStaysClear(c, s, a, d);
    } else {
      hide Lookup, AfterGet, AfterPut, Without, Round6, Select, Computed;
    }
  }

  lemma SearchStaysClear(c: Config, s: State, a: Action, d: DocId)
    requires Enabled(s, a) && Searches(a) && d !in s.documents && !AboutToCache(s.procs[a.p], d)
    ensures a.p in Apply(c, s, a).procs ==> !AboutToCache(Apply(c, s, a).procs[a.p], d)
  {
    hide Lookup, AfterGet, AfterPut, Tokenize, RecordsOf, GroupList, ReplyTexts, Selects, GroupOrder, TopK, Scores;
  }

  lemma ThreadsStayClear(c: Config, s: State, a: Action, d: DocId)
    requires Consistent(c, s) && Enabled(s, a) && d in s.deleted && !Leaks(s, d)
    ensures d in Apply(c, s, a).deleted
    ensures forall p :: p in Apply(c, s, a).procs ==> !AboutToCache(Apply(c, s, a).procs[p], d)
  {
    hide Consistent, Enabled, Apply, AboutToCache;
    DeletedFacts(c, s, d);
    OthersStay(c, s, a);
    OwnStaysClear(c, s, a, d);
  }

  /** And so for any number of actions of any threads: no later state leaks it. */
  lemma {:induction false} StaysAway(c: Config, s: State, actions: seq<Action>, s': State, d: DocId)
    requires Consistent(c, s) && Executes(c, s, actions, s') && d in s.deleted && !Leaks(s, d)
    ensures Consistent(c, s') && d in s'.deleted && !Leaks(s', d)
    decreases |actions|
  {
    hide Consistent, Enabled, Apply, AboutToCache;
    if actions != [] {
      ActionInv(c, s, actions[0]);
      CacheStaysClear(c, s, actions[0], d);
      ThreadsStayClear(c, s, actions[0], d);
      StaysAway(c, Apply(c, s, actions[0]), actions[1..], s', d);
    }
  }

  /** From then on no read and no fetch, cached or from the table, gives out the text. */
  lemma NoTextLater(c: Config, s: State, actions: seq<Action>, s': State, a: Action, d: DocId)
    requires Consistent(c, s) && Executes(c, s, actions, s') && d in s.deleted && !Leaks(s, d) && Enabled(s', a)
    ensures !GivesText(s', a, d)
  {
    hide Consistent;
    StaysAway(c, s, actions, s', d);
    DeletedFacts(c, s', d);
    if a.FetchPut? {
      assert !AboutToCache(s'.procs[a.p], d);
    }
  }

  // ---------- with a leak it comes back ----------

  /** After the actions, a read by q that starts then replies with text for d. */
  ghost predicate Readable(c: Config, s: State, actions: seq<Action>, s': State, q: ProcId, d: DocId, text: string) {
    && Executes(c, s, actions, s')
    && Enabled(s', BeginRead(q, d))
    && Apply(c, s', BeginRead(q, d)).replies == s'.replies + [(d, text)]
  }

  lemma LeakIsReadable(c: Config, s: State, q: ProcId, d: DocId)
    requires Consistent(c, s) && d in s.origin && Leaks(s, d) && q in s.procs && s.procs[q].Idle?
    ensures exists actions, s' :: Readable(c, s, actions, s', q, d, s.origin[d])
  {
    hide Consistent, Lookup, Enabled, Apply, Executes;
    if Resident(s.docCache, d) {
      CachesOf(c, s);
      LookupFound(s.docCache, d);
      ReadHit(c, s, q, d, s.origin[d]);
      ExecutesNil(c, s);
      assert Readable(c, s, [], s, q, d, s.origin[d]);
    } else {
      var p :| p in s.procs && AboutToCache(s.procs[p], d);
      ProcOf(c, s, p);
      PutLeaks(c, s, p, d);
      var s' := Apply(c, s, FetchPut(p));
      ExecutesNil(c, s);
      ExecutesSnoc(c, s, [], s, FetchPut(p));
      ReadHit(c, s', q, d, s.origin[d]);
      assert Readable(c, s, [] + [FetchPut(p)], s', q, d, s.origin[d]);
    }
  }

  lemma PutLeaks(c: Config, s: State, p: ProcId, d: DocId)
    requires p in s.procs && AboutToCache(s.procs[p], d)
    ensures Enabled(s, FetchPut(p))
    ensures Lookup(Apply(c, s, FetchPut(p)).docCache, d) == Some(s.procs[p].text)
    ensures forall q :: q in s.procs && q != p ==>
              q in Apply(c, s, FetchPut(p)).procs && Apply(c, s, FetchPut(p)).procs[q] == s.procs[q]
  {
    hide Lookup, AfterPut;
    PutFound(c.docCap, s.docCache, d, s.procs[p].text);
  }

  /** The exact condition: a deleted document can be read again, by a thread that is idle now, if and
      only if it leaks. */
  lemma ReadableIffLeaks(c: Config, s: State, q: ProcId, d: DocId)
    requires Consistent(c, s) && d in s.deleted && d in s.origin && q in s.procs && s.procs[q].Idle?
    ensures (exists actions, s' :: Readable(c, s, actions, s', q, d, s.origin[d])) <==> Leaks(s, d)
  {
    hide Consistent, Leaks, Enabled, Apply, Executes;
    if Leaks(s, d) {
      LeakIsReadable(c, s, q, d);
    } else if actions, s' :| Readable(c, s, actions, s', q, d, s.origin[d]) {
      NoTextLater(c, s, actions, s', BeginRead(q, d), d);
      ReadGives(c, s', q, d);
    }
  }

  lemma ReadGives(c: Config, s: State, q: ProcId, d: DocId)
    requires Enabled(s, BeginRead(q, d)) && !GivesText(s, BeginRead(q, d), d)
    ensures Apply(c, s, BeginRead(q, d)).replies == s.replies
  {
    hide Lookup;
  }

  /** For a delete: the thread that deletes the row can check, at that moment, whether the delete is
      final. It is, for every continuation, exactly when the document is not cached and no search
      holds its row. */
  lemma DeleteIsFinalIff(c: Config, s0: State, actions: seq<Action>, s: State, p: ProcId)
    requires Initially(s0) && Executes(c, s0, actions, s) && Enabled(s, DeleteRow(p, true))
    ensures var d, s1 := s.procs[p].id, Apply(c, s, DeleteRow(p, true));
            && d in s.origin
            && ((exists later, s' :: Readable(c, s1, later, s', p, d, s.origin[d])) <==> Leaks(s, d))
  {
    hide Consistent, Leaks, Executes, Readable;
    InitiallyConsistent(c, s0);
    RunConsistent(c, s0, actions, s);
    ActionInv(c, s, DeleteRow(p, true));
    StoredText(c, s, s.procs[p].id);
    LeaksUnchanged(c, s, p);
    ReadableIffLeaks(c, Apply(c, s, DeleteRow(p, true)), p, s.procs[p].id);
  }

  lemma LeaksUnchanged(c: Config, s: State, p: ProcId)
    requires Enabled(s, DeleteRow(p, true))
    ensures var s' := Apply(c, s, DeleteRow(p, true));
            (Leaks(s', s.procs[p].id) <==> Leaks(s, s.procs[p].id)) && s'.origin == s.origin
  {
    hide Lookup;
    var d, s' := s.procs[p].id, Apply(c, s, DeleteRow(p, true));
    forall q | q in s.procs ensures AboutToCache(s'.procs[q], d) <==> AboutToCache(s.procs[q], d) {
    }
  }
}
