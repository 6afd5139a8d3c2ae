/** Where interleaving breaks what whole requests keep: a deleted document can come back into the
    document cache, and a document can be read before its create commits. */
module InterleavingRuns {
  import opened Wrappers
  import opened Sums
  import opened RecencyList
  import opened Tokenizer
  import opened TokenizerLaws
  import opened TermFrequency
  import opened SearchSpec
  import opened Engine
  import opened Interleaving

  lemma {:induction false} ExecutesConcat(c: Config, s: State, xs: seq<Action>, m: State, ys: seq<Action>, s': State)
    requires Executes(c, s, xs, m) && Executes(c, m, ys, s')
    ensures Executes(c, s, xs + ys, s')
    decreases |xs|
  {
    hide Enabled, Apply;
    if xs == [] {
      assert xs + ys == ys;
    } else {
      ExecutesConcat(c, Apply(c, s, xs[0]), xs[1..], m, ys, s');
      assert (xs + ys)[1..] == xs[1..] + ys;
    }
  }

  lemma ExecutesSnoc(c: Config, s: State, xs: seq<Action>, m: State, a: Action)
    requires Executes(c, s, xs, m) && Enabled(m, a)
    ensures Executes(c, s, xs + [a], Apply(c, m, a))
  {
    hide Enabled, Apply;
    assert [a][1..] == [];
    ExecutesConcat(c, s, xs, m, [a], Apply(c, m, a));
  }

  /** The race: thread p is about to fetch d for a search while thread q deletes it. The posting
      cache is cleared only if d was cached. */
  function RaceActions(p: ProcId, q: ProcId, d: DocId, cached: bool): seq<Action> {
    [BeginDelete(q, d), FetchLookup(p), FetchSelect(p, false)]
    + (if cached then [ClearPostings(q)] else [])
    + [DeleteRow(q, true), FetchPut(p)]
  }

  /** From every state in which a search is about to fetch a stored document and another thread is
      idle, the race ends with the row deleted and its text in the cache; a read that starts only
      then still returns it. */
  lemma DeletedComesBack(c: Config, s: State, p: ProcId, q: ProcId, d: DocId)
    requires p in s.procs && q in s.procs && p != q && s.procs[q].Idle?
    requires s.procs[p].Fetching? && s.procs[p].todo != [] && s.procs[p].todo[0].docId == d
    requires d in s.documents
    ensures exists s' ::
              && Executes(c, s, RaceActions(p, q, d, Resident(s.docCache, d)), s')
              && d in s'.deleted && d !in s'.documents && q in s'.procs && s'.procs[q].Idle?
              && Lookup(s'.docCache, d) == Some(s.documents[d])
              && Enabled(s', BeginRead(q, d))
              && Apply(c, s', BeginRead(q, d)).replies == s'.replies + [(d, s.documents[d])]
  {
    hide Executes, AfterGet, AfterPut, Lookup, Without, Enabled, Apply;
    var todo, results, text := s.procs[p].todo, s.procs[p].results, s.documents[d];
    var cached := Resident(s.docCache, d);
    var s1 := Goto(s.(docCache := Without(s.docCache, d)), q, if cached then Clearing(d) else Deleting(d));
    var s2 := Goto(s1, p, FetchMissed(todo, results));
    var s3 := Goto(s2, p, FetchFound(todo, results, text));
    var s4 := if cached then Goto(s3.(tfCache := []), q, Deleting(d)) else s3;
    var s5 := Goto(s4.(documents := s.documents - {d}, tf := (map k | k in s4.tf && k.0 != d :: s4.tf[k]),
                       deleted := s.deleted + {d}), q, Idle);
    var s6 := Goto(s5.(docCache := AfterPut(c.docCap, s5.docCache, d, text)), p,
                   Fetched(FetchFound(todo, results, text), text));
    var first := [BeginDelete(q, d), FetchLookup(p), FetchSelect(p, false)];
    var last := [DeleteRow(q, true), FetchPut(p)];
    FirstHalf(c, s, s1, s2, s3, p, q, d);
    ExecutesThree(c, s, first, s1, s2, s3);
    SecondHalf(c, s4, s5, s6, p, q, d, text);
    ExecutesTwo(c, s4, last, s5, s6);
    if cached {
      ClearStep(c, s3, s4, q, d);
      ExecutesOne(c, s3, ClearPostings(q));
      ExecutesConcat(c, s, first, s3, [ClearPostings(q)], s4);
      ExecutesConcat(c, s, first + [ClearPostings(q)], s4, last, s6);
    } else {
      assert first + [] == first;
      ExecutesConcat(c, s, first, s3, last, s6);
    }
    PutFound(c.docCap, s5.docCache, d, text);
    ReadHit(c, s6, q, d, text);
  }

  /** The delete empties the cache entry; the search misses and still reads the row. */
  lemma FirstHalf(c: Config, s: State, s1: State, s2: State, s3: State, p: ProcId, q: ProcId, d: DocId)
    requires p in s.procs && q in s.procs && p != q && s.procs[q].Idle?
    requires s.procs[p].Fetching? && s.procs[p].todo != [] && s.procs[p].todo[0].docId == d
    requires d in s.documents
    requires s1 == Goto(s.(docCache := Without(s.docCache, d)), q,
                        if Resident(s.docCache, d) then Clearing(d) else Deleting(d))
    requires s2 == Goto(s1, p, FetchMissed(s.procs[p].todo, s.procs[p].results))
    requires s3 == Goto(s2, p, FetchFound(s.procs[p].todo, s.procs[p].results, s.documents[d]))
    ensures Enabled(s, BeginDelete(q, d)) && Apply(c, s, BeginDelete(q, d)) == s1
    ensures Enabled(s1, FetchLookup(p)) && Apply(c, s1, FetchLookup(p)) == s2
    ensures Enabled(s2, FetchSelect(p, false)) && Apply(c, s2, FetchSelect(p, false)) == s3
  {
    hide AfterGet, Lookup, Without;
    WithoutLookup(s.docCache, d, d);
    AbsentGet(s1.docCache, d);
  }

  lemma ClearStep(c: Config, s3: State, s4: State, q: ProcId, d: DocId)
    requires q in s3.procs && s3.procs[q] == Clearing(d) && s4 == Goto(s3.(tfCache := []), q, Deleting(d))
    ensures Enabled(s3, ClearPostings(q)) && Apply(c, s3, ClearPostings(q)) == s4
  {
  }

  /** The delete removes the row; then the search caches the text it read before. */
  lemma SecondHalf(c: Config, s4: State, s5: State, s6: State, p: ProcId, q: ProcId, d: DocId, text: string)
    requires p in s4.procs && q in s4.procs && p != q && s4.procs[q] == Deleting(d) && d in s4.documents
    requires s4.procs[p].FetchFound? && s4.procs[p].todo != [] && s4.procs[p].todo[0].docId == d
    requires s4.procs[p].text == text
    requires s5 == Goto(s4.(documents := s4.documents - {d}, tf := (map k | k in s4.tf && k.0 != d :: s4.tf[k]),
                            deleted := s4.deleted + {d}), q, Idle)
    requires s6 == Goto(s5.(docCache := AfterPut(c.docCap, s5.docCache, d, text)), p, Fetched(s4.procs[p], text))
    ensures Enabled(s4, DeleteRow(q, true)) && Apply(c, s4, DeleteRow(q, true)) == s5
    ensures Enabled(s5, FetchPut(p)) && Apply(c, s5, FetchPut(p)) == s6
  {
    hide AfterPut;
  }

  lemma ReadHit(c: Config, s: State, q: ProcId, d: DocId, text: string)
    requires q in s.procs && s.procs[q].Idle? && Lookup(s.docCache, d) == Some(text)
    ensures Enabled(s, BeginRead(q, d)) && Apply(c, s, BeginRead(q, d)).replies == s.replies + [(d, text)]
  {
    hide Lookup;
  }

  lemma ExecutesOne(c: Config, s: State, a: Action)
    requires Enabled(s, a)
    ensures Executes(c, s, [a], Apply(c, s, a))
  {
    hide Enabled, Apply, Executes;
    ExecutesNil(c, s);
    ExecutesSnoc(c, s, [], s, a);
    assert [] + [a] == [a];
  }

  lemma ExecutesTwo(c: Config, s: State, a: seq<Action>, s1: State, s2: State)
    requires |a| == 2
    requires Enabled(s, a[0]) && Apply(c, s, a[0]) == s1
    requires Enabled(s1, a[1]) && Apply(c, s1, a[1]) == s2
    ensures Executes(c, s, a, s2)
  {
    hide Enabled, Apply, Executes;
    ExecutesOne(c, s, a[0]);
    ExecutesSnoc(c, s, [a[0]], s1, a[1]);
    assert a == [a[0]] + [a[1]];
  }

  lemma ExecutesThree(c: Config, s: State, a: seq<Action>, s1: State, s2: State, s3: State)
    requires |a| == 3
    requires Enabled(s, a[0]) && Apply(c, s, a[0]) == s1
    requires Enabled(s1, a[1]) && Apply(c, s1, a[1]) == s2
    requires Enabled(s2, a[2]) && Apply(c, s2, a[2]) == s3
    ensures Executes(c, s, a, s3)
  {
    hide Enabled, Apply, Executes;
    ExecutesTwo(c, s, a[..2], s1, s2);
    ExecutesSnoc(c, s, a[..2], s2, a[2]);
    assert a == a[..2] + [a[2]];
  }

  lemma ExecutesCons(c: Config, s: State, a: Action, rest: seq<Action>, s': State)
    requires Enabled(s, a) && Executes(c, Apply(c, s, a), rest, s')
    ensures Executes(c, s, [a] + rest, s')
  {
    hide Enabled, Apply;
    assert ([a] + rest)[1..] == rest;
  }

  lemma ExecutesNil(c: Config, s: State)
    ensures Executes(c, s, [], s)
  {
  }

  // ---------- a reachable instance: one document of one word, two threads ----------

  const DOC := DocId(0)

  function Row(t: string): TermFrequency {
    TermFrequency(DOC, t, 1.0)
  }

  /** Two idle threads over an empty system. */
  function Start(): State {
    State(map[], map[], [], [], map[0 := Idle, 1 := Idle], map[], [], {}, {})
  }

  /** Thread 0 has inserted everything and cached the document, but not committed. */
  function CachedState(t: string): State {
    State(map[], map[], [Entry(DOC, t)], [], map[0 := Uncommitted(DOC, t, map[(DOC, t) := 1.0]), 1 := Idle],
          map[DOC := t], [], {}, {})
  }

  function CommittedState(t: string, proc: Proc): State {
    State(map[DOC := t], map[(DOC, t) := 1.0], [Entry(DOC, t)], [], map[0 := proc, 1 := Idle],
          map[DOC := t], [], {}, {})
  }

  /** Thread 0 searches for the word and is about to fetch the document. */
  function RankedState(t: string): State {
    CommittedState(t, Fetching([Scored(DOC, 0.0)], [])).(tfCache := [Entry(t, [Posting(DOC, 1.0)])])
  }

  lemma OneWord(t: string)
    requires IsToken(t)
    ensures Tokenize(t) == [t] && Computed([Row(t)], DOC, [t]) && Round6(1.0) == 1.0
  {
    hide Tokenize;
    TokenizeToken(t);
    RoundUnit();
    assert [t][1..] == [];
    assert Count([t], t) == 1;
    assert forall w :: w in [t] ==> [Row(t)][0].word == w;
  }

  function InsertingState(t: string, proc: Proc): State {
    Start().(origin := map[DOC := t], procs := map[0 := proc, 1 := Idle])
  }

  /** Before and after the only term is inserted. */
  function TermLeft(t: string): Proc {
    Inserting(DOC, t, [Row(t)], 0, map[], true)
  }

  function TermDone(t: string): Proc {
    Inserting(DOC, t, [Row(t)], 1, map[(DOC, t) := 1.0], true)
  }

  lemma InsertSteps(c: Config, t: string)
    requires IsToken(t)
    ensures var begin := BeginCreate(0, t, DOC, [Row(t)]);
            Enabled(Start(), begin) && Apply(c, Start(), begin) == InsertingState(t, TermLeft(t))
    ensures var u := InsertingState(t, TermLeft(t));
            Enabled(u, InsertTerm(0, true)) && Apply(c, u, InsertTerm(0, true)) == InsertingState(t, TermDone(t))
  {
    hide Tokenize, Round6, Computed, IsToken, AfterPut;
    OneWord(t);
  }

  lemma EndOne(c: Config, t: string)
    ensures var u := InsertingState(t, TermDone(t));
            Enabled(u, EndInserts(0)) && Apply(c, u, EndInserts(0)) == CachedState(t)
  {
    assert AfterPut(c.docCap, [], DOC, t) == [Entry(DOC, t)];
  }

  lemma CommitOne(c: Config, t: string)
    ensures Enabled(CachedState(t), Commit(0)) && Apply(c, CachedState(t), Commit(0)) == CommittedState(t, Idle)
  {
  }

  lemma BeginOne(c: Config, t: string)
    requires IsToken(t)
    ensures var u := CommittedState(t, Idle);
            && Enabled(u, BeginSearch(0, t))
            && Apply(c, u, BeginSearch(0, t)) == CommittedState(t, LookingUp([t], 0, [], []))
  {
    hide Tokenize, IsToken;
    OneWord(t);
  }

  lemma LookupOne(c: Config, t: string)
    ensures var u := CommittedState(t, LookingUp([t], 0, [], []));
            Enabled(u, LookupToken(0)) && Apply(c, u, LookupToken(0)) == CommittedState(t, LookingUp([t], 1, [], [t]))
  {
    assert [] + [t] == [t];
  }

  lemma SelectOne(c: Config, t: string)
    ensures var u6 := CommittedState(t, LookingUp([t], 1, [], [t]));
            var u7 := GroupedState(t);
            Enabled(u6, SelectRows(0, [Row(t)], [t])) && Apply(c, u6, SelectRows(0, [Row(t)], [t])) == u7
  {
    hide Selects, GroupOrder, GroupOf;
    OneGroup(t);
    OneSelected(t);
    assert [] + [Row(t)] == [Row(t)];
    assert GroupList([Row(t)], [t]) == [Entry(t, [Posting(DOC, 1.0)])];
  }

  lemma OneSelected(t: string)
    ensures Selects([Row(t)], map[(DOC, t) := 1.0], [t]) && GroupOrder([Row(t)], [t])
  {
    assert [Row(t)][0].docId == DOC && [Row(t)][0].word == t;
  }

  lemma OneGroup(t: string)
    ensures GroupOf([Row(t)], t) == [Posting(DOC, 1.0)]
  {
    assert [Row(t)][1..] == [];
    assert GroupOf([Row(t)][1..], t) == [];
  }

  /** Thread 0 has grouped the rows of the word and not cached them yet. */
  function GroupedState(t: string): State {
    CommittedState(t, Filling([t], [Row(t)], [Entry(t, [Posting(DOC, 1.0)])]))
  }

  /** The only group is cached. */
  function FilledState(t: string): State {
    CommittedState(t, Filling([t], [Row(t)], [])).(tfCache := [Entry(t, [Posting(DOC, 1.0)])])
  }

  lemma PutOne(c: Config, t: string)
    ensures var u := GroupedState(t);
            Enabled(u, PutGroup(0)) && Apply(c, u, PutGroup(0)) == FilledState(t)
  {
    assert AfterPut(c.tfCap, [], t, [Posting(DOC, 1.0)]) == [Entry(t, [Posting(DOC, 1.0)])];
  }

  lemma RankOne(c: Config, t: string)
    ensures var rank := RankDocuments(0, [Scored(DOC, 0.0)], map[], 3);
            Enabled(FilledState(t), rank) && Apply(c, FilledState(t), rank) == RankedState(t)
  {
    hide TopK, Scores;
    OneScore(t);
  }

  lemma OneScore(t: string)
    ensures TopK([Scored(DOC, 0.0)], Scores([Row(t)], map[], 1), 3)
  {
    assert [Row(t)][1..] == [];
    assert TotalScore([Row(t)], DOC, map[]) == 0.0;
    assert Row(t) in [Row(t)];
    assert Scores([Row(t)], map[], 1) == map[DOC := 0.0];
  }

  lemma ReachCached(c: Config, t: string) returns (actions: seq<Action>)
    requires IsToken(t)
    ensures Executes(c, Start(), actions, CachedState(t))
  {
    hide Executes, Enabled, Apply;
    InsertSteps(c, t);
    EndOne(c, t);
    var begin := BeginCreate(0, t, DOC, [Row(t)]);
    ExecutesOne(c, Start(), begin);
    ExecutesSnoc(c, Start(), [begin], InsertingState(t, TermLeft(t)), InsertTerm(0, true));
    actions := [begin] + [InsertTerm(0, true)];
    ExecutesSnoc(c, Start(), actions, InsertingState(t, TermDone(t)), EndInserts(0));
    actions := actions + [EndInserts(0)];
  }

  /** Thread 0 has selected the word's rows and is about to cache them. */
  lemma ReachFilling(c: Config, t: string) returns (actions: seq<Action>)
    requires IsToken(t)
    ensures Executes(c, Start(), actions, GroupedState(t))
  {
    hide Executes, Enabled, Apply;
    CommitOne(c, t);
    BeginOne(c, t);
    LookupOne(c, t);
    SelectOne(c, t);
    actions := ReachCached(c, t);
    ExecutesSnoc(c, Start(), actions, CachedState(t), Commit(0));
    actions := actions + [Commit(0)];
    ExecutesSnoc(c, Start(), actions, CommittedState(t, Idle), BeginSearch(0, t));
    actions := actions + [BeginSearch(0, t)];
    ExecutesSnoc(c, Start(), actions, CommittedState(t, LookingUp([t], 0, [], [])), LookupToken(0));
    actions := actions + [LookupToken(0)];
    ExecutesSnoc(c, Start(), actions, CommittedState(t, LookingUp([t], 1, [], [t])), SelectRows(0, [Row(t)], [t]));
    actions := actions + [SelectRows(0, [Row(t)], [t])];
  }

  lemma ReachRanked(c: Config, t: string) returns (actions: seq<Action>)
    requires IsToken(t)
    ensures Executes(c, Start(), actions, RankedState(t))
  {
    hide Executes, Enabled, Apply;
    PutOne(c, t);
    RankOne(c, t);
    actions := ReachFilling(c, t);
    ExecutesSnoc(c, Start(), actions, GroupedState(t), PutGroup(0));
    actions := actions + [PutGroup(0)];
    ExecutesSnoc(c, Start(), actions, FilledState(t), RankDocuments(0, [Scored(DOC, 0.0)], map[], 3));
    actions := actions + [RankDocuments(0, [Scored(DOC, 0.0)], map[], 3)];
  }

  /** Reachable from an empty system: a deleted document sits in the document cache with no request
      in progress that could have put it there rightly, and the next read returns it. */
  lemma StaleReadReachable(c: Config, t: string)
    requires IsToken(t)
    ensures exists actions, s ::
              && Initially(Start()) && Executes(c, Start(), actions, s)
              && DOC in s.deleted && DOC !in s.documents && Resident(s.docCache, DOC)
              && Enabled(s, BeginRead(1, DOC)) && Apply(c, s, BeginRead(1, DOC)).replies == s.replies + [(DOC, t)]
  {
    hide Executes, Enabled, Apply, RaceActions;
    var before := ReachRanked(c, t);
    DeletedComesBack(c, RankedState(t), 0, 1, DOC);
    var s :| && Executes(c, RankedState(t), RaceActions(0, 1, DOC, true), s)
             && DOC in s.deleted && DOC !in s.documents && 1 in s.procs && s.procs[1].Idle?
             && Lookup(s.docCache, DOC) == Some(RankedState(t).documents[DOC])
             && Enabled(s, BeginRead(1, DOC))
             && Apply(c, s, BeginRead(1, DOC)).replies == s.replies + [(DOC, RankedState(t).documents[DOC])];
    ExecutesConcat(c, Start(), before, RankedState(t), RaceActions(0, 1, DOC, true), s);
  }

  /** Reachable from an empty system: a read returns a document that is not committed yet. */
  lemma DirtyReadReachable(c: Config, t: string)
    requires IsToken(t)
    ensures exists actions, s ::
              && Initially(Start()) && Executes(c, Start(), actions, s)
              && DOC !in s.documents && DOC !in s.deleted && IsUncommitted(s, DOC)
              && Enabled(s, BeginRead(1, DOC)) && Apply(c, s, BeginRead(1, DOC)).replies == s.replies + [(DOC, t)]
  {
    hide Executes, Enabled, Apply;
    var actions := ReachCached(c, t);
    var s := CachedState(t);
    assert s.procs[0].Uncommitted?;
    ReadHit(c, s, 1, DOC, t);
  }
}
