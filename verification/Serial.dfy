/** The operation-by-operation machine refines the engine: a request whose operations run without
    interruption is one step of the engine. */
module Serial {
  import opened Wrappers
  import opened RecencyList
  import opened Tokenizer
  import opened TermFrequency
  import opened SearchSpec
  import opened SearchLoops
  import opened Engine
  import opened EngineInvariants
  import opened Database
  import opened Interleaving
  import opened InterleavingProofs
  import opened Operations

  type IdfValues = map<string, real>

  /** A request that thread p starts in state s, and the IDF table that its ranking reads. */
  datatype Call = Call(p: ProcId, s: State, idf: IdfValues)

  ghost predicate Starts(k: Call) {
    k.p in k.s.procs && k.s.procs[k.p].Idle?
  }

  /** The engine's view of a state; the IDF table is not part of the interleaved state. */
  function WorldOf(s: State, idf: IdfValues): World {
    World(s.documents, s.tf, s.docCache, s.tfCache, idf, s.origin)
  }

  /** What the client of a request is given. */
  function ReplyOf(req: Request): seq<(DocId, string)> {
    match req
    case Read(id, _, found) => (match found case Some(text) => [(id, text)] case None => [])
    case Search(_, _, _, results) => ReplyTexts(results)
    case _ => []
  }

  /** The action belongs to the request: its thread's, and a ranking reads its table. */
  ghost predicate OfCall(k: Call, a: Action) {
    a.p == k.p && (a.RankDocuments? ==> a.idf == k.idf)
  }

  /** From m on the thread runs alone until it is idle again, in s'. */
  ghost predicate Alone(c: Config, k: Call, m: State, actions: seq<Action>, s': State)
    decreases |actions|
  {
    && actions != [] && OfCall(k, actions[0]) && Enabled(m, actions[0])
    && var next := Apply(c, m, actions[0]);
       if k.p in next.procs && next.procs[k.p].Idle? then |actions| == 1 && s' == next
       else Alone(c, k, next, actions[1..], s')
  }

  /** From k.s to s' is one engine step, with its reply, and leaves the threads as they were. */
  ghost predicate OneStep(c: Config, k: Call, s': State, req: Request) {
    && Next(c, WorldOf(k.s, k.idf), req, WorldOf(s', k.idf))
    && s'.replies == k.s.replies + ReplyOf(req)
    && s'.procs == k.s.procs
  }

  /** The thread of the request moves; the state is otherwise s. */
  function Midway(k: Call, s: State, proc: Proc): State {
    Goto(s, k.p, proc)
  }

  /** A thread that ends up idle leaves the threads as they were. */
  lemma BackToIdle(k: Call, s: State, proc: Proc)
    requires Starts(k) && s.procs == k.s.procs
    ensures Goto(Midway(k, s, proc), k.p, Idle) == s
  {
    GotoTwice(s, k.p, proc, Idle);
    GotoSame(s, k.p);
  }

  // ---------- read and delete ----------

  lemma FromReadMissed(c: Config, k: Call, id: DocId, actions: seq<Action>, s': State) returns (req: Request)
    requires Starts(k) && Lookup(k.s.docCache, id) == None
    requires Alone(c, k, Midway(k, k.s, ReadMissed(id)), actions, s')
    ensures OneStep(c, k, s', req)
  {
    hide Lookup, Select, Enabled, Apply;
    AtReadMissed(c, Midway(k, k.s, ReadMissed(id)), k.p, actions[0]);
    BackToIdle(k, k.s, ReadMissed(id));
    var failed := actions[0].failed;
    req := Read(id, failed, Select(k.s.documents, id, failed));
    AbsentGet(k.s.docCache, id);
    assert s'.procs == k.s.procs;
  }

  /** The caches after the first half of a delete. */
  function Evicted(s: State, id: DocId): State {
    s.(docCache := Without(s.docCache, id), tfCache := if Resident(s.docCache, id) then [] else s.tfCache)
  }

  lemma FromDeleting(c: Config, k: Call, id: DocId, actions: seq<Action>, s': State) returns (req: Request)
    requires Starts(k) && Alone(c, k, Midway(k, Evicted(k.s, id), Deleting(id)), actions, s')
    ensures OneStep(c, k, s', req)
  {
    hide Lookup, Without, Enabled, Apply;
    AtDeleting(c, Midway(k, Evicted(k.s, id), Deleting(id)), k.p, actions[0]);
    req := Delete(id, actions[0].done);
    assert s'.procs == k.s.procs;
  }

  lemma FromClearing(c: Config, k: Call, id: DocId, actions: seq<Action>, s': State) returns (req: Request)
    requires Starts(k) && Resident(k.s.docCache, id)
    requires Alone(c, k, Midway(k, k.s.(docCache := Without(k.s.docCache, id)), Clearing(id)), actions, s')
    ensures OneStep(c, k, s', req)
  {
    hide Lookup, Without, OneStep, Enabled, Apply;
    var base := k.s.(docCache := Without(k.s.docCache, id));
    AtClearing(c, Midway(k, base, Clearing(id)), k.p, actions[0]);
    GotoTwice(base.(tfCache := []), k.p, Clearing(id), Deleting(id));
    req := FromDeleting(c, k, id, actions[1..], s');
  }

  // ---------- create ----------

  /** The document is cached but not committed. */
  function CachedDocument(c: Config, s: State, id: DocId, text: string): State {
    s.(origin := s.origin[id := text], docCache := AfterPut(c.docCap, s.docCache, id, text))
  }

  lemma FromUncommitted(c: Config, k: Call, id: DocId, text: string, actions: seq<Action>, s': State)
      returns (req: Request)
    requires Starts(k) && id !in k.s.origin && Tokenize(text) != []
    requires var m := Midway(k, CachedDocument(c, k.s, id, text), Uncommitted(id, text, RowsOf(id, text)));
             Alone(c, k, m, actions, s')
    ensures OneStep(c, k, s', req)
  {
    hide AfterPut, Tokenize, RowsOf, Enabled, Apply;
    var m := Midway(k, CachedDocument(c, k.s, id, text), Uncommitted(id, text, RowsOf(id, text)));
    AtCommit(c, m, k.p, actions[0]);
    req := Create(text, Some(id), Some(id));
    assert s'.procs == k.s.procs;
  }

  /** Inside the inserts: the rows so far are the upserts of the terms so far, unless one failed. */
  ghost predicate Inserts(s: State, proc: Proc) {
    && proc.Inserting? && proc.id !in s.origin && proc.next <= |proc.freqs|
    && Computed(proc.freqs, proc.id, Tokenize(proc.text))
    && (proc.ok ==> proc.rows == Upserted(map[], proc.freqs[..proc.next]))
  }

  function InsertingState(k: Call, proc: Proc): State
    requires proc.Inserting?
  {
    Midway(k, k.s.(origin := k.s.origin[proc.id := proc.text]), proc)
  }

  lemma InsertsNext(k: Call, proc: Proc, inserted: bool)
    requires Inserts(k.s, proc) && proc.next < |proc.freqs|
    ensures Inserts(k.s, Inserted(proc, inserted))
    ensures Goto(InsertingState(k, proc), k.p, Inserted(proc, inserted)) == InsertingState(k, Inserted(proc, inserted))
  {
    hide Round6, Tokenize, Upserted, Computed;
    UpsertedSnoc(proc.freqs, proc.next);
    GotoTwice(k.s.(origin := k.s.origin[proc.id := proc.text]), k.p, proc, Inserted(proc, inserted));
  }

  lemma RolledBackStep(c: Config, k: Call, proc: Proc, s': State)
    requires Starts(k) && Inserts(k.s, proc)
    requires s' == k.s.(origin := k.s.origin[proc.id := proc.text], rolledBack := k.s.rolledBack + {proc.id})
    ensures OneStep(c, k, s', Create(proc.text, Some(proc.id), None))
  {
    hide Tokenize, Computed, Upserted;
  }

  lemma {:induction false} FromInserting(c: Config, k: Call, proc: Proc, actions: seq<Action>, s': State)
      returns (req: Request)
    requires Starts(k) && Inserts(k.s, proc) && Alone(c, k, InsertingState(k, proc), actions, s')
    ensures OneStep(c, k, s', req)
    decreases |actions|
  {
    hide Tokenize, Computed, Upserted, Inserted, RowsOf, AfterPut, OneStep, Enabled, Apply;
    var m := InsertingState(k, proc);
    if proc.next < |proc.freqs| {
      AtInsert(c, m, k.p, actions[0]);
      InsertsNext(k, proc, actions[0].inserted);
      req := FromInserting(c, k, Inserted(proc, actions[0].inserted), actions[1..], s');
    } else {
      AtEndInserts(c, m, k.p, actions[0]);
      if proc.ok && proc.freqs != [] {
        AllUpserted(proc.freqs, proc.next, proc.id, proc.text);
        GotoTwice(CachedDocument(c, k.s, proc.id, proc.text), k.p, proc, Uncommitted(proc.id, proc.text, proc.rows));
        req := FromUncommitted(c, k, proc.id, proc.text, actions[1..], s');
      } else {
        req := Create(proc.text, Some(proc.id), None);
        BackToIdle(k, k.s.(origin := k.s.origin[proc.id := proc.text], rolledBack := k.s.rolledBack + {proc.id}), proc);
        RolledBackStep(c, k, proc, s');
      }
    }
  }

  // ---------- search: the texts ----------

  /** Everything a search has decided before it fetches texts. */
  ghost predicate Ranked(k: Call, query: string, topK: int, run: SearchRun) {
    var tokens := Tokenize(query);
    && RowsChosen(k.s, query, run.rows, run.order)
    && TopK(run.ranked, Scores(HitRecords(k.s.tfCache, tokens) + run.rows, k.idf, |tokens|), topK)
  }

  /** The search has selected its rows. */
  ghost predicate RowsChosen(s: State, query: string, rows: seq<TermFrequency>, order: seq<string>) {
    && Tokenize(query) != []
    && (rows == [] || Selects(rows, s.tf, Missed(s.tfCache, Tokenize(query))))
    && GroupOrder(rows, order)
  }

  /** The caches after all groups are cached and |fails| texts fetched. */
  ghost function FetchedBase(c: Config, k: Call, query: string, run: SearchRun, fails: seq<bool>): State
    requires |fails| <= |run.ranked|
  {
    k.s.(tfCache := PutGroups(c.tfCap, AfterGets(k.s.tfCache, Tokenize(query)), run.rows, run.order),
         docCache := Fetch(c.docCap, k.s.docCache, k.s.documents, run.ranked[..|fails|], fails).0)
  }

  ghost function FetchedResults(c: Config, k: Call, run: SearchRun, fails: seq<bool>): seq<SearchResult>
    requires |fails| <= |run.ranked|
  {
    Fetch(c.docCap, k.s.docCache, k.s.documents, run.ranked[..|fails|], fails).1
  }

  /** The state of a search that has fetched |fails| texts; fails says which selects failed. */
  ghost function FetchedState(c: Config, k: Call, query: string, run: SearchRun, fails: seq<bool>): State
    requires |fails| <= |run.ranked|
  {
    Midway(k, FetchedBase(c, k, query, run, fails), Fetching(run.ranked[|fails|..], FetchedResults(c, k, run, fails)))
  }

  lemma FetchesNext(c: Config, k: Call, run: SearchRun, fails: seq<bool>, failed: bool)
    requires |fails| < |run.ranked|
    ensures var n := |fails|;
            var (cache, results) := Fetch(c.docCap, k.s.docCache, k.s.documents, run.ranked[..n], fails);
            var (next, text) := FetchStep(c.docCap, cache, k.s.documents, run.ranked[n].docId, failed);
            Fetch(c.docCap, k.s.docCache, k.s.documents, run.ranked[..n + 1], fails + [failed])
              == (next, results + [SearchResult(run.ranked[n].docId, run.ranked[n].score, text)])
  {
    hide FetchStep, Fetch;
    FetchSnoc(c.docCap, k.s.docCache, k.s.documents, run.ranked[..|fails|], fails, run.ranked[|fails|], failed);
    assert run.ranked[..|fails|] + [run.ranked[|fails|]] == run.ranked[..|fails| + 1];
  }

  /** The thread after one more text: the fetched state with one more flag. */
  lemma FetchedNext(c: Config, k: Call, query: string, run: SearchRun, fails: seq<bool>, failed: bool, proc: Proc,
                    cache: DocumentCache, text: string)
    requires |fails| < |run.ranked| && Starts(k)
    requires proc.Fetching? || proc.FetchMissed? || proc.FetchFound?
    requires proc.todo == run.ranked[|fails|..] && proc.results == FetchedResults(c, k, run, fails)
    requires (cache, text)
          == FetchStep(c.docCap, FetchedBase(c, k, query, run, fails).docCache, k.s.documents,
                       run.ranked[|fails|].docId, failed)
    ensures var m := Midway(k, FetchedBase(c, k, query, run, fails), proc);
            Goto(m.(docCache := cache), k.p, Fetched(proc, text)) == FetchedState(c, k, query, run, fails + [failed])
  {
    hide FetchStep, Fetch, PutGroups, AfterGets, Tokenize;
    FetchesNext(c, k, run, fails, failed);
    assert run.ranked[|fails|..][0] == run.ranked[|fails|];
    assert run.ranked[|fails|..][1..] == run.ranked[|fails| + 1..];
    GotoTwice(FetchedBase(c, k, query, run, fails).(docCache := cache), k.p, proc, Fetched(proc, text));
  }

  /** The state after the last operation of a search. */
  ghost function Answered(c: Config, k: Call, query: string, run: SearchRun): State
    requires |run.fails| == |run.ranked|
  {
    var base := FetchedBase(c, k, query, run, run.fails);
    base.(replies := base.replies + ReplyTexts(FetchedResults(c, k, run, run.fails)))
  }

  lemma SearchDone(c: Config, k: Call, query: string, topK: int, run: SearchRun)
    requires Starts(k) && Ranked(k, query, topK, run) && |run.fails| == |run.ranked|
    ensures OneStep(c, k, Answered(c, k, query, run), Search(query, topK, run, FetchedResults(c, k, run, run.fails)))
  {
    hide Tokenize, Selects, GroupOrder, TopK, Scores, HitRecords, Missed, PutGroups, AfterGets, Fetch, ReplyTexts;
    assert run.ranked[..|run.fails|] == run.ranked;
  }

  lemma {:induction false} FromFetching(c: Config, k: Call, query: string, topK: int, run: SearchRun, fails: seq<bool>,
                                        actions: seq<Action>, s': State)
      returns (req: Request)
    requires Starts(k) && Ranked(k, query, topK, run) && |fails| <= |run.ranked|
    requires Alone(c, k, FetchedState(c, k, query, run, fails), actions, s')
    ensures OneStep(c, k, s', req)
    decreases |actions|
  {
    hide Ranked, Tokenize, PutGroups, AfterGets, Fetch, Lookup, AfterGet, ReplyTexts, OneStep, Enabled, Apply;
    var m := FetchedState(c, k, query, run, fails);
    if |fails| == |run.ranked| {
      AtEnd(c, m, k.p, actions[0]);
      var last := run.(fails := fails);
      RankedAnyFails(k, query, topK, run, fails);
      BackToIdle(k, Answered(c, k, query, last), m.procs[k.p]);
      SearchDone(c, k, query, topK, last);
      req := Search(query, topK, last, FetchedResults(c, k, last, fails));
    } else {
      AtFetch(c, m, k.p, actions[0]);
      match Lookup(m.docCache, run.ranked[|fails|].docId)
      case Some(text) =>
        var cache := AfterGet(m.docCache, run.ranked[|fails|].docId);
        FetchedNext(c, k, query, run, fails, false, m.procs[k.p], cache, text);
        req := FromFetching(c, k, query, topK, run, fails + [false], actions[1..], s');
      case None =>
        AbsentGet(m.docCache, run.ranked[|fails|].docId);
        GotoTwice(FetchedBase(c, k, query, run, fails), k.p, m.procs[k.p], MissedText(m.procs[k.p]));
        req := FromFetchMissed(c, k, query, topK, run, fails, actions[1..], s');
    }
  }

  lemma RankedAnyFails(k: Call, query: string, topK: int, run: SearchRun, fails: seq<bool>)
    requires Ranked(k, query, topK, run)
    ensures Ranked(k, query, topK, run.(fails := fails))
  {
    hide RowsChosen, TopK, Scores, HitRecords;
  }

  /** The thread between the lookup that misses and its select, and between the select and its put. */
  function MissedText(proc: Proc): Proc
    requires proc.Fetching?
  {
    FetchMissed(proc.todo, proc.results)
  }

  function FoundText(proc: Proc, text: string): Proc
    requires proc.Fetching?
  {
    FetchFound(proc.todo, proc.results, text)
  }

  lemma {:induction false} FromFetchMissed(c: Config, k: Call, query: string, topK: int, run: SearchRun,
                                           fails: seq<bool>, actions: seq<Action>, s': State)
      returns (req: Request)
    requires Starts(k) && Ranked(k, query, topK, run) && |fails| < |run.ranked|
    requires var m := FetchedState(c, k, query, run, fails);
             && Lookup(m.docCache, run.ranked[|fails|].docId) == None
             && Alone(c, k, Midway(k, FetchedBase(c, k, query, run, fails), MissedText(m.procs[k.p])), actions, s')
    ensures OneStep(c, k, s', req)
    decreases |actions|
  {
    hide Ranked, Tokenize, PutGroups, AfterGets, Fetch, Lookup, AfterPut, OneStep, Enabled, Apply;
    var m, base := FetchedState(c, k, query, run, fails), FetchedBase(c, k, query, run, fails);
    var proc := MissedText(m.procs[k.p]);
    AtFetchMissed(c, Midway(k, base, proc), k.p, actions[0]);
    var failed := actions[0].failed;
    match Select(k.s.documents, run.ranked[|fails|].docId, failed)
    case Some(text) =>
      GotoTwice(base, k.p, proc, FoundText(m.procs[k.p], text));
      req := FromFetchFound(c, k, query, topK, run, fails, failed, text, actions[1..], s');
    case None =>
      FetchedNext(c, k, query, run, fails, failed, proc, m.docCache, "");
      req := FromFetching(c, k, query, topK, run, fails + [failed], actions[1..], s');
  }

  lemma {:induction false} FromFetchFound(c: Config, k: Call, query: string, topK: int, run: SearchRun,
                                          fails: seq<bool>, failed: bool, text: string, actions: seq<Action>,
                                          s': State)
      returns (req: Request)
    requires Starts(k) && Ranked(k, query, topK, run) && |fails| < |run.ranked|
    requires var m, d := FetchedState(c, k, query, run, fails), run.ranked[|fails|].docId;
             && Lookup(m.docCache, d) == None && Select(k.s.documents, d, failed) == Some(text)
             && Alone(c, k, Midway(k, FetchedBase(c, k, query, run, fails), FoundText(m.procs[k.p], text)), actions, s')
    ensures OneStep(c, k, s', req)
    decreases |actions|
  {
    hide Ranked, Tokenize, PutGroups, AfterGets, Fetch, Lookup, AfterPut, OneStep, Enabled, Apply;
    var m, d := FetchedState(c, k, query, run, fails), run.ranked[|fails|].docId;
    var found := FoundText(m.procs[k.p], text);
    AtFetchFound(c, Midway(k, FetchedBase(c, k, query, run, fails), found), k.p, actions[0]);
    FetchedNext(c, k, query, run, fails, failed, found, AfterPut(c.docCap, m.docCache, d, text), text);
    req := FromFetching(c, k, query, topK, run, fails + [failed], actions[1..], s');
  }

  // ---------- search: the posting cache ----------

  /** The posting cache after a search has cached its first j groups. */
  function FilledBase(c: Config, k: Call, query: string, rows: seq<TermFrequency>, order: seq<string>, j: nat): State
    requires j <= |order|
  {
    k.s.(tfCache := PutGroups(c.tfCap, AfterGets(k.s.tfCache, Tokenize(query)), rows, order[..j]))
  }

  function FilledState(c: Config, k: Call, query: string, rows: seq<TermFrequency>, order: seq<string>, j: nat): State
    requires j <= |order|
  {
    var tokens := Tokenize(query);
    Midway(k, FilledBase(c, k, query, rows, order, j),
           Filling(tokens, HitRecords(k.s.tfCache, tokens) + rows, GroupList(rows, order)[j..]))
  }

  lemma FilledNext(c: Config, k: Call, query: string, rows: seq<TermFrequency>, order: seq<string>, j: nat)
    requires j < |order| && Starts(k)
    ensures var m := FilledState(c, k, query, rows, order, j);
            && m.procs[k.p].groups != []
            && var proc, g := m.procs[k.p], m.procs[k.p].groups[0];
               Goto(m.(tfCache := AfterPut(c.tfCap, m.tfCache, g.key, g.value)), k.p, proc.(groups := proc.groups[1..]))
                 == FilledState(c, k, query, rows, order, j + 1)
  {
    hide AfterPut, PutGroups, AfterGets, HitRecords, Tokenize, GroupOf;
    PutGroupsSnoc(c.tfCap, AfterGets(k.s.tfCache, Tokenize(query)), rows, order[..j], order[j]);
    assert order[..j] + [order[j]] == order[..j + 1];
    assert GroupList(rows, order)[j..][1..] == GroupList(rows, order)[j + 1..];
    assert GroupList(rows, order)[j..][0] == Entry(order[j], GroupOf(rows, order[j]));
    GotoTwice(FilledBase(c, k, query, rows, order, j + 1), k.p, FilledState(c, k, query, rows, order, j).procs[k.p],
              FilledState(c, k, query, rows, order, j + 1).procs[k.p]);
  }

  /** All groups cached and ranked: nothing is fetched yet. */
  lemma RankedStart(c: Config, k: Call, query: string, run: SearchRun)
    requires Starts(k)
    ensures Goto(FilledState(c, k, query, run.rows, run.order, |run.order|), k.p, Fetching(run.ranked, []))
         == FetchedState(c, k, query, run, [])
  {
    hide PutGroups, AfterGets, HitRecords, Tokenize;
    assert run.order[..|run.order|] == run.order && run.ranked[0..] == run.ranked && run.ranked[..0] == [];
    GotoTwice(FilledBase(c, k, query, run.rows, run.order, |run.order|), k.p,
              FilledState(c, k, query, run.rows, run.order, |run.order|).procs[k.p], Fetching(run.ranked, []));
  }

  lemma {:induction false} FromFilling(c: Config, k: Call, query: string, rows: seq<TermFrequency>, order: seq<string>,
                                       j: nat, actions: seq<Action>, s': State)
      returns (req: Request)
    requires Starts(k) && RowsChosen(k.s, query, rows, order) && j <= |order|
    requires Alone(c, k, FilledState(c, k, query, rows, order, j), actions, s')
    ensures OneStep(c, k, s', req)
    decreases |actions|
  {
    hide Tokenize, PutGroups, AfterGets, HitRecords, AfterPut, Missed, Selects, GroupOrder, TopK, Scores, OneStep,
         Enabled, Apply;
    var m, a := FilledState(c, k, query, rows, order, j), actions[0];
    if j < |order| {
      FilledNext(c, k, query, rows, order, j);
      AtGroup(c, m, k.p, a);
      req := FromFilling(c, k, query, rows, order, j + 1, actions[1..], s');
    } else {
      AtRank(c, m, k.p, a);
      var run := SearchRun(rows, order, a.ranked, []);
      RankedStart(c, k, query, run);
      req := FromFetching(c, k, query, a.topK, run, [], actions[1..], s');
    }
  }

  /** Before the first group: what the lookups have left. */
  lemma FilledStart(c: Config, k: Call, query: string, proc: Proc, rows: seq<TermFrequency>, order: seq<string>)
    requires Starts(k)
    ensures var tokens := Tokenize(query);
            var m := Midway(k, k.s.(tfCache := AfterGets(k.s.tfCache, tokens)), proc);
            Goto(m, k.p, Filling(tokens, HitRecords(k.s.tfCache, tokens) + rows, GroupList(rows, order)))
              == FilledState(c, k, query, rows, order, 0)
  {
    hide AfterGets, HitRecords, Tokenize;
    assert order[..0] == [] && GroupList(rows, order)[0..] == GroupList(rows, order);
    GotoTwice(k.s.(tfCache := AfterGets(k.s.tfCache, Tokenize(query))), k.p, proc,
              FilledState(c, k, query, rows, order, 0).procs[k.p]);
  }

  /** Between two token lookups only the posting cache has changed, and only its order. */
  ghost predicate Looked(c: Config, k: Call, query: string, m: State) {
    && k.p in m.procs && m.procs[k.p].LookingUp? && m == Midway(k, k.s.(tfCache := m.tfCache), m.procs[k.p])
    && m.procs[k.p].tokens == Tokenize(query) != [] && CacheFits(c.tfCap, m.tfCache)
    && TokensLeft(k.s.tfCache, m.tfCache, Tokenize(query), m.procs[k.p].next, m.procs[k.p].records, m.procs[k.p].missed)
  }

  lemma LookedStart(c: Config, k: Call, query: string)
    requires Starts(k) && Tokenize(query) != [] && CacheFits(c.tfCap, k.s.tfCache)
    ensures Looked(c, k, query, Midway(k, k.s, LookingUp(Tokenize(query), 0, [], [])))
  {
    hide Tokenize, TokensLeft;
    TokensStart(k.s.tfCache, Tokenize(query));
  }

  lemma LookedNext(c: Config, k: Call, query: string, m: State)
    requires Looked(c, k, query, m) && m.procs[k.p].next < |Tokenize(query)|
    ensures Enabled(m, LookupToken(k.p)) && Looked(c, k, query, Apply(c, m, LookupToken(k.p)))
    ensures Apply(c, m, LookupToken(k.p)).procs[k.p].next == m.procs[k.p].next + 1
  {
    hide Tokenize, AfterGet, Lookup, RecordsOf, TokensLeft, Enabled, Apply;
    var proc := m.procs[k.p];
    AtToken(c, m, k.p, LookupToken(k.p));
    var next := Apply(c, m, LookupToken(k.p));
    TokensStep(c.tfCap, k.s.tfCache, m.tfCache, Tokenize(query), proc.next, proc.records, proc.missed);
    GetMembers(c.tfCap, m.tfCache, Tokenize(query)[proc.next]);
    GotoTwice(k.s.(tfCache := next.tfCache), k.p, proc, next.procs[k.p]);
  }

  lemma AllLooked(c: Config, k: Call, query: string, m: State)
    requires Looked(c, k, query, m) && m.procs[k.p].next >= |Tokenize(query)|
    ensures m == Midway(k, k.s.(tfCache := AfterGets(k.s.tfCache, Tokenize(query))), m.procs[k.p])
    ensures m.procs[k.p].records == HitRecords(k.s.tfCache, Tokenize(query))
    ensures m.procs[k.p].missed == Missed(k.s.tfCache, Tokenize(query))
  {
    hide Tokenize, AfterGets, HitRecords, Missed, Lookup;
    assert m.procs[k.p].next == |Tokenize(query)|;
    TokensEnd(k.s.tfCache, m.tfCache, Tokenize(query), m.procs[k.p].records, m.procs[k.p].missed);
  }

  lemma {:induction false} FromLookingUp(c: Config, k: Call, query: string, m: State, actions: seq<Action>, s': State)
      returns (req: Request)
    requires Starts(k) && Looked(c, k, query, m) && Alone(c, k, m, actions, s')
    ensures OneStep(c, k, s', req)
    decreases |actions|
  {
    hide Tokenize, AfterGets, HitRecords, Missed, Selects, GroupOrder, TokensLeft, OneStep, Enabled, Apply, Lookup;
    var proc, a := m.procs[k.p], actions[0];
    if proc.next < |proc.tokens| {
      AtToken(c, m, k.p, a);
      LookedNext(c, k, query, m);
      req := FromLookingUp(c, k, query, Apply(c, m, a), actions[1..], s');
    } else {
      AtRows(c, m, k.p, a);
      AllLooked(c, k, query, m);
      FilledStart(c, k, query, proc, a.rows, a.order);
      req := FromFilling(c, k, query, a.rows, a.order, 0, actions[1..], s');
    }
  }

  // ---------- every request ----------

  lemma FromCreate(c: Config, k: Call, actions: seq<Action>, s': State) returns (req: Request)
    requires Starts(k) && Alone(c, k, k.s, actions, s') && actions[0].BeginCreate?
    ensures OneStep(c, k, s', req)
  {
    hide Tokenize, Computed, OneStep;
    var a := actions[0];
    var proc := Inserting(a.id, a.text, a.freqs, 0, map[], true);
    assert proc.freqs[..0] == [];
    req := FromInserting(c, k, proc, actions[1..], s');
  }

  lemma FromRead(c: Config, k: Call, actions: seq<Action>, s': State) returns (req: Request)
    requires Starts(k) && Alone(c, k, k.s, actions, s') && actions[0].BeginRead?
    ensures OneStep(c, k, s', req)
  {
    hide Lookup, AfterGet;
    var id := actions[0].id;
    match Lookup(k.s.docCache, id)
    case Some(text) => req := Read(id, false, Some(text));
    case None =>
      AbsentGet(k.s.docCache, id);
      req := FromReadMissed(c, k, id, actions[1..], s');
  }

  lemma FromDelete(c: Config, k: Call, actions: seq<Action>, s': State) returns (req: Request)
    requires Starts(k) && Alone(c, k, k.s, actions, s') && actions[0].BeginDelete?
    ensures OneStep(c, k, s', req)
  {
    hide Lookup, Without, OneStep;
    var id := actions[0].id;
    if Resident(k.s.docCache, id) {
      req := FromClearing(c, k, id, actions[1..], s');
    } else {
      req := FromDeleting(c, k, id, actions[1..], s');
    }
  }

  lemma FromSearch(c: Config, k: Call, actions: seq<Action>, s': State) returns (req: Request)
    requires Starts(k) && Alone(c, k, k.s, actions, s') && actions[0].BeginSearch?
    requires CacheFits(c.tfCap, k.s.tfCache)
    ensures OneStep(c, k, s', req)
  {
    hide Tokenize, TokensLeft, Looked;
    var query := actions[0].query;
    if Tokenize(query) == [] {
      req := Search(query, 0, SearchRun([], [], [], []), []);
    } else {
      hide OneStep;
      LookedStart(c, k, query);
      req := FromLookingUp(c, k, query, Midway(k, k.s, LookingUp(Tokenize(query), 0, [], [])), actions[1..], s');
    }
  }

  lemma Begins(c: Config, k: Call, actions: seq<Action>, s': State)
    requires Starts(k) && Alone(c, k, k.s, actions, s')
    ensures actions != []
    ensures actions[0].BeginCreate? || actions[0].BeginRead? || actions[0].BeginDelete? || actions[0].BeginSearch?
  {
  }

  /** Whatever request a thread serves, if its operations run without interruption they are together one
      step of the engine, with the same reply. */
  lemma RequestIsOneStep(c: Config, k: Call, actions: seq<Action>, s': State) returns (req: Request)
    requires Starts(k) && CacheFits(c.tfCap, k.s.tfCache) && Alone(c, k, k.s, actions, s')
    ensures OneStep(c, k, s', req)
  {
    hide Alone, OneStep;
    Begins(c, k, actions, s');
    match actions[0]
    case BeginCreate(_, _, _, _) => req := FromCreate(c, k, actions, s');
    case BeginRead(_, _) => req := FromRead(c, k, actions, s');
    case BeginDelete(_, _) => req := FromDelete(c, k, actions, s');
    case BeginSearch(_, _) => req := FromSearch(c, k, actions, s');
  }
}
