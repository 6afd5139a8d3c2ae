/** Every step of the engine can be served operation by operation, by one thread that runs alone. */
module Serving {
  import opened Wrappers
  import opened Sums
  import opened RecencyList
  import opened Tokenizer
  import opened TermFrequency
  import opened SearchSpec
  import opened Engine
  import opened EngineInvariants
  import opened Database
  import opened Interleaving
  import opened Operations
  import opened Serial

  // ---------- one operation more ----------

  lemma AloneLast(c: Config, k: Call, m: State, a: Action)
    requires OfCall(k, a) && Enabled(m, a)
    requires k.p in Apply(c, m, a).procs && Apply(c, m, a).procs[k.p].Idle?
    ensures Alone(c, k, m, [a], Apply(c, m, a))
  {
    hide Enabled, Apply;
  }

  lemma AloneCons(c: Config, k: Call, m: State, a: Action, rest: seq<Action>, s': State)
    requires OfCall(k, a) && Enabled(m, a) && Alone(c, k, Apply(c, m, a), rest, s')
    requires k.p in Apply(c, m, a).procs && !Apply(c, m, a).procs[k.p].Idle?
    ensures Alone(c, k, m, [a] + rest, s')
  {
    hide Enabled, Apply;
    assert ([a] + rest)[1..] == rest;
  }

  // ---------- read and delete ----------

  lemma ServeRead(c: Config, k: Call, id: DocId, failed: bool) returns (actions: seq<Action>, s': State)
    requires Starts(k)
    ensures Alone(c, k, k.s, actions, s')
    ensures var s, cache := k.s, k.s.docCache;
            var found := if Resident(cache, id) then Lookup(cache, id) else Select(s.documents, id, failed);
            s' == s.(docCache := AfterGet(cache, id), replies := s.replies + ReplyOf(Read(id, failed, found)))
  {
    hide Lookup, AfterGet, Select, Enabled, Apply;
    var begin, select := BeginRead(k.p, id), ReadSelect(k.p, failed);
    ReadBegins(c, k, id);
    if Resident(k.s.docCache, id) {
      AloneLast(c, k, k.s, begin);
      actions, s' := [begin], Apply(c, k.s, begin);
    } else {
      var m := Apply(c, k.s, begin);
      AtReadMissed(c, m, k.p, select);
      BackToIdle(k, k.s.(docCache := AfterGet(k.s.docCache, id)), ReadMissed(id));
      AloneLast(c, k, m, select);
      AloneCons(c, k, k.s, begin, [select], Apply(c, m, select));
      actions, s' := [begin] + [select], Apply(c, m, select);
      assert s'.procs == k.s.procs;
    }
  }

  lemma ReadBegins(c: Config, k: Call, id: DocId)
    requires Starts(k)
    ensures var a, s := BeginRead(k.p, id), k.s.(docCache := AfterGet(k.s.docCache, id));
            && Enabled(k.s, a)
            && Apply(c, k.s, a) == (match Lookup(k.s.docCache, id)
                                    case Some(text) => s.(replies := s.replies + [(id, text)])
                                    case None => Midway(k, s, ReadMissed(id)))
  {
    hide Lookup, AfterGet;
  }

  lemma DeleteBegins(c: Config, k: Call, id: DocId)
    requires Starts(k)
    ensures var a, s := BeginDelete(k.p, id), k.s.(docCache := Without(k.s.docCache, id));
            && Enabled(k.s, a)
            && Apply(c, k.s, a) == Midway(k, s, if Resident(k.s.docCache, id) then Clearing(id) else Deleting(id))
  {
    hide Lookup, Without;
  }

  /** The row is deleted, or the statement fails. */
  function Erased(s: State, id: DocId, deleted: bool): State {
    if deleted then RowDeleted(s, id) else s
  }

  lemma ServeRow(c: Config, k: Call, id: DocId, deleted: bool) returns (actions: seq<Action>)
    requires Starts(k) && (deleted ==> id in k.s.documents)
    ensures Alone(c, k, Midway(k, Evicted(k.s, id), Deleting(id)), actions, Erased(Evicted(k.s, id), id, deleted))
  {
    hide Lookup, Without, Enabled, Apply;
    var m, a := Midway(k, Evicted(k.s, id), Deleting(id)), DeleteRow(k.p, deleted);
    AtDeleting(c, m, k.p, a);
    BackToIdle(k, Erased(Evicted(k.s, id), id, deleted), Deleting(id));
    AloneLast(c, k, m, a);
    actions := [a];
  }

  lemma ServeDelete(c: Config, k: Call, id: DocId, deleted: bool) returns (actions: seq<Action>)
    requires Starts(k) && (deleted ==> id in k.s.documents)
    ensures Alone(c, k, k.s, actions, Erased(Evicted(k.s, id), id, deleted))
  {
    hide Lookup, Without, Enabled, Apply, Alone;
    var begin, s' := BeginDelete(k.p, id), Erased(Evicted(k.s, id), id, deleted);
    actions := ServeRow(c, k, id, deleted);
    DeleteBegins(c, k, id);
    if Resident(k.s.docCache, id) {
      var base, clear := k.s.(docCache := Without(k.s.docCache, id)), ClearPostings(k.p);
      AtClearing(c, Midway(k, base, Clearing(id)), k.p, clear);
      GotoTwice(base.(tfCache := []), k.p, Clearing(id), Deleting(id));
      AloneCons(c, k, Midway(k, base, Clearing(id)), clear, actions, s');
      actions := [clear] + actions;
    }
    AloneCons(c, k, k.s, begin, actions, s');
    actions := [begin] + actions;
  }

  // ---------- create ----------

  lemma TermsExist(tokens: seq<string>, id: DocId) returns (freqs: seq<TermFrequency>)
    ensures Computed(freqs, id, tokens) && (freqs == [] <==> tokens == [])
  {
    if tokens == [] {
      freqs := [];
    } else {
      hide Frequency;
      var words := Dedup(tokens);
      DedupLists(tokens);
      assert tokens[0] in words;
      freqs := seq(|words|, i requires 0 <= i < |words| => TermFrequency(id, words[i], Frequency(tokens, words[i])));
      forall i | 0 <= i < |words| ensures words[i] in tokens {
        assert words[i] in words;
      }
      forall w | w in tokens ensures exists i :: 0 <= i < |freqs| && freqs[i].word == w {
        assert w in words;
        var i :| 0 <= i < |words| && words[i] == w;
        assert freqs[i].word == w;
      }
    }
  }

  /** The states a create can end in. */
  function Created(c: Config, s: State, id: DocId, text: string): State {
    CachedDocument(c, s, id, text).(documents := s.documents[id := text], tf := s.tf + RowsOf(id, text))
  }

  function RolledBack(s: State, id: DocId, text: string): State {
    s.(origin := s.origin[id := text], rolledBack := s.rolledBack + {id})
  }

  lemma ServeCommit(c: Config, k: Call, id: DocId, text: string)
    requires Starts(k)
    ensures Alone(c, k, Midway(k, CachedDocument(c, k.s, id, text), Uncommitted(id, text, RowsOf(id, text))),
                  [Commit(k.p)], Created(c, k.s, id, text))
  {
    hide AfterPut, RowsOf, Enabled, Apply;
    var m := Midway(k, CachedDocument(c, k.s, id, text), Uncommitted(id, text, RowsOf(id, text)));
    AtCommit(c, m, k.p, Commit(k.p));
    BackToIdle(k, Created(c, k.s, id, text), m.procs[k.p]);
    AloneLast(c, k, m, Commit(k.p));
  }

  /** From inside the inserts: every remaining one succeeds, or every remaining one fails. */
  lemma {:induction false} ServeInserts(c: Config, k: Call, proc: Proc, good: bool)
      returns (actions: seq<Action>, s': State)
    requires Starts(k) && Inserts(k.s, proc)
    ensures Alone(c, k, InsertingState(k, proc), actions, s')
    ensures good && proc.ok && proc.freqs != [] ==> s' == Created(c, k.s, proc.id, proc.text)
    ensures !proc.ok || proc.freqs == [] || (!good && proc.next < |proc.freqs|) ==>
              s' == RolledBack(k.s, proc.id, proc.text)
    decreases |proc.freqs| - proc.next
  {
    hide Tokenize, Computed, Upserted, Inserted, RowsOf, AfterPut, Enabled, Apply, Alone;
    var m := InsertingState(k, proc);
    if proc.next < |proc.freqs| {
      var a := InsertTerm(k.p, good);
      AtInsert(c, m, k.p, a);
      InsertsNext(k, proc, good);
      OneInserted(proc, good);
      actions, s' := ServeInserts(c, k, Inserted(proc, good), good);
      AloneCons(c, k, m, a, actions, s');
      actions := [a] + actions;
    } else {
      var a := EndInserts(k.p);
      AtEndInserts(c, m, k.p, a);
      if proc.ok && proc.freqs != [] {
        AllUpserted(proc.freqs, proc.next, proc.id, proc.text);
        GotoTwice(CachedDocument(c, k.s, proc.id, proc.text), k.p, proc, Uncommitted(proc.id, proc.text, proc.rows));
        ServeCommit(c, k, proc.id, proc.text);
        AloneCons(c, k, m, a, [Commit(k.p)], Created(c, k.s, proc.id, proc.text));
        actions, s' := [a] + [Commit(k.p)], Created(c, k.s, proc.id, proc.text);
      } else {
        BackToIdle(k, RolledBack(k.s, proc.id, proc.text), proc);
        AloneLast(c, k, m, a);
        actions, s' := [a], RolledBack(k.s, proc.id, proc.text);
      }
    }
  }

  lemma OneInserted(proc: Proc, inserted: bool)
    requires proc.Inserting? && proc.next < |proc.freqs|
    ensures var proc' := Inserted(proc, inserted);
            && proc'.Inserting? && proc'.id == proc.id && proc'.text == proc.text && proc'.freqs == proc.freqs
            && proc'.next == proc.next + 1 && proc'.ok == (proc.ok && inserted)
  {
  }

  lemma CreateBegins(c: Config, k: Call, id: DocId, text: string, freqs: seq<TermFrequency>)
    requires Starts(k) && id !in k.s.origin && Computed(freqs, id, Tokenize(text))
    ensures var a, proc := BeginCreate(k.p, text, id, freqs), Inserting(id, text, freqs, 0, map[], true);
            Inserts(k.s, proc) && Enabled(k.s, a) && Apply(c, k.s, a) == InsertingState(k, proc)
  {
    hide Tokenize, Computed;
    assert freqs[..0] == [];
  }

  lemma ServeCreate(c: Config, k: Call, id: DocId, text: string, good: bool) returns (actions: seq<Action>, s': State)
    requires Starts(k) && id !in k.s.origin && (good ==> Tokenize(text) != [])
    ensures Alone(c, k, k.s, actions, s')
    ensures s' == if good then Created(c, k.s, id, text) else RolledBack(k.s, id, text)
  {
    hide Tokenize, Computed, Created, RolledBack, InsertingState, Inserts, Enabled, Apply, Alone;
    var freqs := TermsExist(Tokenize(text), id);
    var begin, proc := BeginCreate(k.p, text, id, freqs), Inserting(id, text, freqs, 0, map[], true);
    CreateBegins(c, k, id, text, freqs);
    actions, s' := ServeInserts(c, k, proc, good);
    assert k.p in InsertingState(k, proc).procs && !InsertingState(k, proc).procs[k.p].Idle? by {
      MidwayBusy(k, proc);
    }
    AloneCons(c, k, k.s, begin, actions, s');
    actions := [begin] + actions;
  }

  lemma MidwayBusy(k: Call, proc: Proc)
    requires proc.Inserting?
    ensures k.p in InsertingState(k, proc).procs && !InsertingState(k, proc).procs[k.p].Idle?
  {
  }

  // ---------- search ----------

  /** From the n-th text on. */
  lemma {:induction false} ServeFetches(c: Config, k: Call, query: string, run: SearchRun, n: nat)
      returns (actions: seq<Action>)
    requires Starts(k) && n <= |run.ranked| == |run.fails|
    ensures Alone(c, k, FetchedState(c, k, query, run, run.fails[..n]), actions, Answered(c, k, query, run))
    decreases |run.ranked| - n
  {
    hide Tokenize, PutGroups, AfterGets, Fetch, Lookup, AfterGet, ReplyTexts, Enabled, Apply, Alone;
    var m := FetchedState(c, k, query, run, run.fails[..n]);
    if n == |run.ranked| {
      assert run.fails[..n] == run.fails;
      AtEnd(c, m, k.p, EndSearch(k.p));
      BackToIdle(k, Answered(c, k, query, run), m.procs[k.p]);
      AloneLast(c, k, m, EndSearch(k.p));
      actions := [EndSearch(k.p)];
    } else {
      var d, lookup, failed := run.ranked[n].docId, FetchLookup(k.p), run.fails[n];
      assert run.fails[..n] + [failed] == run.fails[..n + 1];
      AtFetch(c, m, k.p, lookup);
      actions := ServeFetches(c, k, query, run, n + 1);
      match Lookup(m.docCache, d) {
        case Some(text) =>
          FetchedNext(c, k, query, run, run.fails[..n], failed, m.procs[k.p], AfterGet(m.docCache, d), text);
        case None =>
          AbsentGet(m.docCache, d);
          GotoTwice(FetchedBase(c, k, query, run, run.fails[..n]), k.p, m.procs[k.p], MissedText(m.procs[k.p]));
          actions := ServeMissed(c, k, query, run, n, actions);
      }
      AloneCons(c, k, m, lookup, actions, Answered(c, k, query, run));
      actions := [lookup] + actions;
    }
  }

  /** A text that is not cached: the select, and the put if it returns a row. */
  lemma ServeMissed(c: Config, k: Call, query: string, run: SearchRun, n: nat, rest: seq<Action>)
      returns (actions: seq<Action>)
    requires Starts(k) && n < |run.ranked| == |run.fails|
    requires Alone(c, k, FetchedState(c, k, query, run, run.fails[..n + 1]), rest, Answered(c, k, query, run))
    requires Lookup(FetchedState(c, k, query, run, run.fails[..n]).docCache, run.ranked[n].docId) == None
    ensures var m := FetchedState(c, k, query, run, run.fails[..n]);
            Alone(c, k, Midway(k, FetchedBase(c, k, query, run, run.fails[..n]), MissedText(m.procs[k.p])), actions,
                  Answered(c, k, query, run))
  {
    hide Tokenize, PutGroups, AfterGets, Fetch, Lookup, AfterPut, ReplyTexts, Enabled, Apply, Alone;
    var m, base := FetchedState(c, k, query, run, run.fails[..n]), FetchedBase(c, k, query, run, run.fails[..n]);
    var d, select, missed := run.ranked[n].docId, FetchSelect(k.p, run.fails[n]), MissedText(m.procs[k.p]);
    assert run.fails[..n] + [run.fails[n]] == run.fails[..n + 1];
    AtFetchMissed(c, Midway(k, base, missed), k.p, select);
    actions := rest;
    match Select(k.s.documents, d, run.fails[n]) {
      case Some(text) =>
        var found, put := FoundText(m.procs[k.p], text), FetchPut(k.p);
        GotoTwice(base, k.p, missed, found);
        AtFetchFound(c, Midway(k, base, found), k.p, put);
        var cache := AfterPut(c.docCap, m.docCache, d, text);
        FetchedNext(c, k, query, run, run.fails[..n], run.fails[n], found, cache, text);
        AloneCons(c, k, Midway(k, base, found), put, actions, Answered(c, k, query, run));
        actions := [put] + actions;
      case None =>
        FetchedNext(c, k, query, run, run.fails[..n], run.fails[n], missed, m.docCache, "");
    }
    AloneCons(c, k, Midway(k, base, missed), select, actions, Answered(c, k, query, run));
    actions := [select] + actions;
  }

  /** From the j-th group on. */
  lemma {:induction false} ServeGroups(c: Config, k: Call, query: string, topK: int, run: SearchRun, j: nat)
      returns (actions: seq<Action>)
    requires Starts(k) && Ranked(k, query, topK, run) && j <= |run.order| && |run.fails| == |run.ranked|
    ensures Alone(c, k, FilledState(c, k, query, run.rows, run.order, j), actions, Answered(c, k, query, run))
    decreases |run.order| - j
  {
    hide Tokenize, PutGroups, AfterGets, HitRecords, AfterPut, Missed, Selects, GroupOrder, TopK, Scores, Enabled,
         Apply, Alone, Answered;
    var m := FilledState(c, k, query, run.rows, run.order, j);
    if j < |run.order| {
      FilledNext(c, k, query, run.rows, run.order, j);
      AtGroup(c, m, k.p, PutGroup(k.p));
      actions := ServeGroups(c, k, query, topK, run, j + 1);
      AloneCons(c, k, m, PutGroup(k.p), actions, Answered(c, k, query, run));
      actions := [PutGroup(k.p)] + actions;
    } else {
      var rank := RankDocuments(k.p, run.ranked, k.idf, topK);
      AtRank(c, m, k.p, rank);
      RankedStart(c, k, query, run);
      assert run.fails[..0] == [];
      actions := ServeFetches(c, k, query, run, 0);
      AloneCons(c, k, m, rank, actions, Answered(c, k, query, run));
      actions := [rank] + actions;
    }
  }

  /** From the next token on. */
  lemma {:induction false} ServeTokens(c: Config, k: Call, query: string, topK: int, run: SearchRun, m: State)
      returns (actions: seq<Action>)
    requires Starts(k) && Ranked(k, query, topK, run) && |run.fails| == |run.ranked| && Looked(c, k, query, m)
    ensures Alone(c, k, m, actions, Answered(c, k, query, run))
    decreases |Tokenize(query)| - m.procs[k.p].next
  {
    hide Tokenize, AfterGets, HitRecords, Missed, Selects, GroupOrder, TopK, Scores, Lookup, Enabled, Apply, Alone,
         Answered;
    if m.procs[k.p].next < |Tokenize(query)| {
      LookedNext(c, k, query, m);
      actions := ServeTokens(c, k, query, topK, run, Apply(c, m, LookupToken(k.p)));
      AloneCons(c, k, m, LookupToken(k.p), actions, Answered(c, k, query, run));
      actions := [LookupToken(k.p)] + actions;
    } else {
      var select := SelectRows(k.p, run.rows, run.order);
      AllLooked(c, k, query, m);
      AtRows(c, m, k.p, select);
      FilledStart(c, k, query, m.procs[k.p], run.rows, run.order);
      actions := ServeGroups(c, k, query, topK, run, 0);
      AloneCons(c, k, m, select, actions, Answered(c, k, query, run));
      actions := [select] + actions;
    }
  }

  lemma SearchBegins(c: Config, k: Call, query: string)
    requires Starts(k)
    ensures Enabled(k.s, BeginSearch(k.p, query))
    ensures Apply(c, k.s, BeginSearch(k.p, query))
         == if Tokenize(query) == [] then k.s else Midway(k, k.s, LookingUp(Tokenize(query), 0, [], []))
  {
    hide Tokenize;
  }

  lemma ServeSearch(c: Config, k: Call, query: string, topK: int, run: SearchRun) returns (actions: seq<Action>)
    requires Starts(k) && Ranked(k, query, topK, run) && |run.fails| == |run.ranked| && CacheFits(c.tfCap, k.s.tfCache)
    ensures Alone(c, k, k.s, actions, Answered(c, k, query, run))
  {
    hide Tokenize, Ranked, Looked, Enabled, Apply, Alone, Answered;
    var begin, m := BeginSearch(k.p, query), Midway(k, k.s, LookingUp(Tokenize(query), 0, [], []));
    assert Tokenize(query) != [] by {
      RankedTokens(k, query, topK, run);
    }
    SearchBegins(c, k, query);
    LookedStart(c, k, query);
    actions := ServeTokens(c, k, query, topK, run, m);
    AloneCons(c, k, k.s, begin, actions, Answered(c, k, query, run));
    actions := [begin] + actions;
  }

  lemma RankedTokens(k: Call, query: string, topK: int, run: SearchRun)
    requires Ranked(k, query, topK, run)
    ensures Tokenize(query) != []
  {
  }

  // ---------- every request ----------

  /** The actions serve the request: its step and its reply, and no other thread is moved. */
  ghost predicate Serves(c: Config, k: Call, req: Request, w': World, actions: seq<Action>, s': State) {
    && Alone(c, k, k.s, actions, s') && WorldOf(s', k.idf) == w'
    && s'.replies == k.s.replies + ReplyOf(req) && s'.procs == k.s.procs
  }

  lemma CreateServed(c: Config, k: Call, req: Request, w': World) returns (actions: seq<Action>, s': State)
    requires Starts(k) && Next(c, WorldOf(k.s, k.idf), req, w') && req.Create? && req.generated.Some?
    ensures Serves(c, k, req, w', actions, s')
  {
    hide Tokenize, RowsOf, AfterPut, Alone;
    actions, s' := ServeCreate(c, k, req.generated.value, req.text, req.created.Some?);
  }

  lemma ReadServed(c: Config, k: Call, req: Request, w': World) returns (actions: seq<Action>, s': State)
    requires Starts(k) && Next(c, WorldOf(k.s, k.idf), req, w') && req.Read?
    ensures Serves(c, k, req, w', actions, s')
  {
    hide Lookup, AfterGet, Select, Alone;
    actions, s' := ServeRead(c, k, req.id, req.failed);
  }

  lemma DeleteServed(c: Config, k: Call, req: Request, w': World) returns (actions: seq<Action>, s': State)
    requires Starts(k) && Next(c, WorldOf(k.s, k.idf), req, w') && req.Delete?
    ensures Serves(c, k, req, w', actions, s')
  {
    hide Lookup, Without, Alone;
    actions := ServeDelete(c, k, req.id, req.deleted);
    s' := Erased(Evicted(k.s, req.id), req.id, req.deleted);
  }

  lemma SearchServed(c: Config, k: Call, req: Request, w': World) returns (actions: seq<Action>, s': State)
    requires Starts(k) && Next(c, WorldOf(k.s, k.idf), req, w') && req.Search? && CacheFits(c.tfCap, k.s.tfCache)
    ensures Serves(c, k, req, w', actions, s')
  {
    hide Tokenize, AfterGets, HitRecords, Missed, PutGroups, Fetch, Selects, GroupOrder, TopK, Scores, ReplyTexts,
         Enabled, Apply, Alone;
    if Tokenize(req.query) == [] {
      SearchBegins(c, k, req.query);
      AloneLast(c, k, k.s, BeginSearch(k.p, req.query));
      actions, s' := [BeginSearch(k.p, req.query)], k.s;
      assert ReplyTexts([]) == [];
    } else {
      assert req.run.ranked[..|req.run.fails|] == req.run.ranked;
      actions := ServeSearch(c, k, req.query, req.topK, req.run);
      s' := Answered(c, k, req.query, req.run);
    }
  }

  /** Every request the engine can serve in a step can be served by a thread that runs alone; for a create
      the insert of the document row must succeed, because a create begins with the new id. */
  lemma StepIsServed(c: Config, k: Call, req: Request, w': World) returns (actions: seq<Action>, s': State)
    requires Starts(k) && Next(c, WorldOf(k.s, k.idf), req, w') && CacheFits(c.tfCap, k.s.tfCache)
    requires !req.UpdateIdf? && (req.Create? ==> req.generated.Some?)
    ensures Serves(c, k, req, w', actions, s')
  {
    hide Next, Serves;
    match req
    case Create(_, _, _) => actions, s' := CreateServed(c, k, req, w');
    case Read(_, _, _) => actions, s' := ReadServed(c, k, req, w');
    case Delete(_, _) => actions, s' := DeleteServed(c, k, req, w');
    case Search(_, _, _, _) => actions, s' := SearchServed(c, k, req, w');
  }
}
