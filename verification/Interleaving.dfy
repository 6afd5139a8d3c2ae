/** The same requests at the granularity of single cache operations and SQL statements, interleaved
    in any order by any number of request threads. A transaction's inserts are visible to others only
    from its commit on, as under READ COMMITTED. */
module Interleaving {
  import opened Wrappers
  import opened RecencyList
  import opened Tokenizer
  import opened TermFrequency
  import opened SearchSpec
  import opened Engine
  import opened EngineInvariants
  import opened Database

  /** Where a request thread is between two of its atomic operations. */
  datatype Proc =
    | Idle
    // create: inside the transaction, next term to insert; then cached but not committed
    | Inserting(id: DocId, text: string, freqs: seq<TermFrequency>, next: nat, rows: TermTable, ok: bool)
    | Uncommitted(id: DocId, text: string, rows: TermTable)
    // read: the cache missed
    | ReadMissed(id: DocId)
    // delete: removed from the document cache; then possibly cleared the posting cache
    | Clearing(id: DocId)
    | Deleting(id: DocId)
    // search: looking tokens up, refilling the cache, fetching texts
    | LookingUp(tokens: seq<string>, next: nat, records: seq<TermFrequency>, missed: seq<string>)
    | Filling(tokens: seq<string>, records: seq<TermFrequency>, groups: seq<Entry<string, seq<Posting>>>)
    | Fetching(todo: seq<Scored>, results: seq<SearchResult>)
    | FetchMissed(todo: seq<Scored>, results: seq<SearchResult>)
    | FetchFound(todo: seq<Scored>, results: seq<SearchResult>, text: string)

  type ProcId = nat

  /** replies: every text handed to a client. deleted, rolledBack: ids whose row was deleted, or whose
      insert was undone. */
  datatype State = State(
    documents: map<DocId, string>,
    tf: TermTable,
    docCache: DocumentCache,
    tfCache: PostingCache,
    procs: map<ProcId, Proc>,
    origin: map<DocId, string>,
    replies: seq<(DocId, string)>,
    deleted: set<DocId>,
    rolledBack: set<DocId>)

  datatype Action =
    | BeginCreate(p: ProcId, text: string, id: DocId, freqs: seq<TermFrequency>)
    | InsertTerm(p: ProcId, inserted: bool)
    | EndInserts(p: ProcId)
    | Commit(p: ProcId)
    | BeginRead(p: ProcId, id: DocId)
    | ReadSelect(p: ProcId, failed: bool)
    | BeginDelete(p: ProcId, id: DocId)
    | ClearPostings(p: ProcId)
    | DeleteRow(p: ProcId, done: bool)
    | BeginSearch(p: ProcId, query: string)
    | LookupToken(p: ProcId)
    | SelectRows(p: ProcId, rows: seq<TermFrequency>, order: seq<string>)
    | PutGroup(p: ProcId)
    | RankDocuments(p: ProcId, ranked: seq<Scored>, idf: map<string, real>, topK: int)
    | FetchLookup(p: ProcId)
    | FetchSelect(p: ProcId, failed: bool)
    | FetchPut(p: ProcId)
    | EndSearch(p: ProcId)

  function GroupList(rows: seq<TermFrequency>, order: seq<string>): (gs: seq<Entry<string, seq<Posting>>>)
    ensures |gs| == |order| && forall i :: 0 <= i < |gs| ==> gs[i] == Entry(order[i], GroupOf(rows, order[i]))
  {
    seq(|order|, i requires 0 <= i < |order| => Entry(order[i], GroupOf(rows, order[i])))
  }

  ghost predicate Enabled(s: State, a: Action) {
    && a.p in s.procs
    && var proc := s.procs[a.p];
       match a
       case BeginCreate(_, text, id, freqs) => proc.Idle? && id !in s.origin && Computed(freqs, id, Tokenize(text))
       case InsertTerm(_, _) => proc.Inserting? && proc.next < |proc.freqs|
       case EndInserts(_) => proc.Inserting? && proc.next >= |proc.freqs|
       case Commit(_) => proc.Uncommitted?
       case BeginRead(_, _) => proc.Idle?
       case ReadSelect(_, _) => proc.ReadMissed?
       case BeginDelete(_, _) => proc.Idle?
       case ClearPostings(_) => proc.Clearing?
       case DeleteRow(_, done) => proc.Deleting? && (done ==> proc.id in s.documents)
       case BeginSearch(_, _) => proc.Idle?
       case LookupToken(_) => proc.LookingUp? && proc.next < |proc.tokens|
       case SelectRows(_, rows, order) =>
         && proc.LookingUp? && proc.next >= |proc.tokens| && GroupOrder(rows, order)
         && (rows == [] || Selects(rows, s.tf, proc.missed))
       case PutGroup(_) => proc.Filling? && proc.groups != []
       case RankDocuments(_, ranked, idf, topK) =>
         && proc.Filling? && proc.groups == [] && proc.tokens != []
         && TopK(ranked, Scores(proc.records, idf, |proc.tokens|), topK)
       case FetchLookup(_) => proc.Fetching? && proc.todo != []
       case FetchSelect(_, _) => proc.FetchMissed? && proc.todo != []
       case FetchPut(_) => proc.FetchFound? && proc.todo != []
       case EndSearch(_) => proc.Fetching? && proc.todo == []
  }

  function Goto(s: State, p: ProcId, proc: Proc): State {
    s.(procs := s.procs[p := proc])
  }

  /** The thread has tried to insert the next term. */
  function Inserted(proc: Proc, inserted: bool): Proc
    requires proc.Inserting? && proc.next < |proc.freqs|
  {
    var f := proc.freqs[proc.next];
    if inserted then proc.(next := proc.next + 1, rows := proc.rows[(f.docId, f.word) := Round6(f.wordFrequency)])
    else proc.(next := proc.next + 1, ok := false)
  }

  /** The thread moves on to the next document to fetch. */
  function Fetched(proc: Proc, text: string): Proc
    requires (proc.Fetching? || proc.FetchMissed? || proc.FetchFound?) && proc.todo != []
  {
    Fetching(proc.todo[1..], proc.results + [SearchResult(proc.todo[0].docId, proc.todo[0].score, text)])
  }

  function ReplyTexts(results: seq<SearchResult>): (ts: seq<(DocId, string)>)
    ensures |ts| == |results| && forall i :: 0 <= i < |ts| ==> ts[i] == (results[i].docId, results[i].text)
  {
    seq(|results|, i requires 0 <= i < |results| => (results[i].docId, results[i].text))
  }

  ghost function Apply(c: Config, s: State, a: Action): State
    requires Enabled(s, a)
  {
    var proc := s.procs[a.p];
    match a
    case BeginCreate(p, text, id, freqs) =>
      Goto(s.(origin := s.origin[id := text]), p, Inserting(id, text, freqs, 0, map[], true))
    case InsertTerm(p, inserted) =>
      Goto(s, p, Inserted(proc, inserted))
    case EndInserts(p) =>
      if proc.ok && proc.freqs != [] then
        var put := s.(docCache := AfterPut(c.docCap, s.docCache, proc.id, proc.text));
        Goto(put, p, Uncommitted(proc.id, proc.text, proc.rows))
      else
        Goto(s.(rolledBack := s.rolledBack + {proc.id}), p, Idle)
    case Commit(p) =>
      Goto(s.(documents := s.documents[proc.id := proc.text], tf := s.tf + proc.rows), p, Idle)
    case BeginRead(p, id) =>
      var s' := s.(docCache := AfterGet(s.docCache, id));
      (match Lookup(s.docCache, id)
       case Some(text) => s'.(replies := s.replies + [(id, text)])
       case None => Goto(s', p, ReadMissed(id)))
    case ReadSelect(p, failed) =>
      var s' := Goto(s, p, Idle);
      (match Select(s.documents, proc.id, failed)
       case Some(text) => s'.(replies := s.replies + [(proc.id, text)])
       case None => s')
    case BeginDelete(p, id) =>
      Goto(s.(docCache := Without(s.docCache, id)), p, if Resident(s.docCache, id) then Clearing(id) else Deleting(id))
    case ClearPostings(p) =>
      Goto(s.(tfCache := []), p, Deleting(proc.id))
    case DeleteRow(p, done) =>
      if done then
        Goto(s.(documents := s.documents - {proc.id}, tf := (map k | k in s.tf && k.0 != proc.id :: s.tf[k]),
                deleted := s.deleted + {proc.id}), p, Idle)
      else Goto(s, p, Idle)
    case BeginSearch(p, query) =>
      if Tokenize(query) == [] then s else Goto(s, p, LookingUp(Tokenize(query), 0, [], []))
    case LookupToken(p) =>
      var w := proc.tokens[proc.next];
      Goto(s.(tfCache := AfterGet(s.tfCache, w)), p,
           match Lookup(s.tfCache, w)
           case Some(ps) => proc.(next := proc.next + 1, records := proc.records + RecordsOf(w, ps))
           case None => proc.(next := proc.next + 1, missed := proc.missed + [w]))
    case SelectRows(p, rows, order) =>
      Goto(s, p, Filling(proc.tokens, proc.records + rows, GroupList(rows, order)))
    case PutGroup(p) =>
      var g := proc.groups[0];
      Goto(s.(tfCache := AfterPut(c.tfCap, s.tfCache, g.key, g.value)), p, proc.(groups := proc.groups[1..]))
    case RankDocuments(p, ranked, _, _) =>
      Goto(s, p, Fetching(ranked, []))
    case FetchLookup(p) =>
      var d := proc.todo[0].docId;
      Goto(s.(docCache := AfterGet(s.docCache, d)), p,
           match Lookup(s.docCache, d)
           case Some(text) => Fetched(proc, text)
           case None => FetchMissed(proc.todo, proc.results))
    case FetchSelect(p, failed) =>
      Goto(s, p,
           match Select(s.documents, proc.todo[0].docId, failed)
           case Some(text) => FetchFound(proc.todo, proc.results, text)
           case None => Fetched(proc, ""))
    case FetchPut(p) =>
      Goto(s.(docCache := AfterPut(c.docCap, s.docCache, proc.todo[0].docId, proc.text)), p, Fetched(proc, proc.text))
    case EndSearch(p) =>
      Goto(s.(replies := s.replies + ReplyTexts(proc.results)), p, Idle)
  }

  ghost predicate Initially(s: State) {
    && s.documents == map[] && s.tf == map[] && s.docCache == [] && s.tfCache == [] && s.origin == map[]
    && s.replies == [] && s.deleted == {} && s.rolledBack == {}
    && forall p :: p in s.procs ==> s.procs[p] == Idle
  }

  ghost predicate Executes(c: Config, s: State, actions: seq<Action>, s': State)
    decreases |actions|
  {
    if actions == [] then s' == s
    else Enabled(s, actions[0]) && Executes(c, Apply(c, s, actions[0]), actions[1..], s')
  }

  // ---------- the invariant ----------

  /** The record's frequency is the stored frequency of its word in the document's original text. */
  ghost predicate GoodRecord(origin: map<DocId, string>, r: TermFrequency) {
    && r.docId in origin && r.word in Tokenize(origin[r.docId])
    && r.wordFrequency == StoredFrequency(Tokenize(origin[r.docId]), r.word)
  }

  ghost predicate GoodText(origin: map<DocId, string>, d: DocId, text: string) {
    d in origin && origin[d] == text
  }

  ghost predicate GoodResult(origin: map<DocId, string>, r: SearchResult) {
    r.text == "" || GoodText(origin, r.docId, r.text)
  }

  /** The id of a create that has neither committed nor rolled back. */
  function Pending(proc: Proc): Option<DocId> {
    if proc.Inserting? || proc.Uncommitted? then Some(proc.id) else None
  }

  /** What the local state of a thread guarantees. once is the set of ids that were ever committed. */
  ghost predicate GoodProc(origin: map<DocId, string>, once: set<DocId>, proc: Proc) {
    match proc
    case Inserting(id, text, freqs, next, rows, ok) =>
      && GoodText(origin, id, text) && Computed(freqs, id, Tokenize(text)) && next <= |freqs|
      && (ok ==> rows == Upserted(map[], freqs[..next]))
    case Uncommitted(id, text, rows) =>
      GoodText(origin, id, text) && Tokenize(text) != [] && rows == RowsOf(id, text)
    case LookingUp(_, _, records, _) => forall r :: r in records ==> GoodRecord(origin, r)
    case Filling(_, records, groups) =>
      && (forall r :: r in records ==> GoodRecord(origin, r))
      && (forall g :: g in groups ==> GoodPostings(origin, g.key, g.value))
    case Fetching(_, results) => forall r :: r in results ==> GoodResult(origin, r)
    case FetchMissed(_, results) => forall r :: r in results ==> GoodResult(origin, r)
    case FetchFound(todo, results, text) =>
      && (forall r :: r in results ==> GoodResult(origin, r))
      && (todo != [] ==> GoodText(origin, todo[0].docId, text) && todo[0].docId in once)
    case _ => true
  }

  function Once(s: State): set<DocId> {
    s.documents.Keys + s.deleted
  }

  ghost predicate IsUncommitted(s: State, d: DocId) {
    exists p :: p in s.procs && s.procs[p].Uncommitted? && s.procs[p].id == d
  }

  /** Tables: the index matches, rows are the original texts. */
  ghost predicate TablesGood(s: State) {
    && IndexMatches(s.documents, s.tf)
    && forall d :: d in s.documents ==> GoodText(s.origin, d, s.documents[d])
  }

  ghost predicate CachesGood(c: Config, s: State) {
    && CacheFits(c.docCap, s.docCache) && CacheFits(c.tfCap, s.tfCache)
    && (forall e :: e in s.docCache ==>
          GoodText(s.origin, e.key, e.value) && (e.key in Once(s) || IsUncommitted(s, e.key)))
    && (forall e :: e in s.tfCache ==> GoodPostings(s.origin, e.key, e.value))
  }

  /** An id is pending in one thread at a time, and neither committed nor rolled back before. */
  ghost predicate PendingGood(s: State) {
    && s.rolledBack <= s.origin.Keys && s.deleted <= s.origin.Keys
    && s.rolledBack !! Once(s) && s.deleted !! s.documents.Keys
    && (forall p :: p in s.procs && Pending(s.procs[p]).Some? ==>
          var d := Pending(s.procs[p]).value; d in s.origin && d !in Once(s) && d !in s.rolledBack)
    && (forall p, q :: p in s.procs && q in s.procs && p != q && Pending(s.procs[p]).Some? ==>
          Pending(s.procs[p]) != Pending(s.procs[q]))
  }

  ghost predicate Consistent(c: Config, s: State) {
    && TablesGood(s) && CachesGood(c, s) && PendingGood(s)
    && (forall p :: p in s.procs ==> GoodProc(s.origin, Once(s), s.procs[p]))
    && (forall t :: t in s.replies ==> t.1 == "" || GoodText(s.origin, t.0, t.1))
  }
}
