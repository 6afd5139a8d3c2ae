/** The interleaved system keeps its invariant: however requests interleave, texts and postings are
    never mixed up between documents. */
module InterleavingProofs {
  import opened Wrappers
  import opened RecencyList
  import opened Tokenizer
  import opened TermFrequency
  import opened SearchSpec
  import opened Scoring
  import opened Engine
  import opened EngineInvariants
  import opened Database
  import opened Interleaving

  // ---------- steps that touch one component ----------

  /** A thread moves on without leaving the Uncommitted point. */
  lemma GotoInv(c: Config, s: State, p: ProcId, proc: Proc)
    requires Consistent(c, s) && p in s.procs && !s.procs[p].Uncommitted?
    requires GoodProc(s.origin, Once(s), proc)
    requires Pending(proc).Some? ==> Pending(proc) == Pending(s.procs[p])
    ensures Consistent(c, Goto(s, p, proc))
  {
    hide GoodProc, GoodPostings, TablesGood, CacheFits, GoodText;
    var s' := Goto(s, p, proc);
    forall d | IsUncommitted(s, d) ensures IsUncommitted(s', d) {
      var q :| q in s.procs && s.procs[q].Uncommitted? && s.procs[q].id == d;
      assert s'.procs[q] == s.procs[q];
    }
    assert TablesGood(s') by {
      assert TablesGood(s);
      TablesFrame(s, s');
    }
    assert Once(s') == Once(s);
  }

  lemma TablesFrame(s: State, s': State)
    requires TablesGood(s) && s'.documents == s.documents && s'.tf == s.tf && s'.origin == s.origin
    ensures TablesGood(s')
  {
  }

  lemma DocCacheInv(c: Config, s: State, l: DocumentCache)
    requires Consistent(c, s) && CacheFits(c.docCap, l)
    requires forall e :: e in l ==>
               || e in s.docCache
               || (GoodText(s.origin, e.key, e.value) && (e.key in Once(s) || IsUncommitted(s, e.key)))
    ensures Consistent(c, s.(docCache := l))
  {
    hide GoodProc, GoodPostings, GoodText, IndexMatches;
    var s' := s.(docCache := l);
    assert Once(s') == Once(s) && forall d :: IsUncommitted(s, d) ==> IsUncommitted(s', d);
    TablesFrame(s, s');
  }

  lemma TfCacheInv(c: Config, s: State, l: PostingCache)
    requires Consistent(c, s) && CacheFits(c.tfCap, l)
    requires forall e :: e in l ==> e in s.tfCache || GoodPostings(s.origin, e.key, e.value)
    ensures Consistent(c, s.(tfCache := l))
  {
    hide GoodProc, GoodPostings, GoodText, IndexMatches;
    var s' := s.(tfCache := l);
    assert Once(s') == Once(s) && forall d :: IsUncommitted(s, d) ==> IsUncommitted(s', d);
    TablesFrame(s, s');
  }

  lemma RepliesInv(c: Config, s: State, ts: seq<(DocId, string)>)
    requires Consistent(c, s) && forall t :: t in ts ==> t.1 == "" || GoodText(s.origin, t.0, t.1)
    ensures Consistent(c, s.(replies := s.replies + ts))
  {
    hide GoodProc, GoodPostings, GoodText, IndexMatches;
    var s' := s.(replies := s.replies + ts);
    assert Once(s') == Once(s) && forall d :: IsUncommitted(s, d) ==> IsUncommitted(s', d);
    TablesFrame(s, s');
  }

  /** A get leaves the cached entries as they are. */
  lemma DocGetInv(c: Config, s: State, d: DocId)
    requires Consistent(c, s)
    ensures Consistent(c, s.(docCache := AfterGet(s.docCache, d)))
    ensures Resident(s.docCache, d) ==> GoodText(s.origin, d, Lookup(s.docCache, d).value)
  {
    hide Consistent;
    CachesOf(c, s);
    GetMembers(c.docCap, s.docCache, d);
    LookupFound(s.docCache, d);
    DocCacheInv(c, s, AfterGet(s.docCache, d));
  }

  lemma CachesOf(c: Config, s: State)
    requires Consistent(c, s)
    ensures CachesGood(c, s)
  {
  }

  lemma DocPutInv(c: Config, s: State, d: DocId, text: string)
    requires Consistent(c, s) && GoodText(s.origin, d, text) && (d in Once(s) || IsUncommitted(s, d))
    ensures Consistent(c, s.(docCache := AfterPut(c.docCap, s.docCache, d, text)))
  {
    hide Consistent;
    CachesOf(c, s);
    PutMembers(c.docCap, s.docCache, d, text);
    DocCacheInv(c, s, AfterPut(c.docCap, s.docCache, d, text));
  }

  lemma ProcOf(c: Config, s: State, p: ProcId)
    requires Consistent(c, s) && p in s.procs
    ensures GoodProc(s.origin, Once(s), s.procs[p])
  {
  }

  // ---------- one action, one thread ----------

  /** The operations of a search. */
  predicate Searches(a: Action) {
    a.BeginSearch? || a.LookupToken? || a.SelectRows? || a.PutGroup? || a.RankDocuments?
    || a.FetchLookup? || a.FetchSelect? || a.FetchPut? || a.EndSearch?
  }

  /** An action moves its own thread and no other, and nothing is undeleted. */
  ghost predicate OnlyMoves(s: State, s': State, p: ProcId) {
    && p in s.procs && p in s'.procs && s'.procs == s.procs[p := s'.procs[p]]
    && s.deleted <= s'.deleted && s.rolledBack <= s'.rolledBack
  }

  lemma SearchMoves(c: Config, s: State, a: Action)
    requires Enabled(s, a) && Searches(a)
    ensures OnlyMoves(s, Apply(c, s, a), a.p)
  {
    hide Lookup, AfterGet, AfterPut, Without, Tokenize, RecordsOf, GroupList, Round6, ReplyTexts, Select, Computed,
         Selects, GroupOrder, TopK, Scores, Fetched;
  }

  lemma OtherMoves(c: Config, s: State, a: Action)
    requires Enabled(s, a) && !Searches(a)
    ensures OnlyMoves(s, Apply(c, s, a), a.p)
  {
    hide Lookup, AfterGet, AfterPut, Without, Tokenize, RecordsOf, GroupList, Round6, ReplyTexts, Select, Computed,
         Selects, GroupOrder, TopK, Scores, Fetched;
  }

  lemma OthersStay(c: Config, s: State, a: Action)
    requires Enabled(s, a)
    ensures a.p in s.procs && OnlyMoves(s, Apply(c, s, a), a.p)
  {
    hide Apply, Enabled;
    if Searches(a) {
      SearchMoves(c, s, a);
    } else {
      OtherMoves(c, s, a);
    }
  }

  // ---------- create ----------

  lemma GoodProcGrows(origin: map<DocId, string>, id: DocId, text: string, once: set<DocId>, proc: Proc)
    requires GoodProc(origin, once, proc) && id !in origin
    ensures GoodProc(origin[id := text], once, proc)
  {
    hide Tokenize, StoredFrequency, Computed, Upserted, RowsOf;
  }

  lemma BeginCreateInv(c: Config, s: State, a: Action)
    requires Consistent(c, s) && Enabled(s, a) && a.BeginCreate?
    ensures Consistent(c, Apply(c, s, a))
  {
    hide GoodProc, GoodPostings, Computed, Upserted, IndexMatches, CacheFits, Tokenize;
    var id, text := a.id, a.text;
    var s1 := s.(origin := s.origin[id := text]);
    assert Consistent(c, s1) by {
      forall p | p in s.procs ensures GoodProc(s1.origin, Once(s1), s.procs[p]) {
        GoodProcGrows(s.origin, id, text, Once(s), s.procs[p]);
      }
      forall e | e in s.tfCache ensures GoodPostings(s1.origin, e.key, e.value) {
        GoodPostingsGrow(s.origin, id, text, e.key, e.value);
      }
      assert forall d :: IsUncommitted(s, d) ==> IsUncommitted(s1, d);
    }
    var proc := Inserting(id, text, a.freqs, 0, map[], true);
    FreshStart(s1.origin, Once(s1), proc);
    NewPendingInv(c, s1, a.p, proc);
  }

  lemma FreshStart(origin: map<DocId, string>, once: set<DocId>, proc: Proc)
    requires proc.Inserting? && GoodText(origin, proc.id, proc.text)
    requires Computed(proc.freqs, proc.id, Tokenize(proc.text))
    requires proc.next == 0 && proc.rows == map[]
    ensures GoodProc(origin, once, proc)
  {
    assert proc.freqs[..0] == [];
  }

  /** A thread becomes the owner of an id nobody else has. */
  lemma NewPendingInv(c: Config, s: State, p: ProcId, proc: Proc)
    requires Consistent(c, s) && p in s.procs && s.procs[p].Idle? && proc.Inserting?
    requires GoodProc(s.origin, Once(s), proc) && proc.id in s.origin && proc.id !in Once(s) && proc.id !in s.rolledBack
    requires forall q :: q in s.procs ==> Pending(s.procs[q]) != Some(proc.id)
    ensures Consistent(c, Goto(s, p, proc))
  {
    hide GoodProc, GoodPostings, IndexMatches, CacheFits, GoodText;
    var s' := Goto(s, p, proc);
    forall d | IsUncommitted(s, d) ensures IsUncommitted(s', d) {
      var q :| q in s.procs && s.procs[q].Uncommitted? && s.procs[q].id == d;
      assert s'.procs[q] == s.procs[q];
    }
    TablesFrame(s, s');
  }

  lemma UpsertedSnoc(freqs: seq<TermFrequency>, next: nat)
    requires next < |freqs|
    ensures var f := freqs[next];
            Upserted(map[], freqs[..next + 1])
              == Upserted(map[], freqs[..next])[(f.docId, f.word) := Round6(f.wordFrequency)]
  {
    hide Round6;
    assert freqs[..next + 1][..next] == freqs[..next];
  }

  lemma InsertTermInv(c: Config, s: State, a: Action)
    requires Consistent(c, s) && Enabled(s, a) && a.InsertTerm?
    ensures Consistent(c, Apply(c, s, a))
  {
    hide Consistent, Round6, Computed, Tokenize, Upserted;
    ProcOf(c, s, a.p);
    var proc := s.procs[a.p];
    UpsertedSnoc(proc.freqs, proc.next);
    GotoInv(c, s, a.p, Apply(c, s, a).procs[a.p]);
  }

  lemma InsertedAll(origin: map<DocId, string>, once: set<DocId>, proc: Proc)
    requires GoodProc(origin, once, proc) && proc.Inserting? && proc.next >= |proc.freqs| && proc.ok && proc.freqs != []
    ensures GoodProc(origin, once, Uncommitted(proc.id, proc.text, proc.rows))
  {
    hide Round6, Tokenize, Computed, Upserted, RowsOf;
    AllUpserted(proc.freqs, proc.next, proc.id, proc.text);
  }

  lemma EndInsertsInv(c: Config, s: State, a: Action)
    requires Consistent(c, s) && Enabled(s, a) && a.EndInserts?
    ensures Consistent(c, Apply(c, s, a))
  {
    hide Consistent, GoodProc, AfterPut;
    ProcOf(c, s, a.p);
    var proc := s.procs[a.p];
    if proc.ok && proc.freqs != [] {
      InsertedAll(s.origin, Once(s), proc);
      var s1 := Goto(s, a.p, Uncommitted(proc.id, proc.text, proc.rows));
      GotoInv(c, s, a.p, s1.procs[a.p]);
      assert IsUncommitted(s1, proc.id) by {
        assert a.p in s1.procs && s1.procs[a.p].Uncommitted? && s1.procs[a.p].id == proc.id;
      }
      PendingText(s.origin, Once(s), proc);
      DocPutInv(c, s1, proc.id, proc.text);
    } else {
      RollbackInv(c, s, a.p);
    }
  }

  lemma PendingText(origin: map<DocId, string>, once: set<DocId>, proc: Proc)
    requires GoodProc(origin, once, proc) && Pending(proc).Some?
    ensures GoodText(origin, proc.id, proc.text)
  {
  }

  lemma RollbackInv(c: Config, s: State, p: ProcId)
    requires Consistent(c, s) && p in s.procs && s.procs[p].Inserting?
    ensures Consistent(c, Goto(s.(rolledBack := s.rolledBack + {s.procs[p].id}), p, Idle))
  {
    hide GoodPostings, IndexMatches, CacheFits, GoodText, GoodProc;
    var s' := Goto(s.(rolledBack := s.rolledBack + {s.procs[p].id}), p, Idle);
    forall d | IsUncommitted(s, d) ensures IsUncommitted(s', d) {
      var q :| q in s.procs && s.procs[q].Uncommitted? && s.procs[q].id == d;
      assert s'.procs[q] == s.procs[q];
    }
    TablesFrame(s, s');
    assert Once(s') == Once(s);
    IdleGood(s.origin, Once(s));
    PendingAfterRollback(s, p);
  }

  lemma IdleGood(origin: map<DocId, string>, once: set<DocId>)
    ensures GoodProc(origin, once, Idle)
  {
  }

  lemma PendingAfterRollback(s: State, p: ProcId)
    requires PendingGood(s) && p in s.procs && s.procs[p].Inserting?
    ensures PendingGood(Goto(s.(rolledBack := s.rolledBack + {s.procs[p].id}), p, Idle))
  {
    var s' := Goto(s.(rolledBack := s.rolledBack + {s.procs[p].id}), p, Idle);
    assert Pending(s.procs[p]) == Some(s.procs[p].id);
    assert Once(s') == Once(s);
    forall q | q in s'.procs && Pending(s'.procs[q]).Some? ensures Pending(s'.procs[q]).value != s.procs[p].id {
      assert q != p && Pending(s.procs[q]) != Pending(s.procs[p]);
    }
  }

  lemma OnceGrows(origin: map<DocId, string>, once: set<DocId>, once': set<DocId>, proc: Proc)
    requires GoodProc(origin, once, proc) && once <= once'
    ensures GoodProc(origin, once', proc)
  {
    hide Tokenize, StoredFrequency, Computed, Upserted, RowsOf;
  }

  lemma CommitTables(s: State, proc: Proc)
    requires TablesGood(s) && proc.Uncommitted? && GoodProc(s.origin, Once(s), proc) && proc.id !in s.documents
    ensures TablesGood(s.(documents := s.documents[proc.id := proc.text], tf := s.tf + proc.rows))
  {
    hide Tokenize, RowsOf, IndexMatches;
    CreateKeepsIndex(s.documents, s.tf, proc.id, proc.text);
  }

  lemma PendingAfterCommit(s: State, p: ProcId)
    requires PendingGood(s) && p in s.procs && s.procs[p].Uncommitted?
    ensures var proc := s.procs[p];
            PendingGood(Goto(s.(documents := s.documents[proc.id := proc.text], tf := s.tf + proc.rows), p, Idle))
  {
    var proc := s.procs[p];
    var s' := Goto(s.(documents := s.documents[proc.id := proc.text], tf := s.tf + proc.rows), p, Idle);
    assert Pending(proc) == Some(proc.id);
    assert Once(s') == Once(s) + {proc.id};
    forall q | q in s'.procs && Pending(s'.procs[q]).Some? ensures Pending(s'.procs[q]).value != proc.id {
      assert q != p && Pending(s.procs[q]) != Pending(proc);
    }
  }

  lemma CommitInv(c: Config, s: State, a: Action)
    requires Consistent(c, s) && Enabled(s, a) && a.Commit?
    ensures Consistent(c, Apply(c, s, a))
  {
    hide GoodPostings, IndexMatches, CacheFits, GoodText, GoodProc, TablesGood, PendingGood;
    var proc, s' := s.procs[a.p], Apply(c, s, a);
    PendingIsNew(s, a.p);
    CommitTables(s, proc);
    TablesFrame(s.(documents := s'.documents, tf := s'.tf), s');
    PendingAfterCommit(s, a.p);
    assert Once(s') == Once(s) + {proc.id};
    forall q | q in s'.procs ensures GoodProc(s'.origin, Once(s'), s'.procs[q]) {
      IdleGood(s.origin, Once(s'));
      OnceGrows(s.origin, Once(s), Once(s'), s.procs[q]);
    }
    forall e | e in s'.docCache ensures e.key in Once(s') || IsUncommitted(s', e.key) {
      if e.key !in Once(s) {
        var q :| q in s.procs && s.procs[q].Uncommitted? && s.procs[q].id == e.key;
        assert q != a.p ==> s'.procs[q] == s.procs[q];
      }
    }
  }

  lemma PendingIsNew(s: State, p: ProcId)
    requires PendingGood(s) && p in s.procs && s.procs[p].Uncommitted?
    ensures s.procs[p].id !in s.documents
  {
    assert Pending(s.procs[p]) == Some(s.procs[p].id);
  }

  // ---------- read and delete ----------

  lemma BeginReadInv(c: Config, s: State, a: Action)
    requires Consistent(c, s) && Enabled(s, a) && a.BeginRead?
    ensures Consistent(c, Apply(c, s, a))
  {
    hide Consistent, AfterGet, Lookup;
    DocGetInv(c, s, a.id);
    var s1 := s.(docCache := AfterGet(s.docCache, a.id));
    match Lookup(s.docCache, a.id)
    case Some(text) => RepliesInv(c, s1, [(a.id, text)]);
    case None => GotoInv(c, s1, a.p, ReadMissed(a.id));
  }

  lemma StoredText(c: Config, s: State, d: DocId)
    requires Consistent(c, s) && d in s.documents
    ensures GoodText(s.origin, d, s.documents[d])
  {
  }

  lemma ReadSelectInv(c: Config, s: State, a: Action)
    requires Consistent(c, s) && Enabled(s, a) && a.ReadSelect?
    ensures Consistent(c, Apply(c, s, a))
  {
    hide Consistent;
    var d := s.procs[a.p].id;
    var s1 := Goto(s, a.p, Idle);
    GotoInv(c, s, a.p, Idle);
    if Select(s.documents, d, a.failed).Some? {
      StoredText(c, s, d);
      RepliesInv(c, s1, [(d, s.documents[d])]);
    }
  }

  lemma BeginDeleteInv(c: Config, s: State, a: Action)
    requires Consistent(c, s) && Enabled(s, a) && a.BeginDelete?
    ensures Consistent(c, Apply(c, s, a))
  {
    hide Consistent, Without, Lookup;
    CachesOf(c, s);
    StepWellFormed(c.docCap, s.docCache, Op<DocId, string>.Remove(a.id));
    WithoutMembers(s.docCache, a.id);
    DocCacheInv(c, s, Without(s.docCache, a.id));
    GotoInv(c, s.(docCache := Without(s.docCache, a.id)), a.p, Apply(c, s, a).procs[a.p]);
  }

  lemma ClearPostingsInv(c: Config, s: State, a: Action)
    requires Consistent(c, s) && Enabled(s, a) && a.ClearPostings?
    ensures Consistent(c, Apply(c, s, a))
  {
    hide Consistent;
    TfCacheInv(c, s, []);
    GotoInv(c, s.(tfCache := []), a.p, Deleting(s.procs[a.p].id));
  }

  lemma DeletedTables(s: State, id: DocId)
    requires TablesGood(s)
    ensures TablesGood(s.(documents := s.documents - {id}, tf := (map k | k in s.tf && k.0 != id :: s.tf[k]),
                          deleted := s.deleted + {id}))
  {
    hide IndexMatches;
    DeleteKeepsIndex(s.documents, s.tf, id);
  }

  lemma DeletedInv(c: Config, s: State, id: DocId)
    requires Consistent(c, s) && id in s.documents
    ensures Consistent(c, s.(documents := s.documents - {id}, tf := (map k | k in s.tf && k.0 != id :: s.tf[k]),
                             deleted := s.deleted + {id}))
  {
    hide GoodPostings, IndexMatches, CacheFits, GoodProc, TablesGood;
    var s' := s.(documents := s.documents - {id}, tf := (map k | k in s.tf && k.0 != id :: s.tf[k]),
                 deleted := s.deleted + {id});
    DeletedTables(s, id);
    StoredText(c, s, id);
    assert Once(s') == Once(s);
    assert forall d :: IsUncommitted(s, d) ==> IsUncommitted(s', d);
  }

  lemma DeleteRowInv(c: Config, s: State, a: Action)
    requires Consistent(c, s) && Enabled(s, a) && a.DeleteRow?
    ensures Consistent(c, Apply(c, s, a))
  {
    hide Consistent;
    var id := s.procs[a.p].id;
    if a.done {
      DeletedInv(c, s, id);
      GotoInv(c, s.(documents := s.documents - {id}, tf := (map k | k in s.tf && k.0 != id :: s.tf[k]),
                    deleted := s.deleted + {id}), a.p, Idle);
    } else {
      GotoInv(c, s, a.p, Idle);
    }
  }

  // ---------- search ----------

  /** The records of a good posting list are good. */
  lemma PostingRecords(origin: map<DocId, string>, w: string, ps: seq<Posting>)
    requires GoodPostings(origin, w, ps)
    ensures forall r :: r in RecordsOf(w, ps) ==> GoodRecord(origin, r)
  {
    hide Tokenize, StoredFrequency;
    RecordsMembers(w, ps);
  }

  lemma LookupTokenInv(c: Config, s: State, a: Action)
    requires Consistent(c, s) && Enabled(s, a) && a.LookupToken?
    ensures Consistent(c, Apply(c, s, a))
  {
    hide Consistent, AfterGet, Lookup, GoodRecord, GoodPostings, RecordsOf;
    var proc := s.procs[a.p];
    var w := proc.tokens[proc.next];
    CachesOf(c, s);
    ProcOf(c, s, a.p);
    GetMembers(c.tfCap, s.tfCache, w);
    TfCacheInv(c, s, AfterGet(s.tfCache, w));
    LookupFound(s.tfCache, w);
    if Resident(s.tfCache, w) {
      PostingRecords(s.origin, w, Lookup(s.tfCache, w).value);
    }
    var s1 := s.(tfCache := AfterGet(s.tfCache, w));
    assert Once(s1) == Once(s);
    GotoInv(c, s1, a.p, Apply(c, s, a).procs[a.p]);
  }

  lemma RowIsGood(s: State, r: TermFrequency)
    requires TablesGood(s) && (r.docId, r.word) in s.tf && r.wordFrequency == s.tf[(r.docId, r.word)]
    ensures GoodRecord(s.origin, r)
  {
    hide Tokenize, StoredFrequency;
  }

  /** The groups of selected rows are good posting lists. */
  lemma GroupsGood(s: State, rows: seq<TermFrequency>, words: seq<string>, order: seq<string>)
    requires TablesGood(s) && Selects(rows, s.tf, words) && GroupOrder(rows, order)
    ensures forall g :: g in GroupList(rows, order) ==> GoodPostings(s.origin, g.key, g.value)
  {
    hide Tokenize, StoredFrequency, GroupOf, IndexMatches;
    forall g | g in GroupList(rows, order) ensures GoodPostings(s.origin, g.key, g.value) {
      var i :| 0 <= i < |order| && GroupList(rows, order)[i] == g;
      assert order[i] in order;
      var k :| 0 <= k < |rows| && rows[k].word == g.key;
      SelectedGroup(rows, s.tf, words, g.key);
      GroupMembers(rows, g.key);
      assert Posting(rows[k].docId, rows[k].wordFrequency) in g.value by {
        assert rows[k] in rows;
      }
      forall p | p in g.value ensures GoodRecord(s.origin, TermFrequency(p.docId, g.key, p.frequency)) {
        var j :| 0 <= j < |g.value| && g.value[j] == p;
        RowIsGood(s, TermFrequency(p.docId, g.key, p.frequency));
      }
    }
  }

  lemma NoGroups(order: seq<string>)
    requires GroupOrder([], order)
    ensures order == []
  {
    if order != [] {
      FirstIn(order);
    }
  }

  lemma FirstIn<T>(xs: seq<T>)
    requires xs != []
    ensures xs[0] in xs
  {
  }

  lemma SelectRowsInv(c: Config, s: State, a: Action)
    requires Consistent(c, s) && Enabled(s, a) && a.SelectRows?
    ensures Consistent(c, Apply(c, s, a))
  {
    hide Consistent, GoodRecord, GoodPostings, TablesGood;
    var proc := s.procs[a.p];
    ProcOf(c, s, a.p);
    TablesOf(c, s);
    if a.rows == [] {
      NoGroups(a.order);
    } else {
      forall r | r in a.rows ensures GoodRecord(s.origin, r) {
        var i :| 0 <= i < |a.rows| && a.rows[i] == r;
        RowIsGood(s, r);
      }
      GroupsGood(s, a.rows, proc.missed, a.order);
    }
    GotoInv(c, s, a.p, Apply(c, s, a).procs[a.p]);
  }

  lemma TablesOf(c: Config, s: State)
    requires Consistent(c, s)
    ensures TablesGood(s)
  {
  }

  lemma PutGroupInv(c: Config, s: State, a: Action)
    requires Consistent(c, s) && Enabled(s, a) && a.PutGroup?
    ensures Consistent(c, Apply(c, s, a))
  {
    hide Consistent, GoodRecord, GoodPostings, AfterPut;
    var proc := s.procs[a.p];
    var g := proc.groups[0];
    CachesOf(c, s);
    ProcOf(c, s, a.p);
    assert g in proc.groups;
    PutMembers(c.tfCap, s.tfCache, g.key, g.value);
    var s1 := s.(tfCache := AfterPut(c.tfCap, s.tfCache, g.key, g.value));
    TfCacheInv(c, s, s1.tfCache);
    assert Once(s1) == Once(s);
    GotoInv(c, s1, a.p, proc.(groups := proc.groups[1..]));
  }

  lemma FetchLookupInv(c: Config, s: State, a: Action)
    requires Consistent(c, s) && Enabled(s, a) && a.FetchLookup?
    ensures Consistent(c, Apply(c, s, a))
  {
    hide Consistent, AfterGet, Lookup, GoodText;
    var proc := s.procs[a.p];
    var d := proc.todo[0].docId;
    ProcOf(c, s, a.p);
    DocGetInv(c, s, d);
    var s1 := s.(docCache := AfterGet(s.docCache, d));
    assert Once(s1) == Once(s);
    GotoInv(c, s1, a.p, Apply(c, s, a).procs[a.p]);
  }

  lemma FetchSelectInv(c: Config, s: State, a: Action)
    requires Consistent(c, s) && Enabled(s, a) && a.FetchSelect?
    ensures Consistent(c, Apply(c, s, a))
  {
    hide Consistent, GoodText;
    var d := s.procs[a.p].todo[0].docId;
    ProcOf(c, s, a.p);
    if d in s.documents {
      StoredText(c, s, d);
    }
    GotoInv(c, s, a.p, Apply(c, s, a).procs[a.p]);
  }

  lemma FetchPutInv(c: Config, s: State, a: Action)
    requires Consistent(c, s) && Enabled(s, a) && a.FetchPut?
    ensures Consistent(c, Apply(c, s, a))
  {
    hide Consistent, GoodText, AfterPut;
    var proc := s.procs[a.p];
    ProcOf(c, s, a.p);
    DocPutInv(c, s, proc.todo[0].docId, proc.text);
    var s1 := s.(docCache := AfterPut(c.docCap, s.docCache, proc.todo[0].docId, proc.text));
    assert Once(s1) == Once(s);
    GotoInv(c, s1, a.p, Fetched(proc, proc.text));
  }

  lemma EndSearchInv(c: Config, s: State, a: Action)
    requires Consistent(c, s) && Enabled(s, a) && a.EndSearch?
    ensures Consistent(c, Apply(c, s, a))
  {
    hide Consistent, GoodText;
    var ts := ReplyTexts(s.procs[a.p].results);
    ProcOf(c, s, a.p);
    forall t | t in ts ensures t.1 == "" || GoodText(s.origin, t.0, t.1) {
      var i :| 0 <= i < |ts| && ts[i] == t;
      assert s.procs[a.p].results[i] in s.procs[a.p].results;
    }
    RepliesInv(c, s, ts);
    GotoInv(c, s.(replies := s.replies + ts), a.p, Idle);
  }

  // ---------- every run ----------

  lemma ActionInv(c: Config, s: State, a: Action)
    requires Consistent(c, s) && Enabled(s, a)
    ensures Consistent(c, Apply(c, s, a))
  {
    hide Consistent, Tokenize;
    match a
    case BeginCreate(_, _, _, _) => BeginCreateInv(c, s, a);
    case InsertTerm(_, _) => InsertTermInv(c, s, a);
    case EndInserts(_) => EndInsertsInv(c, s, a);
    case Commit(_) => CommitInv(c, s, a);
    case BeginRead(_, _) => BeginReadInv(c, s, a);
    case ReadSelect(_, _) => ReadSelectInv(c, s, a);
    case BeginDelete(_, _) => BeginDeleteInv(c, s, a);
    case ClearPostings(_) => ClearPostingsInv(c, s, a);
    case DeleteRow(_, _) => DeleteRowInv(c, s, a);
    case BeginSearch(p, query) =>
      if Tokenize(query) != [] {
        GotoInv(c, s, p, LookingUp(Tokenize(query), 0, [], []));
      }
    case LookupToken(_) => LookupTokenInv(c, s, a);
    case SelectRows(_, _, _) => SelectRowsInv(c, s, a);
    case PutGroup(_) => PutGroupInv(c, s, a);
    case RankDocuments(p, ranked, _, _) => GotoInv(c, s, p, Fetching(ranked, []));
    case FetchLookup(_) => FetchLookupInv(c, s, a);
    case FetchSelect(_, _) => FetchSelectInv(c, s, a);
    case FetchPut(_) => FetchPutInv(c, s, a);
    case EndSearch(_) => EndSearchInv(c, s, a);
  }

  lemma InitiallyConsistent(c: Config, s: State)
    requires Initially(s)
    ensures Consistent(c, s)
  {
    hide Tokenize, StoredFrequency;
  }

  lemma {:induction false} RunConsistent(c: Config, s: State, actions: seq<Action>, s': State)
    requires Consistent(c, s) && Executes(c, s, actions, s')
    ensures Consistent(c, s')
    decreases |actions|
  {
    hide Consistent, Enabled, Apply;
    if actions != [] {
      ActionInv(c, s, actions[0]);
      RunConsistent(c, Apply(c, s, actions[0]), actions[1..], s');
    }
  }

  /** In every reachable state, for any number of threads: the index matches the committed documents;
      every text cached or ever returned for an id is the text whose insert generated that id; and
      every cached posting carries the frequency of its word in that document's text. */
  lemma NothingMixedUp(c: Config, s0: State, actions: seq<Action>, s: State)
    requires Initially(s0) && Executes(c, s0, actions, s)
    ensures IndexMatches(s.documents, s.tf)
    ensures forall e :: e in s.docCache ==> e.key in s.origin && s.origin[e.key] == e.value
    ensures forall t :: t in s.replies && t.1 != "" ==> t.0 in s.origin && s.origin[t.0] == t.1
    ensures forall e, p :: e in s.tfCache && p in e.value ==>
              && p.docId in s.origin && e.key in Tokenize(s.origin[p.docId])
              && p.frequency == StoredFrequency(Tokenize(s.origin[p.docId]), e.key)
  {
    hide Tokenize, StoredFrequency, IndexMatches;
    InitiallyConsistent(c, s0);
    RunConsistent(c, s0, actions, s);
  }

  /** A cached id fails to be a row of the table exactly when it was deleted meanwhile, or its create has
      cached it but not yet committed. A rolled-back document is never cached and never stored. */
  lemma CachedIds(c: Config, s0: State, actions: seq<Action>, s: State)
    requires Initially(s0) && Executes(c, s0, actions, s)
    ensures forall e :: e in s.docCache ==> (e.key !in s.documents <==> e.key in s.deleted || IsUncommitted(s, e.key))
    ensures forall d :: d in s.rolledBack ==> d !in s.documents && !Resident(s.docCache, d)
  {
    hide Tokenize, GoodPostings, IndexMatches, GoodProc;
    InitiallyConsistent(c, s0);
    RunConsistent(c, s0, actions, s);
    forall d | IsUncommitted(s, d) ensures d !in s.documents {
      var p :| p in s.procs && s.procs[p].Uncommitted? && s.procs[p].id == d;
      assert Pending(s.procs[p]) == Some(d);
    }
    forall d | d in s.rolledBack ensures d !in s.documents && !Resident(s.docCache, d) {
      NotCached(c, s, d);
    }
  }

  lemma NotCached(c: Config, s: State, d: DocId)
    requires Consistent(c, s) && d in s.rolledBack
    ensures d !in s.documents && !Resident(s.docCache, d)
  {
    hide GoodPostings, IndexMatches, GoodProc, GoodText;
    LookupFound(s.docCache, d);
    assert d !in Once(s);
    if IsUncommitted(s, d) {
      var p :| p in s.procs && s.procs[p].Uncommitted? && s.procs[p].id == d;
      assert Pending(s.procs[p]) == Some(d);
    }
  }
}
