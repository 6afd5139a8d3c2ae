/** What a thread can do at each point of a request, and what that does: one lemma for each point. */
module Operations {
  import opened RecencyList
  import opened TermFrequency
  import opened SearchSpec
  import opened Engine
  import opened Interleaving

  lemma GotoTwice(s: State, p: ProcId, proc: Proc, proc': Proc)
    ensures Goto(Goto(s, p, proc), p, proc') == Goto(s, p, proc')
  {
    assert s.procs[p := proc][p := proc'] == s.procs[p := proc'];
  }

  /** Going back to where the thread was changes nothing. */
  lemma GotoSame(s: State, p: ProcId)
    requires p in s.procs
    ensures Goto(s, p, s.procs[p]) == s
  {
  }

  // ---------- create ----------

  lemma AtInsert(c: Config, m: State, p: ProcId, a: Action)
    requires p in m.procs && m.procs[p].Inserting? && m.procs[p].next < |m.procs[p].freqs| && a.p == p
    ensures Enabled(m, a) <==> a.InsertTerm?
    ensures Enabled(m, a) ==> Apply(c, m, a) == Goto(m, p, Inserted(m.procs[p], a.inserted))
  {
    hide Round6;
  }

  lemma AtEndInserts(c: Config, m: State, p: ProcId, a: Action)
    requires p in m.procs && m.procs[p].Inserting? && m.procs[p].next >= |m.procs[p].freqs| && a.p == p
    ensures Enabled(m, a) <==> a.EndInserts?
    ensures Enabled(m, a) ==>
              var proc := m.procs[p];
              Apply(c, m, a) == if proc.ok && proc.freqs != [] then
                                  var put := m.(docCache := AfterPut(c.docCap, m.docCache, proc.id, proc.text));
                                  Goto(put, p, Uncommitted(proc.id, proc.text, proc.rows))
                                else Goto(m.(rolledBack := m.rolledBack + {proc.id}), p, Idle)
  {
    hide AfterPut;
  }

  lemma AtCommit(c: Config, m: State, p: ProcId, a: Action)
    requires p in m.procs && m.procs[p].Uncommitted? && a.p == p
    ensures Enabled(m, a) <==> a.Commit?
    ensures Enabled(m, a) ==>
              var proc := m.procs[p];
              Apply(c, m, a)
                == Goto(m.(documents := m.documents[proc.id := proc.text], tf := m.tf + proc.rows), p, Idle)
  {
  }

  // ---------- read and delete ----------

  lemma AtReadMissed(c: Config, m: State, p: ProcId, a: Action)
    requires p in m.procs && m.procs[p].ReadMissed? && a.p == p
    ensures Enabled(m, a) <==> a.ReadSelect?
    ensures Enabled(m, a) ==>
              var id := m.procs[p].id;
              Apply(c, m, a) == Goto(m.(replies := m.replies + match Select(m.documents, id, a.failed)
                                                               case Some(text) => [(id, text)]
                                                               case None => []), p, Idle)
  {
    hide Select;
    assert m.replies + [] == m.replies;
  }

  lemma AtClearing(c: Config, m: State, p: ProcId, a: Action)
    requires p in m.procs && m.procs[p].Clearing? && a.p == p
    ensures Enabled(m, a) <==> a.ClearPostings?
    ensures Enabled(m, a) ==> Apply(c, m, a) == Goto(m.(tfCache := []), p, Deleting(m.procs[p].id))
  {
  }

  /** The tables without one document. */
  function RowDeleted(s: State, id: DocId): State {
    s.(documents := s.documents - {id}, tf := (map k | k in s.tf && k.0 != id :: s.tf[k]), deleted := s.deleted + {id})
  }

  lemma AtDeleting(c: Config, m: State, p: ProcId, a: Action)
    requires p in m.procs && m.procs[p].Deleting? && a.p == p
    ensures Enabled(m, a) <==> a.DeleteRow? && (a.done ==> m.procs[p].id in m.documents)
    ensures Enabled(m, a) ==> Apply(c, m, a) == Goto(if a.done then RowDeleted(m, m.procs[p].id) else m, p, Idle)
  {
  }

  // ---------- search ----------

  lemma AtToken(c: Config, m: State, p: ProcId, a: Action)
    requires p in m.procs && m.procs[p].LookingUp? && m.procs[p].next < |m.procs[p].tokens| && a.p == p
    ensures Enabled(m, a) <==> a.LookupToken?
    ensures Enabled(m, a) ==>
              var proc, w := m.procs[p], m.procs[p].tokens[m.procs[p].next];
              Apply(c, m, a)
                == Goto(m.(tfCache := AfterGet(m.tfCache, w)), p,
                        match Lookup(m.tfCache, w)
                        case Some(ps) => proc.(next := proc.next + 1, records := proc.records + RecordsOf(w, ps))
                        case None => proc.(next := proc.next + 1, missed := proc.missed + [w]))
  {
    hide AfterGet, Lookup, RecordsOf;
  }

  lemma AtRows(c: Config, m: State, p: ProcId, a: Action)
    requires p in m.procs && m.procs[p].LookingUp? && m.procs[p].next >= |m.procs[p].tokens| && a.p == p
    ensures Enabled(m, a) <==>
              a.SelectRows? && GroupOrder(a.rows, a.order) && (a.rows == [] || Selects(a.rows, m.tf, m.procs[p].missed))
    ensures Enabled(m, a) ==>
              var proc := m.procs[p];
              Apply(c, m, a) == Goto(m, p, Filling(proc.tokens, proc.records + a.rows, GroupList(a.rows, a.order)))
  {
    hide GroupOrder, Selects, GroupList;
  }

  lemma AtGroup(c: Config, m: State, p: ProcId, a: Action)
    requires p in m.procs && m.procs[p].Filling? && m.procs[p].groups != [] && a.p == p
    ensures Enabled(m, a) <==> a.PutGroup?
    ensures Enabled(m, a) ==>
              var proc, g := m.procs[p], m.procs[p].groups[0];
              Apply(c, m, a) == Goto(m.(tfCache := AfterPut(c.tfCap, m.tfCache, g.key, g.value)), p,
                                     proc.(groups := proc.groups[1..]))
  {
    hide AfterPut;
  }

  lemma AtRank(c: Config, m: State, p: ProcId, a: Action)
    requires p in m.procs && m.procs[p].Filling? && m.procs[p].groups == [] && m.procs[p].tokens != [] && a.p == p
    ensures Enabled(m, a) <==>
              a.RankDocuments? && TopK(a.ranked, Scores(m.procs[p].records, a.idf, |m.procs[p].tokens|), a.topK)
    ensures Enabled(m, a) ==> Apply(c, m, a) == Goto(m, p, Fetching(a.ranked, []))
  {
    hide TopK, Scores;
  }

  lemma AtFetch(c: Config, m: State, p: ProcId, a: Action)
    requires p in m.procs && m.procs[p].Fetching? && m.procs[p].todo != [] && a.p == p
    ensures Enabled(m, a) <==> a.FetchLookup?
    ensures Enabled(m, a) ==>
              var proc, d := m.procs[p], m.procs[p].todo[0].docId;
              Apply(c, m, a) == Goto(m.(docCache := AfterGet(m.docCache, d)), p,
                                     match Lookup(m.docCache, d)
                                     case Some(text) => Fetched(proc, text)
                                     case None => FetchMissed(proc.todo, proc.results))
  {
    hide Lookup, AfterGet;
  }

  lemma AtFetchMissed(c: Config, m: State, p: ProcId, a: Action)
    requires p in m.procs && m.procs[p].FetchMissed? && m.procs[p].todo != [] && a.p == p
    ensures Enabled(m, a) <==> a.FetchSelect?
    ensures Enabled(m, a) ==>
              var proc := m.procs[p];
              Apply(c, m, a) == Goto(m, p, match Select(m.documents, proc.todo[0].docId, a.failed)
                                           case Some(text) => FetchFound(proc.todo, proc.results, text)
                                           case None => Fetched(proc, ""))
  {
    hide Select;
  }

  lemma AtFetchFound(c: Config, m: State, p: ProcId, a: Action)
    requires p in m.procs && m.procs[p].FetchFound? && m.procs[p].todo != [] && a.p == p
    ensures Enabled(m, a) <==> a.FetchPut?
    ensures Enabled(m, a) ==>
              var proc, d := m.procs[p], m.procs[p].todo[0].docId;
              Apply(c, m, a)
                == Goto(m.(docCache := AfterPut(c.docCap, m.docCache, d, proc.text)), p, Fetched(proc, proc.text))
  {
    hide AfterPut;
  }

  lemma AtEnd(c: Config, m: State, p: ProcId, a: Action)
    requires p in m.procs && m.procs[p].Fetching? && m.procs[p].todo == [] && a.p == p
    ensures Enabled(m, a) <==> a.EndSearch?
    ensures Enabled(m, a) ==> Apply(c, m, a) == Goto(m.(replies := m.replies + ReplyTexts(m.procs[p].results)), p, Idle)
  {
    hide ReplyTexts;
  }
}
