/** Where cached posting lists come from although operations interleave: every one was the full posting
    list of its word in an earlier state, so none mentions a document that was rolled back. */
module InterleavingHistory {
  import opened RecencyList
  import opened Tokenizer
  import opened TermFrequency
  import opened SearchSpec
  import opened Scoring
  import opened Engine
  import opened EngineInvariants
  import opened Interleaving
  import opened InterleavingProofs

  // ---------- prefixes of an execution ----------

  lemma {:induction false} ExecutesLast(c: Config, s: State, actions: seq<Action>, s': State) returns (m: State)
    requires Executes(c, s, actions, s') && actions != []
    ensures var n := |actions| - 1;
            Executes(c, s, actions[..n], m) && Enabled(m, actions[n]) && s' == Apply(c, m, actions[n])
    decreases |actions|
  {
    hide Enabled, Apply;
    if |actions| == 1 {
      m := s;
      assert actions[..0] == [];
    } else {
      m := ExecutesLast(c, Apply(c, s, actions[0]), actions[1..], s');
      assert actions[..|actions| - 1][1..] == actions[1..][..|actions| - 2];
    }
  }

  /** What follows a prefix of an execution executes from the state the prefix ends in. */
  lemma {:induction false} ExecutesRest(c: Config, s: State, actions: seq<Action>, s': State, k: nat, m: State)
    requires Executes(c, s, actions, s') && k <= |actions| && Executes(c, s, actions[..k], m)
    ensures Executes(c, m, actions[k..], s')
    decreases |actions|
  {
    hide Enabled, Apply;
    if k == 0 {
      assert actions[0..] == actions;
    } else {
      assert actions[..k][1..] == actions[1..][..k - 1] && actions[1..][k - 1..] == actions[k..];
      ExecutesRest(c, Apply(c, s, actions[0]), actions[1..], s', k - 1, m);
    }
  }

  // ---------- posting lists of the past ----------

  /** In the state after the first k actions ps was the nonempty, full posting list of the word. */
  ghost predicate WasFull(c: Config, s0: State, actions: seq<Action>, k: nat, m: State, word: string, ps: seq<Posting>)
  {
    k <= |actions| && Executes(c, s0, actions[..k], m) && ps != [] && IsPostingList(ps, m.tf, word)
  }

  ghost predicate Historic(c: Config, s0: State, actions: seq<Action>, e: Entry<string, seq<Posting>>) {
    exists k: nat, m: State :: WasFull(c, s0, actions, k, m, e.key, e.value)
  }

  /** The list is cached, or grouped by a search that has not cached it yet. */
  ghost predicate Held(s: State, e: Entry<string, seq<Posting>>) {
    e in s.tfCache || exists p :: p in s.procs && s.procs[p].Filling? && e in s.procs[p].groups
  }

  lemma HistoricSnoc(c: Config, s0: State, actions: seq<Action>, a: Action, e: Entry<string, seq<Posting>>)
    requires Historic(c, s0, actions, e)
    ensures Historic(c, s0, actions + [a], e)
  {
    hide Executes, IsPostingList;
    var k: nat, m: State :| WasFull(c, s0, actions, k, m, e.key, e.value);
    assert (actions + [a])[..k] == actions[..k];
    assert WasFull(c, s0, actions + [a], k, m, e.key, e.value);
  }

  lemma LookedUp(c: Config, s: State, a: Action, e: Entry<string, seq<Posting>>)
    requires CachesGood(c, s) && Enabled(s, a) && a.LookupToken? && e in Apply(c, s, a).tfCache
    ensures e in s.tfCache
  {
    hide CachesGood, Lookup, AfterGet;
    FitsCache(c, s);
    GetMembers(c.tfCap, s.tfCache, s.procs[a.p].tokens[s.procs[a.p].next]);
  }

  lemma FitsCache(c: Config, s: State)
    requires CachesGood(c, s)
    ensures CacheFits(c.tfCap, s.tfCache)
  {
  }

  lemma GroupPut(c: Config, s: State, a: Action, e: Entry<string, seq<Posting>>)
    requires CachesGood(c, s) && Enabled(s, a) && a.PutGroup? && e in Apply(c, s, a).tfCache
    ensures Held(s, e)
  {
    hide CachesGood, AfterPut;
    FitsCache(c, s);
    var g := s.procs[a.p].groups[0];
    PutMembers(c.tfCap, s.tfCache, g.key, g.value);
    assert g in s.procs[a.p].groups;
  }

  lemma OthersLeavePostings(c: Config, s: State, a: Action)
    requires Enabled(s, a) && !a.LookupToken? && !a.PutGroup?
    ensures Apply(c, s, a).tfCache == s.tfCache || Apply(c, s, a).tfCache == []
  {
    hide Lookup, AfterGet, AfterPut, Without, Tokenize, GroupList, Round6, ReplyTexts, Select, Computed, Selects,
         GroupOrder, TopK, Scores, Fetched;
  }

  /** Only a search that caches a group adds an entry to the posting cache. */
  lemma CachedSources(c: Config, s: State, a: Action, e: Entry<string, seq<Posting>>)
    requires Consistent(c, s) && Enabled(s, a) && e in Apply(c, s, a).tfCache
    ensures Held(s, e)
  {
    hide Consistent, CachesGood, Enabled, Apply;
    CachesOf(c, s);
    if a.LookupToken? {
      LookedUp(c, s, a, e);
    } else if a.PutGroup? {
      GroupPut(c, s, a, e);
    } else {
      OthersLeavePostings(c, s, a);
    }
  }

  lemma FillingActions(c: Config, s: State, a: Action)
    requires Enabled(s, a) && a.p in Apply(c, s, a).procs && Apply(c, s, a).procs[a.p].Filling?
    ensures a.SelectRows? || a.PutGroup?
  {
    hide Lookup, AfterGet, AfterPut, Without, Tokenize, RecordsOf, GroupList, Round6, ReplyTexts, Select, Computed,
         Selects, GroupOrder, TopK, Scores;
  }

  /** The groups of the acting thread are those it had, or those of the rows it selects. */
  lemma OwnGroups(c: Config, s: State, a: Action, g: Entry<string, seq<Posting>>)
    requires Enabled(s, a) && a.p in Apply(c, s, a).procs
    requires Apply(c, s, a).procs[a.p].Filling? && g in Apply(c, s, a).procs[a.p].groups
    ensures (s.procs[a.p].Filling? && g in s.procs[a.p].groups)
            || (a.SelectRows? && s.procs[a.p].LookingUp? && g in GroupList(a.rows, a.order))
  {
    hide AfterPut, GroupList, GroupOrder, Selects;
    assert a.SelectRows? || a.PutGroup? by {
      FillingActions(c, s, a);
    }
    if a.PutGroup? {
      GroupsLeft(s.procs[a.p].groups, g);
    }
  }

  lemma GroupsLeft(groups: seq<Entry<string, seq<Posting>>>, g: Entry<string, seq<Posting>>)
    ensures groups != [] && g in groups[1..] ==> g in groups
  {
  }

  /** A group is a full posting list when its rows are selected, and is only ever dropped afterwards. */
  lemma GroupSources(c: Config, s: State, a: Action, p: ProcId, g: Entry<string, seq<Posting>>)
    requires Enabled(s, a) && p in Apply(c, s, a).procs
    requires Apply(c, s, a).procs[p].Filling? && g in Apply(c, s, a).procs[p].groups
    ensures Held(s, g) || (g.value != [] && IsPostingList(g.value, s.tf, g.key))
  {
    hide Apply, Enabled, IsPostingList;
    OthersStay(c, s, a);
    if p == a.p {
      OwnGroups(c, s, a, g);
      if !(s.procs[p].Filling? && g in s.procs[p].groups) {
        RowsSelected(s, a);
        SelectedGroups(s, a.rows, a.order, s.procs[p].missed, g);
      }
    }
  }

  lemma RowsSelected(s: State, a: Action)
    requires Enabled(s, a) && a.SelectRows? && a.p in s.procs && s.procs[a.p].LookingUp?
    ensures GroupOrder(a.rows, a.order) && (a.rows == [] || Selects(a.rows, s.tf, s.procs[a.p].missed))
  {
  }

  lemma SelectedGroups(s: State, rows: seq<TermFrequency>, order: seq<string>, words: seq<string>,
                       g: Entry<string, seq<Posting>>)
    requires GroupOrder(rows, order) && (rows == [] || Selects(rows, s.tf, words)) && g in GroupList(rows, order)
    ensures g.value != [] && IsPostingList(g.value, s.tf, g.key)
  {
    hide GroupOf, IsPostingList;
    var i :| 0 <= i < |order| && GroupList(rows, order)[i] == g;
    assert order[i] in order;
    var k :| 0 <= k < |rows| && rows[k].word == g.key;
    SelectedGroup(rows, s.tf, words, g.key);
    GroupMembers(rows, g.key);
    assert rows[k] in rows;
    assert Posting(rows[k].docId, rows[k].wordFrequency) in g.value;
  }

  lemma HeldSources(c: Config, s: State, a: Action, e: Entry<string, seq<Posting>>)
    requires Consistent(c, s) && Enabled(s, a) && Held(Apply(c, s, a), e)
    ensures Held(s, e) || (e.value != [] && IsPostingList(e.value, s.tf, e.key))
  {
    hide Consistent, Enabled, Apply, IsPostingList;
    if e in Apply(c, s, a).tfCache {
      CachedSources(c, s, a, e);
    } else {
      var p :| p in Apply(c, s, a).procs && Apply(c, s, a).procs[p].Filling? && e in Apply(c, s, a).procs[p].groups;
      GroupSources(c, s, a, p, e);
    }
  }

  lemma {:induction false} HeldIsHistoric(c: Config, s0: State, actions: seq<Action>, s: State,
                                          e: Entry<string, seq<Posting>>)
    requires Initially(s0) && Executes(c, s0, actions, s) && Held(s, e)
    ensures Historic(c, s0, actions, e)
    decreases |actions|
  {
    hide Executes, Enabled, Apply, Consistent, IsPostingList, Historic;
    if actions == [] {
      NothingHeld(c, s0, s, e);
    } else {
      var n := |actions| - 1;
      var m := ExecutesLast(c, s0, actions, s);
      InitiallyConsistent(c, s0);
      RunConsistent(c, s0, actions[..n], m);
      HeldSources(c, m, actions[n], e);
      assert actions[..n] + [actions[n]] == actions;
      if Held(m, e) {
        HeldIsHistoric(c, s0, actions[..n], m, e);
        HistoricSnoc(c, s0, actions[..n], actions[n], e);
      } else {
        NowHistoric(c, s0, actions, n, m, e);
      }
    }
  }

  lemma NothingHeld(c: Config, s0: State, s: State, e: Entry<string, seq<Posting>>)
    requires Initially(s0) && Executes(c, s0, [], s)
    ensures !Held(s, e)
  {
  }

  lemma NowHistoric(c: Config, s0: State, actions: seq<Action>, k: nat, m: State, e: Entry<string, seq<Posting>>)
    requires k <= |actions| && Executes(c, s0, actions[..k], m) && e.value != [] && IsPostingList(e.value, m.tf, e.key)
    ensures Historic(c, s0, actions, e)
  {
    assert WasFull(c, s0, actions, k, m, e.key, e.value);
  }

  /** Operation by operation, for any number of threads: every cached posting list is nonempty and was
      the word's full posting list in some earlier state of the execution. */
  lemma CachedPostingsAreHistoric(c: Config, s0: State, actions: seq<Action>, s: State)
    requires Initially(s0) && Executes(c, s0, actions, s)
    ensures forall e :: e in s.tfCache ==>
              exists k: nat, m: State :: && k <= |actions| && Executes(c, s0, actions[..k], m)
                             && e.value != [] && IsPostingList(e.value, m.tf, e.key)
  {
    hide Executes, IsPostingList;
    forall e | e in s.tfCache
      ensures exists k: nat, m: State :: && k <= |actions| && Executes(c, s0, actions[..k], m)
                             && e.value != [] && IsPostingList(e.value, m.tf, e.key)
    {
      HeldIsHistoric(c, s0, actions, s, e);
      var k: nat, m: State :| WasFull(c, s0, actions, k, m, e.key, e.value);
    }
  }

  // ---------- rolled-back documents ----------

  /** A committed id stays committed or deleted. */
  lemma {:induction false} OnceForever(c: Config, s: State, actions: seq<Action>, s': State)
    requires Executes(c, s, actions, s')
    ensures Once(s) <= Once(s')
    decreases |actions|
  {
    hide Enabled, Apply, Once;
    if actions != [] {
      OnceStep(c, s, actions[0]);
      OnceForever(c, Apply(c, s, actions[0]), actions[1..], s');
    }
  }

  lemma OnceStep(c: Config, s: State, a: Action)
    requires Enabled(s, a)
    ensures Once(s) <= Once(Apply(c, s, a))
  {
    hide Lookup, AfterGet, AfterPut, Without, Tokenize;
  }

  lemma ListedIsStored(c: Config, m: State, word: string, ps: seq<Posting>, p: Posting)
    requires Consistent(c, m) && IsPostingList(ps, m.tf, word) && p in ps
    ensures p.docId in Once(m)
  {
    hide Tokenize, StoredFrequency, GoodPostings, GoodProc;
    assert (p.docId, word) in m.tf;
  }

  /** No cached posting list mentions a document whose create was rolled back, and every document one
      mentions was committed. */
  lemma PostedWasCommitted(c: Config, s0: State, actions: seq<Action>, s: State)
    requires Initially(s0) && Executes(c, s0, actions, s)
    ensures forall e, p :: e in s.tfCache && p in e.value ==>
              && (p.docId in s.documents || p.docId in s.deleted)
              && p.docId !in s.rolledBack
  {
    hide Executes, IsPostingList, Consistent;
    InitiallyConsistent(c, s0);
    RunConsistent(c, s0, actions, s);
    CachedPostingsAreHistoric(c, s0, actions, s);
    forall e, p | e in s.tfCache && p in e.value
      ensures p.docId in Once(s) && p.docId !in s.rolledBack
    {
      var k: nat, m: State :| k <= |actions| && Executes(c, s0, actions[..k], m) && e.value != []
          && IsPostingList(e.value, m.tf, e.key);
      RunConsistent(c, s0, actions[..k], m);
      ListedIsStored(c, m, e.key, e.value, p);
      ExecutesRest(c, s0, actions, s, k, m);
      OnceForever(c, m, actions[k..], s);
      NotRolledBack(c, s, p.docId);
    }
  }

  lemma NotRolledBack(c: Config, s: State, d: DocId)
    requires Consistent(c, s) && d in Once(s)
    ensures d !in s.rolledBack
  {
    hide GoodPostings, GoodProc, IndexMatches;
  }
}
