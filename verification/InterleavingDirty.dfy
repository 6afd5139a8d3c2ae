/** When a document can be read before its create commits: exactly while its inserts can still succeed. */
module InterleavingDirty {
  import opened Wrappers
  import opened RecencyList
  import opened Tokenizer
  import opened TermFrequency
  import opened Engine
  import opened Interleaving
  import opened InterleavingProofs
  import opened InterleavingRuns
  import opened Operations

  /** After the actions the create of d has not committed, and a read by q that starts then replies with text. */
  ghost predicate DirtyRead(c: Config, s: State, actions: seq<Action>, s': State, q: ProcId, d: DocId, text: string) {
    && Executes(c, s, actions, s') && IsUncommitted(s', d)
    && Enabled(s', BeginRead(q, d))
    && Apply(c, s', BeginRead(q, d)).replies == s'.replies + [(d, text)]
  }

  /** The create can still succeed: no insert has failed, and there is a term. */
  predicate CanCommit(proc: Proc) {
    proc.Inserting? && proc.ok && proc.freqs != []
  }

  // ---------- while it can, a read finds the document ----------

  lemma {:induction false} InsertRest(c: Config, s: State, p: ProcId) returns (actions: seq<Action>, s': State)
    requires p in s.procs && CanCommit(s.procs[p]) && s.procs[p].next <= |s.procs[p].freqs|
    ensures Executes(c, s, actions, s')
    ensures p in s'.procs && s'.procs[p].Uncommitted? && s'.procs[p].id == s.procs[p].id
    ensures Lookup(s'.docCache, s.procs[p].id) == Some(s.procs[p].text)
    ensures forall q :: q in s.procs && q != p ==> q in s'.procs && s'.procs[q] == s.procs[q]
    decreases |s.procs[p].freqs| - s.procs[p].next
  {
    hide Lookup, AfterPut, Round6, Executes, Enabled, Apply;
    var proc := s.procs[p];
    if proc.next < |proc.freqs| {
      var a := InsertTerm(p, true);
      AtInsert(c, s, p, a);
      actions, s' := InsertRest(c, Apply(c, s, a), p);
      ExecutesCons(c, s, a, actions, s');
      actions := [a] + actions;
    } else {
      AtEndInserts(c, s, p, EndInserts(p));
      PutFound(c.docCap, s.docCache, proc.id, proc.text);
      ExecutesOne(c, s, EndInserts(p));
      actions, s' := [EndInserts(p)], Apply(c, s, EndInserts(p));
    }
  }

  // ---------- once it cannot, no read does ----------

  /** The create of d has rolled back, or thread p is bound to roll it back. */
  ghost predicate Doomed(s: State, p: ProcId, d: DocId) {
    d in s.rolledBack || (p in s.procs && s.procs[p].Inserting? && s.procs[p].id == d && !CanCommit(s.procs[p]))
  }

  lemma DoomedStays(c: Config, s: State, a: Action, p: ProcId, d: DocId)
    requires Enabled(s, a) && Doomed(s, p, d)
    ensures Doomed(Apply(c, s, a), p, d)
  {
    hide Enabled, Apply, Round6, AfterPut;
    OthersStay(c, s, a);
    if d !in s.rolledBack && a.p == p {
      if s.procs[p].next < |s.procs[p].freqs| {
        AtInsert(c, s, p, a);
      } else {
        AtEndInserts(c, s, p, a);
      }
    }
  }

  lemma {:induction false} DoomedForever(c: Config, s: State, actions: seq<Action>, s': State, p: ProcId, d: DocId)
    requires Executes(c, s, actions, s') && Doomed(s, p, d)
    ensures Doomed(s', p, d)
    decreases |actions|
  {
    hide Enabled, Apply, Doomed;
    if actions != [] {
      DoomedStays(c, s, actions[0], p, d);
      DoomedForever(c, Apply(c, s, actions[0]), actions[1..], s', p, d);
    }
  }

  lemma DoomedNotUncommitted(s: State, p: ProcId, d: DocId)
    requires PendingGood(s) && Doomed(s, p, d)
    ensures !IsUncommitted(s, d)
  {
    forall q | q in s.procs && s.procs[q].Uncommitted? ensures s.procs[q].id != d {
      assert Pending(s.procs[q]) == Some(s.procs[q].id);
      assert d !in s.rolledBack ==> Pending(s.procs[p]) == Some(d);
    }
  }

  lemma PendingOf(c: Config, s: State)
    requires Consistent(c, s)
    ensures PendingGood(s)
  {
  }

  /** The terms of a create, and how far it is. */
  lemma TermsOf(c: Config, s: State, p: ProcId)
    requires Consistent(c, s) && p in s.procs && s.procs[p].Inserting?
    ensures s.procs[p].next <= |s.procs[p].freqs|
    ensures s.procs[p].freqs == [] <==> Tokenize(s.procs[p].text) == []
  {
    hide Consistent, Tokenize;
    ProcOf(c, s, p);
    var proc := s.procs[p];
    if Tokenize(proc.text) != [] {
      assert Tokenize(proc.text)[0] in Tokenize(proc.text);
    }
    if proc.freqs != [] {
      assert proc.freqs[0].word in Tokenize(proc.text);
    }
  }

  /** The exact condition, in every execution: while thread p is inserting the terms of a document, an idle
      thread can come to read it before its commit if and only if no insert has failed so far and the text
      has a token. */
  lemma ReadBeforeCommitIff(c: Config, s0: State, before: seq<Action>, s: State, p: ProcId, q: ProcId)
    requires Initially(s0) && Executes(c, s0, before, s)
    requires p in s.procs && s.procs[p].Inserting? && q in s.procs && s.procs[q].Idle?
    ensures var proc := s.procs[p];
            (exists actions, s' :: DirtyRead(c, s, actions, s', q, proc.id, proc.text))
            <==> proc.ok && Tokenize(proc.text) != []
  {
    hide Consistent, Initially, Tokenize, Lookup, Executes, Enabled, Apply, Doomed;
    var proc := s.procs[p];
    InitiallyConsistent(c, s0);
    RunConsistent(c, s0, before, s);
    TermsOf(c, s, p);
    if CanCommit(proc) {
      var actions, s' := InsertRest(c, s, p);
      ReadHit(c, s', q, proc.id, proc.text);
      assert DirtyRead(c, s, actions, s', q, proc.id, proc.text);
    } else if actions, s' :| DirtyRead(c, s, actions, s', q, proc.id, proc.text) {
      DoomedNow(s, p);
      DoomedForever(c, s, actions, s', p, proc.id);
      RunConsistent(c, s, actions, s');
      PendingOf(c, s');
      DoomedNotUncommitted(s', p, proc.id);
    }
  }

  lemma DoomedNow(s: State, p: ProcId)
    requires p in s.procs && s.procs[p].Inserting? && !CanCommit(s.procs[p])
    ensures Doomed(s, p, s.procs[p].id)
  {
  }
}
