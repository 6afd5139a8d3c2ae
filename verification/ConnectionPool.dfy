/** The connection pool: a queue of connections guarded by a mutex and a condition variable.
    The protocol is a state machine whose steps are the mutex's critical sections, in any
    interleaving; the class below runs one section per method. */
module ConnectionPool {
  import opened Wrappers
  import opened Sums

  /** The n-th connection opened. */
  datatype Conn = Conn(n: nat)
  datatype Thread = Thread(id: nat)

  /** Asleep: blocked in pthread_cond_wait. Woken: signalled, waiting for the mutex to test again. */
  datatype Status = Outside | Asleep | Woken | Holding(conn: Conn)

  /** handed and returned list every connection given out and given back, in order. */
  datatype State = State(pool: seq<Conn>, threads: map<Thread, Status>, handed: seq<Conn>, returned: seq<Conn>)

  /** signalled: the threads a release wakes. POSIX lets pthread_cond_signal wake more than one
      waiter, and a waiter may wake without any signal. */
  datatype Step =
    | Acquire(t: Thread)
    | Resume(t: Thread)
    | Spurious(t: Thread)
    | Release(t: Thread, signalled: set<Thread>)

  function InStatus(s: State, st: Status): set<Thread> {
    set t | t in s.threads && s.threads[t] == st
  }

  function Holders(s: State): set<Thread> {
    set t | t in s.threads && s.threads[t].Holding?
  }

  /** A thread inside acquire that has no connection yet. */
  function Waiters(s: State): set<Thread> {
    InStatus(s, Asleep) + InStatus(s, Woken)
  }

  predicate Enabled(s: State, step: Step) {
    && step.t in s.threads
    && match step
       case Acquire(t) => s.threads[t] == Outside
       case Resume(t) => s.threads[t] == Woken
       case Spurious(t) => s.threads[t] == Asleep
       case Release(t, woken) =>
         && s.threads[t].Holding?
         && woken <= InStatus(s, Asleep)
         && (InStatus(s, Asleep) != {} ==> woken != {})
  }

  /** The test of the wait loop: sleep on an empty queue, take the front otherwise. */
  function Test(s: State, t: Thread): State {
    if s.pool == [] then s.(threads := s.threads[t := Asleep])
    else State(s.pool[1..], s.threads[t := Holding(s.pool[0])], s.handed + [s.pool[0]], s.returned)
  }

  function Apply(s: State, step: Step): State
    requires Enabled(s, step)
  {
    match step
    case Acquire(t) => Test(s, t)
    case Resume(t) => Test(s, t)
    case Spurious(t) => s.(threads := s.threads[t := Woken])
    case Release(t, woken) =>
      var c := s.threads[t].conn;
      State(s.pool + [c],
            map u | u in s.threads :: if u == t then Outside else if u in woken then Woken else s.threads[u],
            s.handed, s.returned + [c])
  }

  ghost predicate Executes(s: State, steps: seq<Step>, s': State)
    decreases |steps|
  {
    if steps == [] then s' == s
    else Enabled(s, steps[0]) && Executes(Apply(s, steps[0]), steps[1..], s')
  }

  function FirstConns(n: nat): (cs: seq<Conn>)
    ensures |cs| == n && forall i :: 0 <= i < n ==> cs[i] == Conn(i)
  {
    seq(n, i requires 0 <= i < n => Conn(i))
  }

  lemma FirstSnoc(n: nat)
    ensures FirstConns(n) + [Conn(n)] == FirstConns(n + 1)
  {
  }

  ghost predicate Init(s: State, size: nat) {
    && s.pool == FirstConns(size) && s.handed == [] && s.returned == []
    && forall t :: t in s.threads ==> s.threads[t] == Outside
  }

  // ---------- the invariant ----------

  /** Connections leave in the order they came: handed out, then queued, is initial, then returned. */
  ghost predicate Fifo(size: nat, s: State) {
    s.handed + s.pool == FirstConns(size) + s.returned
  }

  /** Every initial connection is queued once or held by one thread, never both. */
  ghost predicate Conserved(size: nat, s: State) {
    && (forall i, j :: 0 <= i < j < |s.pool| ==> s.pool[i] != s.pool[j])
    && (forall c :: c in s.pool ==> c.n < size)
    && (forall t :: t in Holders(s) ==> s.threads[t].conn.n < size && s.threads[t].conn !in s.pool)
    && (forall t, u :: t in Holders(s) && u in Holders(s) && t != u ==> s.threads[t].conn != s.threads[u].conn)
    && |s.pool| + |Holders(s)| == size
  }

  /** If anyone sleeps, every idle connection has a woken thread on its way to take it. */
  ghost predicate NoLostWakeup(s: State) {
    InStatus(s, Asleep) != {} ==> |s.pool| <= |InStatus(s, Woken)|
  }

  ghost predicate Inv(size: nat, s: State) {
    Fifo(size, s) && Conserved(size, s) && NoLostWakeup(s)
  }

  lemma InitInv(s: State, size: nat)
    requires Init(s, size)
    ensures Inv(size, s)
  {
    assert Holders(s) == {};
    assert InStatus(s, Asleep) == {};
    assert s.handed + s.pool == s.pool;
    assert FirstConns(size) + s.returned == FirstConns(size);
  }

  /** Which threads change status in the two step forms that take or give a connection. */
  lemma TestSets(s: State, t: Thread)
    requires t in s.threads && (s.threads[t] == Outside || s.threads[t] == Woken)
    ensures var s' := Test(s, t);
            if s.pool == [] then
              && Holders(s') == Holders(s)
              && InStatus(s', Woken) == InStatus(s, Woken) - {t}
              && InStatus(s', Asleep) == InStatus(s, Asleep) + {t}
            else
              && Holders(s') == Holders(s) + {t} && t !in Holders(s)
              && InStatus(s', Woken) == InStatus(s, Woken) - {t}
              && InStatus(s', Asleep) == InStatus(s, Asleep)
  {
  }

  lemma ReleaseSets(s: State, step: Step)
    requires Enabled(s, step) && step.Release?
    ensures var s' := Apply(s, step);
            && Holders(s') == Holders(s) - {step.t} && step.t in Holders(s)
            && InStatus(s', Woken) == InStatus(s, Woken) + step.signalled
            && InStatus(s', Asleep) == InStatus(s, Asleep) - step.signalled
  {
  }

  lemma TestConserved(size: nat, s: State, t: Thread)
    requires Conserved(size, s) && t in s.threads && (s.threads[t] == Outside || s.threads[t] == Woken)
    ensures Conserved(size, Test(s, t))
  {
    TestSets(s, t);
    var s' := Test(s, t);
    if s.pool != [] {
      assert s.pool[0] in s.pool;
      forall u | u in Holders(s) ensures s'.threads[u] == s.threads[u] && s.threads[u].conn !in s'.pool {
      }
    }
  }

  lemma TestFifo(size: nat, s: State, t: Thread)
    requires Fifo(size, s) && t in s.threads
    ensures Fifo(size, Test(s, t))
  {
    if s.pool != [] {
      assert s.pool == [s.pool[0]] + s.pool[1..];
      assert Test(s, t).handed + Test(s, t).pool == s.handed + s.pool;
    }
  }

  lemma TestWakeup(s: State, t: Thread)
    requires NoLostWakeup(s) && t in s.threads && (s.threads[t] == Outside || s.threads[t] == Woken)
    ensures NoLostWakeup(Test(s, t))
  {
    TestSets(s, t);
  }

  lemma TestInv(size: nat, s: State, t: Thread)
    requires Inv(size, s) && t in s.threads && (s.threads[t] == Outside || s.threads[t] == Woken)
    ensures Inv(size, Test(s, t))
  {
    TestFifo(size, s, t);
    TestConserved(size, s, t);
    TestWakeup(s, t);
  }

  lemma ReleaseConserved(size: nat, s: State, step: Step)
    requires Conserved(size, s) && Enabled(s, step) && step.Release?
    ensures Conserved(size, Apply(s, step))
  {
    ReleaseSets(s, step);
    var s', c := Apply(s, step), s.threads[step.t].conn;
    assert step.t in Holders(s) && c !in s.pool;
    forall u | u in Holders(s') ensures u in Holders(s) && u != step.t && s'.threads[u] == s.threads[u] {
    }
  }

  lemma ReleaseFifo(size: nat, s: State, step: Step)
    requires Fifo(size, s) && Enabled(s, step) && step.Release?
    ensures Fifo(size, Apply(s, step))
  {
    var s', c := Apply(s, step), s.threads[step.t].conn;
    assert s'.handed + s'.pool == (s.handed + s.pool) + [c];
    assert FirstConns(size) + s'.returned == (FirstConns(size) + s.returned) + [c];
  }

  lemma ReleaseWakeup(s: State, step: Step)
    requires NoLostWakeup(s) && Enabled(s, step) && step.Release?
    ensures NoLostWakeup(Apply(s, step))
  {
    ReleaseSets(s, step);
    if InStatus(Apply(s, step), Asleep) != {} {
      var w :| w in step.signalled;
      SubsetCardinality(InStatus(s, Woken) + {w}, InStatus(Apply(s, step), Woken));
    }
  }

  lemma ReleaseInv(size: nat, s: State, step: Step)
    requires Inv(size, s) && Enabled(s, step) && step.Release?
    ensures Inv(size, Apply(s, step))
  {
    ReleaseFifo(size, s, step);
    ReleaseConserved(size, s, step);
    ReleaseWakeup(s, step);
  }

  lemma StepInv(size: nat, s: State, step: Step)
    requires Inv(size, s) && Enabled(s, step)
    ensures Inv(size, Apply(s, step))
  {
    match step
    case Acquire(t) => TestInv(size, s, t);
    case Resume(t) => TestInv(size, s, t);
    case Spurious(t) =>
      var s' := Apply(s, step);
      assert Holders(s') == Holders(s);
      assert InStatus(s', Woken) == InStatus(s, Woken) + {t};
    case Release(_, _) => ReleaseInv(size, s, step);
  }

  /** The invariant holds after every interleaving of any number of calls. */
  lemma {:induction false} RunInv(size: nat, s: State, steps: seq<Step>, s': State)
    requires Inv(size, s) && Executes(s, steps, s')
    ensures Inv(size, s')
    decreases |steps|
  {
    if steps != [] {
      StepInv(size, s, steps[0]);
      RunInv(size, Apply(s, steps[0]), steps[1..], s');
    }
  }

  /** FIFO conservation and exclusive use, in every reachable state. */
  lemma ReachableConserves(size: nat, s0: State, steps: seq<Step>, s: State)
    requires Init(s0, size) && Executes(s0, steps, s)
    ensures s.handed + s.pool == FirstConns(size) + s.returned
    ensures forall t, u :: t in Holders(s) && u in Holders(s) && s.threads[t] == s.threads[u] ==> t == u
    ensures forall c :: c in s.pool || (exists t :: t in Holders(s) && s.threads[t].conn == c) <==> c.n < size
  {
    InitInv(s0, size);
    RunInv(size, s0, steps, s);
    EveryConnectionPlaced(size, s);
  }

  function HeldConns(s: State): set<Conn> {
    set t | t in Holders(s) :: s.threads[t].conn
  }

  lemma {:induction false} InjectiveImage(s: State, ts: set<Thread>)
    requires ts <= Holders(s)
    requires forall t, u :: t in ts && u in ts && t != u ==> s.threads[t].conn != s.threads[u].conn
    ensures |set t | t in ts :: s.threads[t].conn| == |ts|
    decreases |ts|
  {
    if ts != {} {
      var t :| t in ts;
      InjectiveImage(s, ts - {t});
      assert (set u | u in ts :: s.threads[u].conn)
          == (set u | u in ts - {t} :: s.threads[u].conn) + {s.threads[t].conn};
    }
  }

  lemma IdleAndHeldAreAll(size: nat, s: State)
    requires Conserved(size, s)
    ensures (set c | c in s.pool) + HeldConns(s) == set c | c in FirstConns(size)
  {
    var idle, held, all := (set c | c in s.pool), HeldConns(s), (set c | c in FirstConns(size));
    DistinctCardinality(s.pool);
    DistinctCardinality(FirstConns(size));
    InjectiveImage(s, Holders(s));
    assert idle !! held;
    forall c | c in idle + held ensures c in all {
      assert FirstConns(size)[c.n] == c;
    }
    SubsetCardinality(idle + held, all);
  }

  lemma EveryConnectionPlaced(size: nat, s: State)
    requires Conserved(size, s)
    ensures forall c :: c in s.pool || (exists t :: t in Holders(s) && s.threads[t].conn == c) <==> c.n < size
  {
    IdleAndHeldAreAll(size, s);
    forall c: Conn ensures c in s.pool || (exists t :: t in Holders(s) && s.threads[t].conn == c) <==> c.n < size {
      assert c.n < size ==> FirstConns(size)[c.n] == c;
      assert c in (set d | d in s.pool) + HeldConns(s) <==> c in set d | d in FirstConns(size);
    }
  }

  // ---------- progress ----------

  /** The calls themselves are never refused: any thread outside can call acquire, which gives it the front
      connection or puts it to sleep on an empty queue, and any holder can release, which wakes a sleeper if
      there is one. */
  lemma CallsAdmitted(s: State, t: Thread)
    requires t in s.threads
    ensures s.threads[t] == Outside ==>
              && Enabled(s, Acquire(t))
              && var s' := Apply(s, Acquire(t));
                 && (s.pool == [] ==> s'.pool == [] && s'.threads == s.threads[t := Asleep])
                 && (s.pool != [] ==> [s.pool[0]] + s'.pool == s.pool
                                      && s'.threads == s.threads[t := Holding(s.pool[0])])
    ensures s.threads[t].Holding? ==>
              && (InStatus(s, Asleep) == {} ==>
                    && Enabled(s, Release(t, {}))
                    && var s' := Apply(s, Release(t, {}));
                       s'.pool == s.pool + [s.threads[t].conn] && s'.threads == s.threads[t := Outside])
              && forall u :: u in InStatus(s, Asleep) ==>
                    && Enabled(s, Release(t, {u}))
                    && var s' := Apply(s, Release(t, {u}));
                       s'.pool == s.pool + [s.threads[t].conn] && s'.threads == s.threads[t := Outside][u := Woken]
  {
    if s.threads[t] == Outside && s.pool != [] {
      assert [s.pool[0]] + s.pool[1..] == s.pool;
    }
  }

  /** No lost wakeup, in every reachable state. */
  lemma ReachableNoLostWakeup(size: nat, s0: State, steps: seq<Step>, s: State)
    requires Init(s0, size) && Executes(s0, steps, s)
    requires InStatus(s, Asleep) != {}
    ensures |s.pool| <= |InStatus(s, Woken)|
  {
    InitInv(s0, size);
    RunInv(size, s0, steps, s);
  }

  /** Whenever threads wait, either a woken thread takes an idle connection at once, or some thread
      holds one, and whichever holder releases and whichever sleepers the signal picks, a woken
      thread can then take a connection. */
  lemma SomeWaiterServed(size: nat, s: State)
    requires size >= 1 && Inv(size, s) && Waiters(s) != {}
    ensures s.pool != [] ==>
              exists t :: Enabled(s, Resume(t)) && Apply(s, Resume(t)).threads[t] == Holding(s.pool[0])
    ensures s.pool == [] ==> Holders(s) != {}
    ensures forall h, woken :: Enabled(s, Release(h, woken)) ==>
              var s' := Apply(s, Release(h, woken));
              exists t :: Enabled(s', Resume(t)) && Apply(s', Resume(t)).threads[t] == Holding(s'.pool[0])
  {
    if s.pool != [] {
      assert InStatus(s, Woken) != {};
      var t :| t in InStatus(s, Woken);
      assert Enabled(s, Resume(t));
    }
    forall h, woken | Enabled(s, Release(h, woken))
      ensures var s' := Apply(s, Release(h, woken));
              exists t :: Enabled(s', Resume(t)) && Apply(s', Resume(t)).threads[t] == Holding(s'.pool[0])
    {
      var s' := Apply(s, Release(h, woken));
      var t :| t in (if InStatus(s, Woken) != {} then InStatus(s, Woken) else woken);
      assert Enabled(s', Resume(t));
    }
  }

  // ---------- draining: once callers stop arriving, every waiter is served ----------

  predicate Drains(step: Step) {
    step.Resume? || step.Release?
  }

  /** Waiters weigh most, then holders, then woken threads. */
  function Weight(n: nat, waiters: nat, holders: nat, woken: nat): nat {
    (n + 2) * waiters + (n + 1) * holders + woken
  }

  /** An upper bound on the number of steps left. */
  function Remaining(s: State): nat {
    Weight(|s.threads|, |Waiters(s)|, |Holders(s)|, |InStatus(s, Woken)|)
  }

  lemma WeightDrops(n: nat, w: nat, h: nat, k: nat, k': nat)
    ensures Weight(n, w, h + 1, k') < Weight(n, w + 1, h, k' + 1)
    ensures k' <= n ==> Weight(n, w, h, k') < Weight(n, w, h + 1, k)
    ensures Weight(n, w, h, k') < Weight(n, w, h, k' + 1)
  {
    assert (n + 2) * (w + 1) == (n + 2) * w + n + 2;
    assert (n + 1) * (h + 1) == (n + 1) * h + n + 1;
  }

  /** How the counts change when a woken thread tests the queue. */
  lemma ResumeCounts(s: State, t: Thread)
    requires Enabled(s, Resume(t))
    ensures var s' := Test(s, t);
            && |s'.threads| == |s.threads|
            && |InStatus(s', Woken)| == |InStatus(s, Woken)| - 1
            && (if s.pool == [] then |Waiters(s')| == |Waiters(s)| && |Holders(s')| == |Holders(s)|
                else |Waiters(s')| == |Waiters(s)| - 1 && |Holders(s')| == |Holders(s)| + 1)
  {
    var s' := Test(s, t);
    TestSets(s, t);
    assert t in InStatus(s, Woken) && t in Waiters(s);
    assert s'.threads.Keys == s.threads.Keys;
    if s.pool == [] {
      assert Waiters(s') == Waiters(s);
    } else {
      assert Waiters(s') == Waiters(s) - {t};
    }
  }

  lemma ResumeDecreases(s: State, t: Thread)
    requires Enabled(s, Resume(t))
    ensures Remaining(Test(s, t)) < Remaining(s)
  {
    hide Weight, Test, Waiters, Holders, InStatus;
    var s' := Test(s, t);
    ResumeCounts(s, t);
    WeightDrops(|s.threads|, |Waiters(s')|, |Holders(s)|, 0, |InStatus(s', Woken)|);
  }

  /** How the counts change when a connection comes back. */
  lemma ReleaseCounts(s: State, step: Step)
    requires Enabled(s, step) && step.Release?
    ensures var s' := Apply(s, step);
            && |s'.threads| == |s.threads| && |Waiters(s')| == |Waiters(s)| && |Holders(s)| == |Holders(s')| + 1
            && |InStatus(s', Woken)| <= |s.threads|
  {
    var s' := Apply(s, step);
    ReleaseSets(s, step);
    assert Waiters(s') == Waiters(s) && s'.threads.Keys == s.threads.Keys;
    SubsetCardinality(InStatus(s', Woken), s.threads.Keys);
  }

  lemma ReleaseDecreases(s: State, step: Step)
    requires Enabled(s, step) && step.Release?
    ensures Remaining(Apply(s, step)) < Remaining(s)
  {
    hide Weight, Apply, Enabled, Waiters, Holders, InStatus;
    var s' := Apply(s, step);
    ReleaseCounts(s, step);
    WeightDrops(|s.threads|, |Waiters(s)|, |Holders(s')|, |InStatus(s, Woken)|, |InStatus(s', Woken)|);
  }

  lemma DrainDecreases(s: State, step: Step)
    requires Enabled(s, step) && Drains(step)
    ensures Remaining(Apply(s, step)) < Remaining(s)
  {
    if step.Resume? {
      ResumeDecreases(s, step.t);
    } else {
      ReleaseDecreases(s, step);
    }
  }

  /** Without new callers or spurious wakeups no schedule runs forever. */
  lemma {:induction false} DrainTerminates(s: State, steps: seq<Step>, s': State)
    requires Executes(s, steps, s') && forall i :: 0 <= i < |steps| ==> Drains(steps[i])
    ensures |steps| + Remaining(s') <= Remaining(s)
    decreases |steps|
  {
    if steps != [] {
      DrainDecreases(s, steps[0]);
      DrainTerminates(Apply(s, steps[0]), steps[1..], s');
    }
  }

  /** And a schedule can only end with every waiter served and every connection back in the queue. */
  lemma DrainCompletes(size: nat, s: State)
    requires size >= 1 && Inv(size, s)
    requires forall step :: Drains(step) ==> !Enabled(s, step)
    ensures forall t :: t in s.threads ==> s.threads[t] == Outside
    ensures |s.pool| == size
  {
    forall t | t in s.threads ensures !s.threads[t].Holding? {
      if s.threads[t].Holding? {
        var step := Release(t, InStatus(s, Asleep));
        assert Drains(step) && Enabled(s, step);
      }
    }
    assert Holders(s) == {};
    forall t | t in s.threads ensures s.threads[t] != Woken {
      if s.threads[t] == Woken {
        assert Drains(Resume(t)) && Enabled(s, Resume(t));
      }
    }
    assert InStatus(s, Woken) == {};
    forall t | t in s.threads ensures s.threads[t] != Asleep {
      assert s.threads[t] == Asleep ==> t in InStatus(s, Asleep);
    }
  }

  // ---------- the implementation ----------

  class Pool {
    var pool: seq<Conn>
    ghost var threads: map<Thread, Status>
    ghost var handed: seq<Conn>
    ghost var returned: seq<Conn>

    ghost function Abstract(): State
      reads this
    {
      State(pool, threads, handed, returned)
    }

    constructor (ghost ts: set<Thread>)
      ensures Init(Abstract(), 0) && threads.Keys == ts
    {
      pool, handed, returned := [], [], [];
      threads := map t | t in ts :: Outside;
    }

    /** The constructor's loop: opens poolSize connections; at the first one that does not connect
        it deletes that one and everything opened before, and reports the failure. */
    method Fill(poolSize: nat, connects: nat -> bool) returns (ok: bool, deleted: seq<Conn>)
      requires Init(Abstract(), 0)
      modifies this
      ensures ok <==> forall i :: 0 <= i < poolSize ==> connects(i)
      ensures ok ==> Init(Abstract(), poolSize) && deleted == []
      ensures !ok ==> pool == []
      ensures !ok ==> exists k :: 0 <= k < poolSize && !connects(k) && multiset(deleted) == multiset(FirstConns(k + 1))
      ensures threads == old(threads)
    {
      var i := 0;
      deleted := [];
      while i < poolSize
        invariant 0 <= i <= poolSize && pool == FirstConns(i) && deleted == []
        invariant handed == [] && returned == [] && threads == old(threads)
        invariant forall j :: 0 <= j < i ==> connects(j)
      {
        var conn := Conn(i);
        FirstSnoc(i);
        if !connects(i) {
          deleted := [conn];
          ghost var all := pool;
          while pool != []
            invariant deleted + pool == [conn] + all
            invariant threads == old(threads)
            decreases |pool|
          {
            assert pool == [pool[0]] + pool[1..];
            deleted := deleted + [pool[0]];
            pool := pool[1..];
          }
          assert deleted + [] == deleted;
          return false, deleted;
        }
        pool := pool + [conn];
        i := i + 1;
      }
      ok := true;
    }

    /** One pass of acquire's critical section: from the lock, or from the return of the wait, to
        the next wait or the unlock. None means the thread went to sleep. */
    method TryAcquire(ghost t: Thread) returns (conn: Option<Conn>)
      requires Enabled(Abstract(), Acquire(t)) || Enabled(Abstract(), Resume(t))
      modifies this
      ensures Abstract() == Test(old(Abstract()), t)
      ensures conn.None? <==> old(pool) == []
      ensures conn.Some? ==> threads[t] == Holding(conn.value)
    {
      if pool == [] {
        threads := threads[t := Asleep];
        return None;
      }
      var front := pool[0];
      pool := pool[1..];
      handed := handed + [front];
      threads := threads[t := Holding(front)];
      return Some(front);
    }

    method ReleaseConn(conn: Conn, ghost t: Thread, ghost signalled: set<Thread>)
      requires Enabled(Abstract(), Release(t, signalled)) && threads[t] == Holding(conn)
      modifies this
      ensures Abstract() == Apply(old(Abstract()), Release(t, signalled))
    {
      pool := pool + [conn];
      returned := returned + [conn];
      threads := map u | u in threads :: if u == t then Outside else if u in signalled then Woken else threads[u];
    }
  }
}
