/** Executions in which requests do not overlap are the runs of the engine, in both directions. */
module SerialRuns {
  import opened Engine
  import opened EngineInvariants
  import opened EngineRuns
  import opened Interleaving
  import opened Serial
  import opened Serving

  // ---------- executions without overlap ----------

  /** A request that runs alone, or a new IDF table. */
  datatype Block = Served(p: ProcId, actions: seq<Action>) | NewIdf(table: IdfValues)

  /** An execution in which requests do not overlap: states[i] and idfs[i] are before block i. */
  ghost predicate SerialRun(c: Config, states: seq<State>, idfs: seq<IdfValues>, blocks: seq<Block>) {
    && |states| == |idfs| == |blocks| + 1
    && Initially(states[0]) && idfs[0] == map[]
    && forall i :: 0 <= i < |blocks| ==> BlockRuns(c, states[i], idfs[i], blocks[i], states[i + 1], idfs[i + 1])
  }

  ghost predicate BlockRuns(c: Config, s: State, idf: IdfValues, b: Block, s': State, idf': IdfValues) {
    match b
    case Served(p, actions) => p in s.procs && Alone(c, Call(p, s, idf), s, actions, s') && idf' == idf
    case NewIdf(table) => s' == s && idf' == table
  }

  function Worlds(states: seq<State>, idfs: seq<IdfValues>): (ws: seq<World>)
    requires |states| == |idfs|
    ensures |ws| == |states| && forall i :: 0 <= i < |ws| ==> ws[i] == WorldOf(states[i], idfs[i])
  {
    seq(|states|, i requires 0 <= i < |states| => WorldOf(states[i], idfs[i]))
  }

  /** Every block adds the reply of its request to what clients were given. */
  ghost predicate SameReplies(states: seq<State>, reqs: seq<Request>) {
    && |states| == |reqs| + 1
    && forall i :: 0 <= i < |reqs| ==> states[i + 1].replies == states[i].replies + ReplyOf(reqs[i])
  }

  // ---------- such an execution is a run ----------

  lemma BlockIsStep(c: Config, s: State, idf: IdfValues, b: Block, s': State, idf': IdfValues) returns (req: Request)
    requires BlockRuns(c, s, idf, b, s', idf')
    requires (forall p :: p in s.procs ==> s.procs[p].Idle?) && CacheFits(c.tfCap, s.tfCache)
    ensures Next(c, WorldOf(s, idf), req, WorldOf(s', idf'))
    ensures s'.procs == s.procs && s'.replies == s.replies + ReplyOf(req)
  {
    hide Alone;
    match b
    case Served(p, actions) => req := RequestIsOneStep(c, Call(p, s, idf), actions, s');
    case NewIdf(table) => req := UpdateIdf(table);
  }

  lemma {:induction false} SerialUpTo(c: Config, states: seq<State>, idfs: seq<IdfValues>, blocks: seq<Block>, n: nat)
      returns (reqs: seq<Request>)
    requires SerialRun(c, states, idfs, blocks) && n <= |blocks|
    ensures Behaviour(c, Worlds(states, idfs)[..n + 1], reqs) && SameReplies(states[..n + 1], reqs)
    ensures states[n].procs == states[0].procs
  {
    hide Initially, BlockRuns, Next, ReplyOf, Behaviour;
    var ws := Worlds(states, idfs);
    if n == 0 {
      reqs := [];
      SerialStart(c, states[0], idfs[0]);
      assert ws[..1] == [WorldOf(states[0], idfs[0])];
    } else {
      reqs := SerialUpTo(c, states, idfs, blocks, n - 1);
      StartIdle(states[0]);
      FitsIn(c, ws[..n], reqs, states[n - 1], idfs[n - 1]);
      var req := BlockIsStep(c, states[n - 1], idfs[n - 1], blocks[n - 1], states[n], idfs[n]);
      BehaviourSnoc(c, ws[..n], reqs, req, ws[n]);
      assert ws[..n] + [ws[n]] == ws[..n + 1];
      reqs := reqs + [req];
    }
  }

  lemma SerialStart(c: Config, s: State, idf: IdfValues)
    requires Initially(s) && idf == map[]
    ensures Behaviour(c, [WorldOf(s, idf)], [])
  {
  }

  lemma StartIdle(s: State)
    requires Initially(s)
    ensures forall p :: p in s.procs ==> s.procs[p].Idle?
  {
  }

  lemma FitsIn(c: Config, worlds: seq<World>, reqs: seq<Request>, s: State, idf: IdfValues)
    requires Behaviour(c, worlds, reqs) && worlds[|reqs|] == WorldOf(s, idf)
    ensures CacheFits(c.tfCap, s.tfCache)
  {
    hide Next, Initial, IndexMatches, GoodPostings;
    BehaviourInv(c, worlds, reqs, |reqs|);
  }

  /** An execution whose requests do not overlap is a run of the engine: the same tables and caches after
      every request, and the same replies. */
  lemma SerialRunIsBehaviour(c: Config, states: seq<State>, idfs: seq<IdfValues>, blocks: seq<Block>)
    requires SerialRun(c, states, idfs, blocks)
    ensures exists reqs :: Behaviour(c, Worlds(states, idfs), reqs) && SameReplies(states, reqs)
  {
    hide Behaviour, BlockRuns, Initially, SameReplies;
    var reqs := SerialUpTo(c, states, idfs, blocks, |blocks|);
    assert Worlds(states, idfs)[..|blocks| + 1] == Worlds(states, idfs);
    assert states[..|blocks| + 1] == states;
  }

  // ---------- a run is such an execution ----------

  ghost predicate RowInsertsSucceed(reqs: seq<Request>) {
    forall i :: 0 <= i < |reqs| && reqs[i].Create? ==> reqs[i].generated.Some?
  }

  lemma StepIsBlock(c: Config, s: State, idf: IdfValues, req: Request, w': World)
      returns (b: Block, s': State, idf': IdfValues)
    requires 0 in s.procs && s.procs[0].Idle? && CacheFits(c.tfCap, s.tfCache)
    requires Next(c, WorldOf(s, idf), req, w') && (req.Create? ==> req.generated.Some?)
    ensures BlockRuns(c, s, idf, b, s', idf') && WorldOf(s', idf') == w'
    ensures s'.procs == s.procs && s'.replies == s.replies + ReplyOf(req)
  {
    hide Alone;
    if req.UpdateIdf? {
      b, s', idf' := NewIdf(req.table), s, req.table;
    } else {
      hide Next;
      var actions;
      actions, s' := StepIsServed(c, Call(0, s, idf), req, w');
      b, idf' := Served(0, actions), idf;
    }
  }

  /** One idle thread and nothing else. */
  function Nothing(): State {
    State(map[], map[], [], [], map[0 := Idle], map[], [], {}, {})
  }

  /** The executions built so far follow the run. */
  ghost predicate Follows(c: Config, worlds: seq<World>, reqs: seq<Request>, states: seq<State>, idfs: seq<IdfValues>,
                          blocks: seq<Block>)
  {
    && SerialRun(c, states, idfs, blocks) && Worlds(states, idfs) == worlds && SameReplies(states, reqs)
    && states[|blocks|].procs == map[0 := Idle]
  }

  lemma FollowsSnoc(c: Config, worlds: seq<World>, reqs: seq<Request>, states: seq<State>, idfs: seq<IdfValues>,
                    blocks: seq<Block>, req: Request, b: Block, s': State, idf': IdfValues)
    requires Follows(c, worlds, reqs, states, idfs, blocks)
    requires BlockRuns(c, states[|blocks|], idfs[|blocks|], b, s', idf') && s'.procs == states[|blocks|].procs
    requires s'.replies == states[|blocks|].replies + ReplyOf(req)
    ensures Follows(c, worlds + [WorldOf(s', idf')], reqs + [req], states + [s'], idfs + [idf'], blocks + [b])
  {
    hide BlockRuns, Initially, ReplyOf;
    assert |reqs| == |blocks|;
  }

  lemma {:induction false} FollowRun(c: Config, worlds: seq<World>, reqs: seq<Request>)
      returns (states: seq<State>, idfs: seq<IdfValues>, blocks: seq<Block>)
    requires Behaviour(c, worlds, reqs) && RowInsertsSucceed(reqs)
    ensures Follows(c, worlds, reqs, states, idfs, blocks)
    decreases |reqs|
  {
    if reqs == [] {
      states, idfs, blocks := [Nothing()], [map[]], [];
      assert Worlds(states, idfs) == worlds;
    } else {
      hide Follows, BlockRuns, Initial;
      var n := |reqs| - 1;
      assert Behaviour(c, worlds[..n + 1], reqs[..n]) && Next(c, worlds[n], reqs[n], worlds[n + 1]) by {
        hide Next;
      }
      hide Behaviour, Next;
      states, idfs, blocks := FollowRun(c, worlds[..n + 1], reqs[..n]);
      LastOf(c, worlds[..n + 1], reqs[..n], states, idfs, blocks);
      FitsIn(c, worlds[..n + 1], reqs[..n], states[n], idfs[n]);
      var b, s', idf' := StepIsBlock(c, states[n], idfs[n], reqs[n], worlds[n + 1]);
      FollowsSnoc(c, worlds[..n + 1], reqs[..n], states, idfs, blocks, reqs[n], b, s', idf');
      Lengths(c, worlds, reqs);
      assert worlds[..n + 1] + [worlds[n + 1]] == worlds && reqs[..n] + [reqs[n]] == reqs;
      states, idfs, blocks := states + [s'], idfs + [idf'], blocks + [b];
    }
  }

  lemma LastOf(c: Config, worlds: seq<World>, reqs: seq<Request>, states: seq<State>, idfs: seq<IdfValues>,
               blocks: seq<Block>)
    requires Follows(c, worlds, reqs, states, idfs, blocks)
    ensures |worlds| == |states| == |idfs| == |blocks| + 1 == |reqs| + 1
    ensures worlds[|reqs|] == WorldOf(states[|reqs|], idfs[|reqs|]) && states[|reqs|].procs == map[0 := Idle]
  {
    assert worlds[|reqs|] == Worlds(states, idfs)[|reqs|];
  }

  /** Every run of the engine whose document inserts succeed is an execution without overlap: the same
      tables, caches and IDF tables between the requests, and the same replies. */
  lemma BehaviourIsSerialRun(c: Config, worlds: seq<World>, reqs: seq<Request>)
    requires Behaviour(c, worlds, reqs) && RowInsertsSucceed(reqs)
    ensures exists states, idfs, blocks ::
              SerialRun(c, states, idfs, blocks) && Worlds(states, idfs) == worlds && SameReplies(states, reqs)
  {
    hide Behaviour, SerialRun, SameReplies;
    var states, idfs, blocks := FollowRun(c, worlds, reqs);
  }
}
