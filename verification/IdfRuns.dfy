/** Runs whose IDF table is written by the updater's rounds alone: how large an idf can get, and with it
    a score. */
module IdfRuns {
  import opened Tokenizer
  import opened TermFrequency
  import opened SearchSpec
  import opened Engine
  import opened EngineInvariants
  import opened EngineScores
  import opened Database
  import opened IdfUpdater

  /** A write of the updater in state i. Its round read the word counts in state j and the number of
      documents in state k; it writes the new values of some of the counted words, one word or several
      at a time. Requests may run between the two queries, before the writes, and between them. */
  ghost predicate WriteAt(ln: real -> real, worlds: seq<World>, j: nat, k: nat, i: nat, stats: seq<IdfStats>,
                          total: nat, part: seq<IdfStats>, table: map<string, real>)
  {
    && j <= k <= i < |worlds|
    && (stats == [] || Groups(stats, worlds[j].tf))
    && (total == 0 || total == |worlds[k].documents|)
    && (forall x :: x in part ==> x in stats)
    && RoundResult(ln, worlds[i].idf, part, total, table)
  }

  /** Every update is a write of some round; with quiet, no request runs between a round's two queries. */
  ghost predicate RoundsOnly(ln: real -> real, quiet: bool, worlds: seq<World>, reqs: seq<Request>) {
    forall i :: 0 <= i < |reqs| && reqs[i].UpdateIdf? ==>
      exists j, k, stats, total, part ::
        (quiet ==> j == k) && WriteAt(ln, worlds, j, k, i, stats, total, part, reqs[i].table)
  }

  /** At most m documents are ever stored at a time. */
  ghost predicate AtMost(worlds: seq<World>, m: nat) {
    forall i :: 0 <= i < |worlds| ==> |worlds[i].documents| <= m
  }

  /** The smallest quotient a round can take the logarithm of. */
  function LeastQuotient(quiet: bool, m: nat): real {
    if quiet then 0.5 else 1.0 / (m + 1) as real
  }

  ghost predicate InRange(ln: real -> real, quiet: bool, m: nat, x: real) {
    m >= 1 && ln(LeastQuotient(quiet, m)) <= x <= ln(m as real / 2.0)
  }

  // ---------- one value ----------

  lemma RoundQuotient(total: nat, df: nat, m: nat, quiet: bool)
    requires 1 <= total <= m && 1 <= df <= m && (quiet ==> df <= total)
    ensures 0.0 < LeastQuotient(quiet, m) <= total as real / (df + 1) as real <= m as real / 2.0
  {
    var t, d := total as real, (df + 1) as real;
    AtMostHalf(t, d, m as real);
    DivisionBoundBelow(t, d, 0.5);
    AtLeastInverse(t, d, (m + 1) as real);
  }

  lemma AtMostHalf(t: real, d: real, m: real)
    requires 0.0 <= t <= m && 2.0 <= d
    ensures t / d <= m / 2.0
  {
    assert m / 2.0 * (d - 2.0) >= 0.0;
    DivisionBound(t, d, m / 2.0);
  }

  lemma AtLeastInverse(t: real, d: real, m: real)
    requires 1.0 <= t && 0.0 < d <= m
    ensures 0.0 < 1.0 / m <= t / d
  {
    var x := 1.0 / m;
    assert x * m == 1.0;
    assert x > 0.0;
    assert x * (m - d) >= 0.0;
    DivisionBoundBelow(t, d, x);
  }

  lemma DivisionBoundBelow(c: real, n: real, b: real)
    requires 0.0 < n
    ensures b <= c / n <==> b * n <= c
  {
    assert c / n * n == c;
    assert (c / n - b) * n == c - b * n;
  }

  lemma LnMonotone(ln: real -> real, x: real, y: real)
    requires IsLogarithm(ln) && 0.0 < x <= y
    ensures ln(x) <= ln(y)
  {
  }

  lemma IdfInRange(ln: real -> real, quiet: bool, m: nat, total: nat, df: nat)
    requires IsLogarithm(ln) && 1 <= total <= m && 1 <= df <= m && (quiet ==> df <= total)
    ensures InRange(ln, quiet, m, IdfValue(ln, total, df))
  {
    hide IsLogarithm;
    RoundQuotient(total, df, m, quiet);
    LnMonotone(ln, LeastQuotient(quiet, m), total as real / (df + 1) as real);
    LnMonotone(ln, total as real / (df + 1) as real, m as real / 2.0);
  }

  // ---------- every run ----------

  /** A write keeps the table in range. */
  lemma WriteInRange(c: Config, ln: real -> real, quiet: bool, m: nat, worlds: seq<World>, reqs: seq<Request>, j: nat,
                     k: nat, i: nat, stats: seq<IdfStats>, total: nat, part: seq<IdfStats>, table: map<string, real>)
    requires Behaviour(c, worlds, reqs) && IsLogarithm(ln) && AtMost(worlds, m)
    requires (quiet ==> j == k) && WriteAt(ln, worlds, j, k, i, stats, total, part, table)
    requires forall w :: w in worlds[i].idf ==> InRange(ln, quiet, m, worlds[i].idf[w])
    ensures forall w :: w in table ==> InRange(ln, quiet, m, table[w])
  {
    hide Behaviour, IsLogarithm, InRange, DocumentsWith, IdfValue, IndexMatches;
    BehaviourInv(c, worlds, reqs, j);
    if total != 0 {
      forall w | w in table ensures InRange(ln, quiet, m, table[w]) {
        if Counted(part, w) {
          var x :| 0 <= x < |part| && part[x].word == w;
          assert part[x] in part;
          var y :| 0 <= y < |stats| && stats[y] == part[x];
          CountWithinTotal(worlds[j].documents, worlds[j].tf, w);
          IdfInRange(ln, quiet, m, total, stats[y].documentCount);
        }
      }
    }
  }

  /** In every run whose updates are the writes of rounds, also between two writes of the same round, every
      idf lies between ln(1/2), or ln(1/(m+1)) when requests run between the queries of a round, and
      ln(m/2), where m is the most documents ever stored. */
  lemma {:induction false} IdfStaysInRange(c: Config, ln: real -> real, quiet: bool, m: nat, worlds: seq<World>,
                                           reqs: seq<Request>, n: nat)
    requires Behaviour(c, worlds, reqs) && RoundsOnly(ln, quiet, worlds, reqs) && IsLogarithm(ln) && AtMost(worlds, m)
    requires n < |worlds|
    ensures forall w :: w in worlds[n].idf ==> InRange(ln, quiet, m, worlds[n].idf[w])
  {
    hide IsLogarithm, InRange, WriteAt, AtMost, Tokenize;
    if n > 0 {
      IdfStaysInRange(c, ln, quiet, m, worlds, reqs, n - 1);
      assert Next(c, worlds[n - 1], reqs[n - 1], worlds[n]);
      if reqs[n - 1].UpdateIdf? {
        var j, k, stats, total, part :|
          (quiet ==> j == k) && WriteAt(ln, worlds, j, k, n - 1, stats, total, part, reqs[n - 1].table);
        WriteInRange(c, ln, quiet, m, worlds, reqs, j, k, n - 1, stats, total, part, reqs[n - 1].table);
      }
    }
  }

  /** One write after the other adds up to the round: the writes of the words of a part, and then of the
      rest, give what writing them all gives. */
  lemma WritesCompose(ln: real -> real, before: map<string, real>, mid: map<string, real>, after: map<string, real>,
                      first: seq<IdfStats>, second: seq<IdfStats>, total: nat)
    requires RoundResult(ln, before, first, total, mid) && RoundResult(ln, mid, second, total, after)
    requires forall i, j :: 0 <= i < |first| && 0 <= j < |second| ==> first[i].word != second[j].word
    ensures RoundResult(ln, before, first + second, total, after)
  {
    hide IdfValue;
    var all := first + second;
    forall w ensures Counted(all, w) <==> Counted(first, w) || Counted(second, w) {
      if i :| 0 <= i < |first| && first[i].word == w {
        assert all[i].word == w;
      }
      if i :| 0 <= i < |second| && second[i].word == w {
        assert all[|first| + i].word == w;
      }
    }
    forall i | 0 <= i < |all| && total != 0
      ensures all[i].word in after && after[all[i].word] == IdfValue(ln, total, all[i].documentCount)
    {
      if i < |first| {
        assert !Counted(second, first[i].word);
      } else {
        assert all[i] == second[i - |first|];
      }
    }
  }

  /** The bound the rounds guarantee. */
  function IdfBound(ln: real -> real, quiet: bool, m: nat): real {
    var low, high := -ln(LeastQuotient(quiet, m)), ln(m as real / 2.0);
    if low <= high then high else low
  }

  lemma IdfBoundPositive(ln: real -> real, quiet: bool, m: nat)
    requires IsLogarithm(ln) && 1 <= m
    ensures 0.0 < IdfBound(ln, quiet, m)
  {
    DivisionBound(1.0, (m + 1) as real, 0.5);
    DivisionInUnit(1.0, (m + 1) as real);
    assert 0.0 < LeastQuotient(quiet, m) <= 0.5;
    assert ln(LeastQuotient(quiet, m)) < ln(1.0);
  }

  /** So every score a run returns lies within a bound that depends on the number of documents alone. */
  lemma RoundsBoundScores(c: Config, ln: real -> real, quiet: bool, m: nat, worlds: seq<World>, reqs: seq<Request>,
                          n: nat, r: SearchResult)
    requires Behaviour(c, worlds, reqs) && RoundsOnly(ln, quiet, worlds, reqs) && IsLogarithm(ln)
    requires AtMost(worlds, m) && 1 <= m
    requires n < |reqs| && reqs[n].Search? && r in reqs[n].results
    ensures -IdfBound(ln, quiet, m) <= r.score <= IdfBound(ln, quiet, m)
  {
    hide Behaviour, RoundsOnly, IsLogarithm, AtMost;
    assert |worlds| == |reqs| + 1 by {
      Lengths(c, worlds, reqs);
    }
    IdfStaysInRange(c, ln, quiet, m, worlds, reqs, n);
    IdfBoundPositive(ln, quiet, m);
    var search, bound := reqs[n], IdfBound(ln, quiet, m);
    ScoresWithinBound(c, worlds, reqs, n, search.query, search.topK, search.run, search.results, bound);
  }
}
