/** Listing scored documents best first, one at a time, and cutting the list. */
module Ranking {
  import opened TermFrequency
  import opened SearchSpec

  /** The documents outside rest are the ones listed. */
  ghost predicate Covers(ranked: seq<Scored>, scores: map<DocId, real>, rest: set<DocId>) {
    && rest <= scores.Keys
    && (forall d :: d in scores && d !in rest ==> exists i :: 0 <= i < |ranked| && ranked[i].docId == d)
    && |ranked| + |rest| == |scores|
  }

  /** The best-first list so far, over a map of scores of which rest is still to be listed. */
  ghost predicate BestFirst(ranked: seq<Scored>, scores: map<DocId, real>, rest: set<DocId>) {
    && Covers(ranked, scores, rest)
    && (forall i :: 0 <= i < |ranked| ==> ranked[i].docId in scores && ranked[i].score == scores[ranked[i].docId])
    && (forall i :: 0 <= i < |ranked| ==> ranked[i].docId !in rest)
    && (forall i, j :: 0 <= i < j < |ranked| ==> ranked[i].docId != ranked[j].docId)
    && (forall i, j :: 0 <= i < j < |ranked| ==> ranked[i].score >= ranked[j].score)
    && (forall d, i :: d in rest && 0 <= i < |ranked| ==> scores[d] <= ranked[i].score)
  }

  /** There is always a best remaining document, whichever one the sort puts first. */
  lemma {:induction false} BestExists(scores: map<DocId, real>, rest: set<DocId>)
    requires rest != {} && rest <= scores.Keys
    ensures exists d :: d in rest && forall e :: e in rest ==> scores[e] <= scores[d]
    decreases |rest|
  {
    var x :| x in rest;
    if rest == {x} {
      assert forall e :: e in rest ==> scores[e] <= scores[x];
    } else {
      BestExists(scores, rest - {x});
      var y :| y in rest - {x} && forall e :: e in rest - {x} ==> scores[e] <= scores[y];
      var best := if scores[x] <= scores[y] then y else x;
      assert forall e :: e in rest ==> e == x || e in rest - {x};
      assert best in rest && forall e :: e in rest ==> scores[e] <= scores[best];
    }
  }

  lemma CoversSnoc(ranked: seq<Scored>, scores: map<DocId, real>, rest: set<DocId>, d: DocId)
    requires Covers(ranked, scores, rest) && d in rest
    ensures Covers(ranked + [Scored(d, scores[d])], scores, rest - {d})
  {
    var all := ranked + [Scored(d, scores[d])];
    forall e | e in scores && e !in rest - {d} ensures exists i :: 0 <= i < |all| && all[i].docId == e {
      if e == d {
        assert all[|ranked|].docId == e;
      } else {
        var i :| 0 <= i < |ranked| && ranked[i].docId == e;
        assert all[i].docId == e;
      }
    }
  }

  lemma BestFirstSnoc(ranked: seq<Scored>, scores: map<DocId, real>, rest: set<DocId>, d: DocId)
    requires BestFirst(ranked, scores, rest) && d in rest && forall e :: e in rest ==> scores[e] <= scores[d]
    ensures BestFirst(ranked + [Scored(d, scores[d])], scores, rest - {d})
  {
    hide Covers;
    CoversSnoc(ranked, scores, rest, d);
    assert d in scores by {
      CoveredScores(ranked, scores, rest);
    }
  }

  lemma CoveredScores(ranked: seq<Scored>, scores: map<DocId, real>, rest: set<DocId>)
    requires Covers(ranked, scores, rest)
    ensures rest <= scores.Keys
  {
  }

  /** A document that is not among the first n is listed later. */
  lemma CutOmits(ranked: seq<Scored>, scores: map<DocId, real>, n: nat, d: DocId)
    requires BestFirst(ranked, scores, {}) && n <= |ranked| && d in scores
    requires forall j :: 0 <= j < n ==> ranked[j].docId != d
    ensures forall i :: 0 <= i < n ==> scores[d] <= ranked[i].score
  {
    var k :| 0 <= k < |ranked| && ranked[k].docId == d;
    assert k >= n;
    assert scores[d] == ranked[k].score;
  }

  /** Cutting the full list gives the top k. */
  lemma CutIsTopK(ranked: seq<Scored>, scores: map<DocId, real>, topK: int)
    requires BestFirst(ranked, scores, {})
    ensures TopK(ranked[..Limit(topK, |ranked|)], scores, topK)
  {
    var n := Limit(topK, |ranked|);
    var cut := ranked[..n];
    forall d | d in scores && (forall j :: 0 <= j < |cut| ==> cut[j].docId != d)
      ensures forall i :: 0 <= i < |cut| ==> scores[d] <= cut[i].score
    {
      CutKeeps(ranked, n, d);
      CutOmits(ranked, scores, n, d);
    }
  }

  lemma CutKeeps(ranked: seq<Scored>, n: nat, d: DocId)
    requires n <= |ranked| && forall j :: 0 <= j < n ==> ranked[..n][j].docId != d
    ensures forall j :: 0 <= j < n ==> ranked[j].docId != d
  {
    forall j | 0 <= j < n ensures ranked[j].docId != d {
      assert ranked[j] == ranked[..n][j];
    }
  }

  /** Whatever is listed so far can be completed. */
  lemma {:induction false} CompleteRanking(ranked: seq<Scored>, scores: map<DocId, real>, rest: set<DocId>)
      returns (full: seq<Scored>)
    requires BestFirst(ranked, scores, rest)
    ensures BestFirst(full, scores, {}) && ranked <= full
    decreases rest
  {
    if rest == {} {
      full := ranked;
    } else {
      BestExists(scores, rest);
      var d :| d in rest && forall e :: e in rest ==> scores[e] <= scores[d];
      BestFirstSnoc(ranked, scores, rest, d);
      full := CompleteRanking(ranked + [Scored(d, scores[d])], scores, rest - {d});
    }
  }

  /** Every map of scores has a ranking; without truncation it lists every scored document. */
  lemma RankingExists(scores: map<DocId, real>, topK: int) returns (ranked: seq<Scored>)
    ensures TopK(ranked, scores, topK)
    ensures Limit(topK, |scores|) == |scores| ==>
              forall d :: d in scores ==> exists i :: 0 <= i < |ranked| && ranked[i].docId == d
  {
    var full := CompleteRanking([], scores, scores.Keys);
    CutIsTopK(full, scores, topK);
    ranked := full[..Limit(topK, |full|)];
    assert |full| == |scores|;
    if Limit(topK, |scores|) == |scores| {
      assert ranked == full;
    }
  }

  /** A document that no other scores above can be ranked first. */
  lemma RankingWithFirst(scores: map<DocId, real>, topK: int, first: DocId) returns (ranked: seq<Scored>)
    requires first in scores && topK != 0 && forall e :: e in scores ==> scores[e] <= scores[first]
    ensures TopK(ranked, scores, topK)
    ensures ranked != [] && ranked[0].docId == first
  {
    BestFirstSnoc([], scores, scores.Keys, first);
    var full := CompleteRanking([] + [Scored(first, scores[first])], scores, scores.Keys - {first});
    assert full[0] == Scored(first, scores[first]);
    CutIsTopK(full, scores, topK);
    ranked := full[..Limit(topK, |full|)];
  }
}
