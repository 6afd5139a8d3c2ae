/** The IDF table and one round of its updater thread. The natural logarithm is a parameter: any
    function that is strictly increasing on the positive reals and zero at 1. */
module IdfUpdater {
  import opened Sums
  import opened TermFrequency
  import opened Tokenizer
  import opened SearchSpec
  import opened EngineInvariants
  import opened Database

  ghost predicate IsLogarithm(ln: real -> real) {
    && ln(1.0) == 0.0
    && forall x, y :: 0.0 < x < y ==> ln(x) < ln(y)
  }

  class IdfTable {
    var idfMap: map<string, real>

    constructor ()
      ensures idfMap == map[]
    {
      idfMap := map[];
    }

    method GetIdf(word: string) returns (result: real)
      ensures result == IdfOf(idfMap, word)
    {
      result := 0.0;
      if word in idfMap {
        result := idfMap[word];
      }
    }

    method SetIdf(word: string, value: real)
      modifies this
      ensures idfMap == old(idfMap)[word := value]
    {
      idfMap := idfMap[word := value];
    }
  }

  /** The value a round computes: adding one to the document count keeps the quotient finite. */
  function IdfValue(ln: real -> real, total: nat, documentCount: nat): real {
    ln(total as real / (documentCount + 1) as real)
  }

  ghost predicate Counted(stats: seq<IdfStats>, w: string) {
    exists i :: 0 <= i < |stats| && stats[i].word == w
  }

  /** What a round does to the table, given what its two queries returned: every counted word gets
      its value, every other entry stays. With no documents nothing is written. */
  ghost predicate RoundResult(ln: real -> real, before: map<string, real>, stats: seq<IdfStats>, total: nat,
                              after: map<string, real>)
  {
    if total == 0 then after == before
    else
      && (forall i :: 0 <= i < |stats| ==>
            stats[i].word in after && after[stats[i].word] == IdfValue(ln, total, stats[i].documentCount))
      && (forall w :: !Counted(stats, w) ==>
            (w in after <==> w in before) && (w in before ==> after[w] == before[w]))
  }

  lemma RoundSnoc(ln: real -> real, before: map<string, real>, stats: seq<IdfStats>, s: IdfStats, total: nat,
                  mid: map<string, real>)
    requires RoundResult(ln, before, stats, total, mid) && total > 0 && !Counted(stats, s.word)
    ensures RoundResult(ln, before, stats + [s], total, mid[s.word := IdfValue(ln, total, s.documentCount)])
  {
    var all := stats + [s];
    assert all[|stats|].word == s.word;
    forall w ensures Counted(stats, w) ==> Counted(all, w) {
      if i :| 0 <= i < |stats| && stats[i].word == w {
        assert all[i].word == w;
      }
    }
  }

  /** One pass of the updater's outer loop; the two inputs say which of its queries work. */
  method UpdateRound(db: Tables, table: IdfTable, ln: real -> real, statsWork: bool, countWorks: bool)
    returns (stats: seq<IdfStats>, total: nat)
    modifies table
    ensures if statsWork then Groups(stats, db.tf) else stats == []
    ensures total == if countWorks then |db.documents| else 0
    ensures RoundResult(ln, old(table.idfMap), stats, total, table.idfMap)
    ensures total != 0 ==> forall i :: 0 <= i < |stats| ==>
              && stats[i].word in table.idfMap
              && table.idfMap[stats[i].word] == ln(total as real / (stats[i].documentCount + 1) as real)
  {
    hide DocumentsWith;
    stats := db.GetAllIdfStats(statsWork);
    total := db.GetTotalDocuments(countWorks);
    if total != 0 {
      var i := 0;
      while i < |stats|
        invariant 0 <= i <= |stats|
        invariant RoundResult(ln, old(table.idfMap), stats[..i], total, table.idfMap)
      {
        var idf := ln(total as real / (stats[i].documentCount + 1) as real);
        RoundSnoc(ln, old(table.idfMap), stats[..i], stats[i], total, table.idfMap);
        table.SetIdf(stats[i].word, idf);
        assert stats[..i + 1] == stats[..i] + [stats[i]];
        i := i + 1;
      }
      assert stats[..|stats|] == stats;
    }
  }

  // ---------- a round on a quiescent database ----------

  lemma DocumentsWithIsRows(tf: TermTable, w: string)
    ensures forall d :: d in DocumentsWith(tf, w) <==> (d, w) in tf
  {
    forall d ensures d in DocumentsWith(tf, w) <==> (d, w) in tf {
      assert (d, w) in tf ==> (d, w).0 in DocumentsWith(tf, w);
    }
  }

  /** No word occurs in more documents than there are. */
  lemma CountWithinTotal(documents: map<DocId, string>, tf: TermTable, w: string)
    requires IndexMatches(documents, tf)
    ensures |DocumentsWith(tf, w)| <= |documents|
    ensures |DocumentsWith(tf, w)| == |documents| <==> forall d :: d in documents ==> (d, w) in tf
  {
    hide Tokenize, StoredFrequency, DocumentsWith;
    DocumentsWithIsRows(tf, w);
    SubsetCardinality(DocumentsWith(tf, w), documents.Keys);
  }

  /** After a successful round over stored documents every indexed word has ln(N / (df + 1)), and
      every other entry is what it was, even for words no document contains any more. */
  lemma RoundOnIndex(ln: real -> real, documents: map<DocId, string>, tf: TermTable, before: map<string, real>,
                     stats: seq<IdfStats>, total: nat, after: map<string, real>)
    requires Groups(stats, tf) && total == |documents| > 0 && RoundResult(ln, before, stats, total, after)
    ensures forall w :: DocumentsWith(tf, w) != {} ==>
              w in after && after[w] == ln(|documents| as real / (|DocumentsWith(tf, w)| + 1) as real)
    ensures forall w :: DocumentsWith(tf, w) == {} ==>
              (w in after <==> w in before) && (w in before ==> after[w] == before[w])
  {
    forall w | DocumentsWith(tf, w) != {}
      ensures w in after && after[w] == ln(|documents| as real / (|DocumentsWith(tf, w)| + 1) as real)
    {
      var d :| d in DocumentsWith(tf, w);
      var k :| k in tf && k.1 == w && k.0 == d;
      var i :| 0 <= i < |stats| && stats[i].word == k.1;
    }
    forall w | DocumentsWith(tf, w) == {}
      ensures (w in after <==> w in before) && (w in before ==> after[w] == before[w])
    {
      assert !Counted(stats, w);
    }
  }

  lemma QuotientOrder(n: real, a: real, b: real)
    requires 0.0 < n && 0.0 < a < b
    ensures 0.0 < n / b < n / a
  {
    var p, q := n / a, n / b;
    assert p * a == n && q * b == n;
    assert q > 0.0;
    assert q * a < q * b;
    assert (p - q) * a > 0.0;
  }

  /** idf strictly decreases as more documents contain the word. */
  lemma IdfDecreases(ln: real -> real, total: nat, df1: nat, df2: nat)
    requires IsLogarithm(ln) && total > 0 && df1 < df2
    ensures IdfValue(ln, total, df2) < IdfValue(ln, total, df1)
  {
    QuotientOrder(total as real, (df1 + 1) as real, (df2 + 1) as real);
  }

  lemma SelfQuotient(n: real)
    requires n != 0.0
    ensures n / n == 1.0
  {
  }

  /** idf of an indexed word lies between ln(N / (N + 1)) and ln(N / 2); it is negative exactly when
      every document contains the word, and zero exactly when all but one do. */
  lemma IdfSign(ln: real -> real, documents: map<DocId, string>, tf: TermTable, w: string)
    requires IsLogarithm(ln) && IndexMatches(documents, tf) && DocumentsWith(tf, w) != {}
    ensures |documents| > 0
    ensures var n, idf := |documents|, IdfValue(ln, |documents|, |DocumentsWith(tf, w)|);
            && ln(n as real / (n + 1) as real) <= idf <= ln(n as real / 2.0)
            && (idf < 0.0 <==> forall d :: d in documents ==> (d, w) in tf)
            && (idf == 0.0 <==> |DocumentsWith(tf, w)| + 1 == n)
  {
    hide Tokenize, StoredFrequency;
    var n, df := |documents|, |DocumentsWith(tf, w)|;
    CountWithinTotal(documents, tf, w);
    assert df >= 1;
    if df < n {
      IdfDecreases(ln, n, df, n);
    }
    if df > 1 {
      IdfDecreases(ln, n, 1, df);
    }
    SelfQuotient(n as real);
    if df + 1 < n {
      IdfDecreases(ln, n, df, n - 1);
    } else if df == n {
      IdfDecreases(ln, n, n - 1, n);
    }
  }
}
