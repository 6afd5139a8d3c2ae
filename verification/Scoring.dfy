/** The score of a search in closed form, and what follows from it. */
module Scoring {
  import opened Sums
  import opened RecencyList
  import opened TermFrequency
  import opened SearchSpec

  /** The postings the search uses for w: the cached list, or what the select returned. */
  function View(cache: PostingCache, rs: seq<TermFrequency>, w: string): seq<Posting> {
    match Lookup(cache, w) case Some(ps) => ps case None => GroupOf(rs, w)
  }

  /** A cached token counts once per occurrence in the query, a missed token once. */
  function Multiplicity(cache: PostingCache, tokens: seq<string>, w: string): nat {
    if Resident(cache, w) then Count(tokens, w) else 1
  }

  /** The frequency a posting list gives document d. */
  function FrequencyIn(ps: seq<Posting>, d: DocId): real {
    if ps == [] then 0.0 else (if ps[0].docId == d then ps[0].frequency else 0.0) + FrequencyIn(ps[1..], d)
  }

  // ---------- the two halves of the record list ----------

  lemma {:induction false} TotalConcat(xs: seq<TermFrequency>, ys: seq<TermFrequency>, d: DocId, idf: map<string, real>)
    ensures TotalScore(xs + ys, d, idf) == TotalScore(xs, d, idf) + TotalScore(ys, d, idf)
  {
    if xs == [] {
      assert xs + ys == ys;
    } else {
      TotalConcat(xs[1..], ys, d, idf);
      assert (xs + ys)[1..] == xs[1..] + ys;
    }
  }

  /** What a posting list of w adds to d's total. */
  function Weigh(ps: seq<Posting>, d: DocId, idf: map<string, real>, w: string): real {
    FrequencyIn(ps, d) * IdfOf(idf, w)
  }

  lemma {:induction false} TotalRecordsOf(w: string, ps: seq<Posting>, d: DocId, idf: map<string, real>)
    ensures TotalScore(RecordsOf(w, ps), d, idf) == Weigh(ps, d, idf, w)
  {
    if ps != [] {
      TotalRecordsOf(w, ps[1..], d, idf);
      assert RecordsOf(w, ps)[1..] == RecordsOf(w, ps[1..]);
      var a := if ps[0].docId == d then ps[0].frequency else 0.0;
      Distribute(a, FrequencyIn(ps[1..], d), IdfOf(idf, w));
    }
  }

  function HitTerm(cache: PostingCache, d: DocId, idf: map<string, real>, w: string): real {
    match Lookup(cache, w) case Some(ps) => Weigh(ps, d, idf, w) case None => 0.0
  }

  function MissTerm(rs: seq<TermFrequency>, d: DocId, idf: map<string, real>, w: string): real {
    Weigh(GroupOf(rs, w), d, idf, w)
  }

  lemma {:induction false} TotalHits(cache: PostingCache, tokens: seq<string>, d: DocId, idf: map<string, real>,
                                     hit: string -> real)
    requires forall w :: hit(w) == HitTerm(cache, d, idf, w)
    ensures TotalScore(HitRecords(cache, tokens), d, idf) == Sum(tokens, hit)
  {
    hide Weigh, TermOf, Lookup, RecordsOf;
    if tokens != [] {
      var w, rest := tokens[0], HitRecords(cache, tokens[1..]);
      TotalHits(cache, tokens[1..], d, idf, hit);
      match Lookup(cache, w)
      case Some(ps) =>
        TotalConcat(RecordsOf(w, ps), rest, d, idf);
        TotalRecordsOf(w, ps, d, idf);
      case None =>
        assert [] + rest == rest;
    }
  }

  lemma {:induction false} TotalSelected(rs: seq<TermFrequency>, ws: seq<string>, d: DocId, idf: map<string, real>,
                                         miss: string -> real)
    requires Distinct(ws) && forall i :: 0 <= i < |rs| ==> rs[i].word in ws
    requires forall w :: miss(w) == MissTerm(rs, d, idf, w)
    ensures TotalScore(rs, d, idf) == Sum(ws, miss)
  {
    hide Weigh, TermOf, GroupOf, Sum, MissTerm;
    if rs == [] {
      forall i | 0 <= i < |ws| ensures miss(ws[i]) == 0.0 {
        MissTermNil(d, idf, ws[i]);
      }
      SumConstant(ws, miss, 0.0);
    } else {
      var f: string -> real := w => MissTerm(rs[1..], d, idf, w);
      var only: string -> real := w => if w == rs[0].word then TermOf(rs[0], d, idf) else 0.0;
      TotalSelected(rs[1..], ws, d, idf, f);
      SumOnly(ws, rs[0].word, only);
      forall i | 0 <= i < |ws| ensures miss(ws[i]) == f(ws[i]) + only(ws[i]) {
        MissTermCons(rs, ws[i], d, idf);
      }
      SumAdd(ws, f, only, miss);
    }
  }

  lemma MissTermNil(d: DocId, idf: map<string, real>, w: string)
    ensures MissTerm([], d, idf, w) == 0.0
  {
  }

  lemma MissTermCons(rs: seq<TermFrequency>, w: string, d: DocId, idf: map<string, real>)
    requires rs != []
    ensures MissTerm(rs, d, idf, w)
         == MissTerm(rs[1..], d, idf, w) + if w == rs[0].word then TermOf(rs[0], d, idf) else 0.0
  {
    var g, p := GroupOf(rs[1..], w), Posting(rs[0].docId, rs[0].wordFrequency);
    if w == rs[0].word {
      assert ([p] + g)[1..] == g;
      Distribute(if p.docId == d then p.frequency else 0.0, FrequencyIn(g, d), IdfOf(idf, w));
    } else {
      assert [] + g == g;
    }
  }

  // ---------- the closed form ----------

  /** One distinct word's share: m(w) times tf(d, w) * idf(w). */
  function Share(cache: PostingCache, rs: seq<TermFrequency>, tokens: seq<string>, idf: map<string, real>, d: DocId,
                 w: string): real
  {
    Times(Multiplicity(cache, tokens, w), Weigh(View(cache, rs, w), d, idf, w))
  }

  /** For every cache state and query, and any listing of the query's distinct words, the total of
      a document is the sum of the words' shares. */
  lemma ExactTotal(cache: PostingCache, rs: seq<TermFrequency>, tokens: seq<string>, ws: seq<string>, d: DocId,
                   idf: map<string, real>, share: string -> real)
    requires Lists(ws, set w | w in tokens)
    requires forall i :: 0 <= i < |rs| ==> rs[i].word in Missed(cache, tokens)
    requires forall w :: share(w) == Share(cache, rs, tokens, idf, d, w)
    ensures TotalScore(HitRecords(cache, tokens) + rs, d, idf) == Sum(ws, share)
  {
    hide Weigh, TotalScore, HitRecords, Missed, Share, HitTerm, MissTerm;
    var hit: string -> real, miss: string -> real := w => HitTerm(cache, d, idf, w), w => MissTerm(rs, d, idf, w);
    var hits: string -> real := w => Times(Count(tokens, w), hit(w));
    TotalConcat(HitRecords(cache, tokens), rs, d, idf);
    TotalHits(cache, tokens, d, idf, hit);
    SumByMultiplicity(tokens, ws, hit, hits);
    MissedMembers(cache, tokens);
    TotalSelected(rs, ws, d, idf, miss);
    forall i | 0 <= i < |ws| ensures share(ws[i]) == hits(ws[i]) + miss(ws[i]) {
      ShareSplits(cache, rs, tokens, idf, d, ws[i]);
    }
    SumAdd(ws, hits, miss, share);
  }

  lemma ShareSplits(cache: PostingCache, rs: seq<TermFrequency>, tokens: seq<string>, idf: map<string, real>, d: DocId,
                    w: string)
    requires forall i :: 0 <= i < |rs| ==> !Resident(cache, rs[i].word)
    ensures Share(cache, rs, tokens, idf, d, w)
         == Times(Count(tokens, w), HitTerm(cache, d, idf, w)) + MissTerm(rs, d, idf, w)
  {
    if Resident(cache, w) {
      GroupAbsent(rs, w);
    } else {
      TimesZero(Count(tokens, w));
      TimesOne(MissTerm(rs, d, idf, w));
    }
  }

  lemma TimesOne(x: real)
    ensures Times(1, x) == x
  {
    assert Times(0, x) == 0.0;
  }

  lemma {:induction false} TimesZero(n: nat)
    ensures Times(n, 0.0) == 0.0
  {
    if n > 0 {
      TimesZero(n - 1);
    }
  }

  lemma {:induction false} GroupAbsent(rs: seq<TermFrequency>, w: string)
    requires forall i :: 0 <= i < |rs| ==> rs[i].word != w
    ensures GroupOf(rs, w) == []
  {
    if rs != [] {
      GroupAbsent(rs[1..], w);
    }
  }

  lemma {:induction false} MissedMembers(cache: PostingCache, tokens: seq<string>)
    ensures forall w :: w in Missed(cache, tokens) <==> w in tokens && !Resident(cache, w)
  {
    if tokens != [] {
      MissedMembers(cache, tokens[1..]);
      assert tokens == [tokens[0]] + tokens[1..];
    }
  }

  // ---------- posting lists and the table ----------

  function TableFrequency(tf: TermTable, d: DocId, w: string): real {
    if (d, w) in tf then tf[(d, w)] else 0.0
  }

  ghost predicate DistinctDocs(ps: seq<Posting>) {
    forall i, j :: 0 <= i < j < |ps| ==> ps[i].docId != ps[j].docId
  }

  /** ps is the full posting list of w: every row of the word once. */
  ghost predicate IsPostingList(ps: seq<Posting>, tf: TermTable, w: string) {
    && DistinctDocs(ps)
    && (forall i :: 0 <= i < |ps| ==> (ps[i].docId, w) in tf && ps[i].frequency == tf[(ps[i].docId, w)])
    && (forall d :: (d, w) in tf ==> exists i :: 0 <= i < |ps| && ps[i].docId == d)
  }

  lemma {:induction false} FrequencyAt(ps: seq<Posting>, d: DocId)
    requires DistinctDocs(ps)
    ensures forall i :: 0 <= i < |ps| && ps[i].docId == d ==> FrequencyIn(ps, d) == ps[i].frequency
    ensures (forall i :: 0 <= i < |ps| ==> ps[i].docId != d) ==> FrequencyIn(ps, d) == 0.0
  {
    if ps != [] {
      FrequencyAt(ps[1..], d);
      if ps[0].docId == d {
        assert forall i :: 0 <= i < |ps[1..]| ==> ps[1..][i] == ps[i + 1];
      }
      forall i | 0 <= i < |ps| && ps[i].docId == d ensures FrequencyIn(ps, d) == ps[i].frequency {
        if i > 0 {
          assert ps[1..][i - 1] == ps[i];
        }
      }
    }
  }

  lemma PostingListFrequency(ps: seq<Posting>, tf: TermTable, w: string, d: DocId)
    requires IsPostingList(ps, tf, w)
    ensures FrequencyIn(ps, d) == TableFrequency(tf, d, w)
  {
    FrequencyAt(ps, d);
  }

  lemma {:induction false} GroupMembers(rs: seq<TermFrequency>, w: string)
    ensures forall p :: p in GroupOf(rs, w) <==> TermFrequency(p.docId, w, p.frequency) in rs
  {
    if rs != [] {
      GroupMembers(rs[1..], w);
      assert rs == [rs[0]] + rs[1..];
    }
  }

  lemma {:induction false} GroupDistinct(rs: seq<TermFrequency>, w: string)
    requires forall i, j :: 0 <= i < j < |rs| ==> (rs[i].docId, rs[i].word) != (rs[j].docId, rs[j].word)
    ensures DistinctDocs(GroupOf(rs, w))
  {
    if rs != [] {
      GroupDistinct(rs[1..], w);
      GroupMembers(rs[1..], w);
      var g := GroupOf(rs[1..], w);
      forall i | 0 <= i < |g| && rs[0].word == w ensures g[i].docId != rs[0].docId {
        assert g[i] in g;
        assert TermFrequency(g[i].docId, w, g[i].frequency) in rs[1..];
      }
    }
  }

  /** Grouping the rows of one select gives each selected word its full posting list. */
  lemma SelectedGroup(rs: seq<TermFrequency>, tf: TermTable, words: seq<string>, w: string)
    requires Selects(rs, tf, words) && w in words
    ensures IsPostingList(GroupOf(rs, w), tf, w)
  {
    var g := GroupOf(rs, w);
    GroupMembers(rs, w);
    GroupDistinct(rs, w);
    forall i | 0 <= i < |g| ensures (g[i].docId, w) in tf && g[i].frequency == tf[(g[i].docId, w)] {
      assert g[i] in g;
      var k :| 0 <= k < |rs| && rs[k] == TermFrequency(g[i].docId, w, g[i].frequency);
    }
    forall d | (d, w) in tf ensures exists i :: 0 <= i < |g| && g[i].docId == d {
      var k :| 0 <= k < |rs| && rs[k].docId == d && rs[k].word == w;
      assert rs[k] in rs && Posting(d, rs[k].wordFrequency) in g;
    }
  }

  // ---------- searches over up-to-date caches ----------

  /** The cached lists of the query's words are what the table holds now. */
  ghost predicate UpToDate(cache: PostingCache, tf: TermTable, tokens: seq<string>) {
    forall w :: w in tokens && Resident(cache, w) ==> IsPostingList(Lookup(cache, w).value, tf, w)
  }

  lemma UpToDateView(cache: PostingCache, rs: seq<TermFrequency>, tf: TermTable, tokens: seq<string>, w: string)
    requires UpToDate(cache, tf, tokens) && Selects(rs, tf, Missed(cache, tokens)) && w in tokens
    ensures IsPostingList(View(cache, rs, w), tf, w)
  {
    if !Resident(cache, w) {
      MissedMembers(cache, tokens);
      SelectedGroup(rs, tf, Missed(cache, tokens), w);
    }
  }

  /** tf * idf as the table and the IDF table have them now. */
  function TableWeight(tf: TermTable, idf: map<string, real>, d: DocId, w: string): real {
    TableFrequency(tf, d, w) * IdfOf(idf, w)
  }

  function TableShare(cache: PostingCache, tf: TermTable, tokens: seq<string>, idf: map<string, real>, d: DocId,
                      w: string): real
  {
    Times(Multiplicity(cache, tokens, w), TableWeight(tf, idf, d, w))
  }

  lemma ShareOfTable(cache: PostingCache, rs: seq<TermFrequency>, tf: TermTable, tokens: seq<string>,
                     idf: map<string, real>, d: DocId, w: string)
    requires FrequencyIn(View(cache, rs, w), d) == TableFrequency(tf, d, w)
    ensures Share(cache, rs, tokens, idf, d, w) == TableShare(cache, tf, tokens, idf, d, w)
  {
  }

  /** Over an up-to-date cache a document's total depends on the cache only through which words hit. */
  lemma UpToDateTotal(cache: PostingCache, rs: seq<TermFrequency>, tf: TermTable, tokens: seq<string>, ws: seq<string>,
                      d: DocId, idf: map<string, real>, share: string -> real)
    requires Lists(ws, set w | w in tokens)
    requires UpToDate(cache, tf, tokens) && Selects(rs, tf, Missed(cache, tokens))
    requires forall w :: share(w) == TableShare(cache, tf, tokens, idf, d, w)
    ensures TotalScore(HitRecords(cache, tokens) + rs, d, idf) == Sum(ws, share)
  {
    hide TotalScore, HitRecords, Missed, Share, TableShare;
    var exact: string -> real := w => Share(cache, rs, tokens, idf, d, w);
    ExactTotal(cache, rs, tokens, ws, d, idf, exact);
    forall i | 0 <= i < |ws| ensures exact(ws[i]) == share(ws[i]) {
      assert ws[i] in ws;
      UpToDateView(cache, rs, tf, tokens, ws[i]);
      PostingListFrequency(View(cache, rs, ws[i]), tf, ws[i], d);
      ShareOfTable(cache, rs, tf, tokens, idf, d, ws[i]);
    }
    SumCongruent(ws, exact, share);
  }

  /** A document is scored exactly when it has a row for some query word. */
  lemma ScoredDocuments(cache: PostingCache, rs: seq<TermFrequency>, tf: TermTable, tokens: seq<string>, d: DocId)
    requires UpToDate(cache, tf, tokens) && Selects(rs, tf, Missed(cache, tokens))
    ensures (exists r :: r in HitRecords(cache, tokens) + rs && r.docId == d)
            <==> exists w :: w in tokens && (d, w) in tf
  {
    hide HitRecords, Missed, Lookup;
    HitMembers(cache, tokens);
    MissedMembers(cache, tokens);
    if r :| r in HitRecords(cache, tokens) + rs && r.docId == d {
      assert (d, r.word) in tf by {
        if r in HitRecords(cache, tokens) {
          var ps := Lookup(cache, r.word).value;
          var i :| 0 <= i < |ps| && ps[i] == Posting(d, r.wordFrequency);
        } else {
          var i :| 0 <= i < |rs| && rs[i] == r;
        }
      }
    }
    if w :| w in tokens && (d, w) in tf {
      if Resident(cache, w) {
        var ps := Lookup(cache, w).value;
        var i :| 0 <= i < |ps| && ps[i].docId == d;
        assert TermFrequency(d, w, ps[i].frequency) in HitRecords(cache, tokens);
      } else {
        var i :| 0 <= i < |rs| && rs[i].docId == d && rs[i].word == w;
        assert rs[i] in rs;
      }
    }
  }

  lemma {:induction false} HitMembers(cache: PostingCache, tokens: seq<string>)
    ensures forall r :: r in HitRecords(cache, tokens) <==>
              && r.word in tokens && Resident(cache, r.word)
              && Posting(r.docId, r.wordFrequency) in Lookup(cache, r.word).value
  {
    if tokens != [] {
      HitMembers(cache, tokens[1..]);
      assert tokens == [tokens[0]] + tokens[1..];
      if Resident(cache, tokens[0]) {
        RecordsMembers(tokens[0], Lookup(cache, tokens[0]).value);
      }
    }
  }

  lemma RecordsMembers(w: string, ps: seq<Posting>)
    ensures forall r :: r in RecordsOf(w, ps) <==> r.word == w && Posting(r.docId, r.wordFrequency) in ps
  {
    forall r: TermFrequency | r.word == w && Posting(r.docId, r.wordFrequency) in ps ensures r in RecordsOf(w, ps) {
      var i :| 0 <= i < |ps| && ps[i] == Posting(r.docId, r.wordFrequency);
      assert RecordsOf(w, ps)[i] == r;
    }
  }

  lemma TotalsAgree(c1: PostingCache, rs1: seq<TermFrequency>, c2: PostingCache, rs2: seq<TermFrequency>,
                    tf: TermTable, tokens: seq<string>, d: DocId, idf: map<string, real>)
    requires Distinct(tokens)
    requires UpToDate(c1, tf, tokens) && Selects(rs1, tf, Missed(c1, tokens))
    requires UpToDate(c2, tf, tokens) && Selects(rs2, tf, Missed(c2, tokens))
    ensures TotalScore(HitRecords(c1, tokens) + rs1, d, idf) == TotalScore(HitRecords(c2, tokens) + rs2, d, idf)
  {
    hide TotalScore, HitRecords, Missed, TableWeight;
    var s1: string -> real := w => TableShare(c1, tf, tokens, idf, d, w);
    var s2: string -> real := w => TableShare(c2, tf, tokens, idf, d, w);
    UpToDateTotal(c1, rs1, tf, tokens, tokens, d, idf, s1);
    UpToDateTotal(c2, rs2, tf, tokens, tokens, d, idf, s2);
    forall i | 0 <= i < |tokens| ensures s1(tokens[i]) == s2(tokens[i]) {
      CountDistinct(tokens, tokens[i]);
    }
    SumCongruent(tokens, s1, s2);
  }

  /** With distinct query tokens, any two up-to-date caches give the same scores; in particular any
      one gives the scores of an empty cache. */
  lemma ScoresIndependentOfCache(c1: PostingCache, rs1: seq<TermFrequency>, c2: PostingCache, rs2: seq<TermFrequency>,
                                 tf: TermTable, tokens: seq<string>, idf: map<string, real>)
    requires Distinct(tokens) && tokens != []
    requires UpToDate(c1, tf, tokens) && Selects(rs1, tf, Missed(c1, tokens))
    requires UpToDate(c2, tf, tokens) && Selects(rs2, tf, Missed(c2, tokens))
    ensures Scores(HitRecords(c1, tokens) + rs1, idf, |tokens|) == Scores(HitRecords(c2, tokens) + rs2, idf, |tokens|)
  {
    hide TotalScore, HitRecords, Missed;
    var m1 := Scores(HitRecords(c1, tokens) + rs1, idf, |tokens|);
    var m2 := Scores(HitRecords(c2, tokens) + rs2, idf, |tokens|);
    forall d ensures d in m1 <==> d in m2 {
      ScoredDocuments(c1, rs1, tf, tokens, d);
      ScoredDocuments(c2, rs2, tf, tokens, d);
    }
    forall d | d in m1 ensures m1[d] == m2[d] {
      TotalsAgree(c1, rs1, c2, rs2, tf, tokens, d, idf);
    }
  }

  function Repeats(tokens: seq<string>, w: string): nat {
    if Count(tokens, w) > 0 then Count(tokens, w) - 1 else 0
  }

  /** With repeated tokens the cache shows: over an up-to-date cache the total exceeds the total of
      an empty cache by tf * idf once for every repetition of a word that hit. */
  lemma RepeatedTokenSkew(cache: PostingCache, rs: seq<TermFrequency>, all: seq<TermFrequency>, tf: TermTable,
                          tokens: seq<string>, ws: seq<string>, d: DocId, idf: map<string, real>, skew: string -> real)
    requires Lists(ws, set w | w in tokens)
    requires UpToDate(cache, tf, tokens) && Selects(rs, tf, Missed(cache, tokens)) && Selects(all, tf, tokens)
    requires forall w :: skew(w) == if Resident(cache, w)
                                    then Times(Repeats(tokens, w), TableWeight(tf, idf, d, w)) else 0.0
    ensures TotalScore(HitRecords(cache, tokens) + rs, d, idf) == TotalScore(all, d, idf) + Sum(ws, skew)
  {
    hide TotalScore, HitRecords, Missed, TableWeight;
    var s1: string -> real := w => TableShare(cache, tf, tokens, idf, d, w);
    var s2: string -> real := w => TableShare([], tf, tokens, idf, d, w);
    MissedByEmpty(tokens);
    UpToDateTotal(cache, rs, tf, tokens, ws, d, idf, s1);
    UpToDateTotal([], all, tf, tokens, ws, d, idf, s2);
    assert [] + all == all;
    forall i | 0 <= i < |ws| ensures s1(ws[i]) == s2(ws[i]) + skew(ws[i]) {
      var w := ws[i];
      assert w in ws;
      CountMember(tokens, w);
      TimesOne(TableWeight(tf, idf, d, w));
    }
    SumAdd(ws, s2, skew, s1);
  }

  lemma {:induction false} MissedByEmpty(tokens: seq<string>)
    ensures Missed([], tokens) == tokens && HitRecords([], tokens) == []
  {
    if tokens != [] {
      MissedByEmpty(tokens[1..]);
    }
  }
}
