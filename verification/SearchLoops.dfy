/** One iteration of each loop of a search, on values. */
module SearchLoops {
  import opened RecencyList
  import opened TermFrequency
  import opened SearchSpec
  import opened Scoring

  lemma {:induction false} GroupSnoc(rs: seq<TermFrequency>, r: TermFrequency, w: string)
    ensures GroupOf(rs + [r], w) == GroupOf(rs, w) + if r.word == w then [Posting(r.docId, r.wordFrequency)] else []
  {
    if rs == [] {
      assert [r][1..] == [];
    } else {
      GroupSnoc(rs[1..], r, w);
      assert (rs + [r])[1..] == rs[1..] + [r];
    }
  }

  lemma {:induction false} PutGroupsSnoc(cap: Capacity, cache: PostingCache, rs: seq<TermFrequency>,
                                         order: seq<string>, w: string)
    ensures PutGroups(cap, cache, rs, order + [w]) == AfterPut(cap, PutGroups(cap, cache, rs, order), w, GroupOf(rs, w))
    decreases |order|
  {
    hide AfterPut, GroupOf;
    if order == [] {
      assert ([] + [w])[1..] == [];
    } else {
      PutGroupsSnoc(cap, AfterPut(cap, cache, order[0], GroupOf(rs, order[0])), rs, order[1..], w);
      assert (order + [w])[1..] == order[1..] + [w];
    }
  }

  lemma {:induction false} TotalSnoc(rs: seq<TermFrequency>, r: TermFrequency, d: DocId, idf: map<string, real>)
    ensures TotalScore(rs + [r], d, idf) == TotalScore(rs, d, idf) + TermOf(r, d, idf)
  {
    TotalConcat(rs, [r], d, idf);
    assert [r][1..] == [];
  }

  /** A get changes the order of the cache, not what its keys map to. */
  lemma GetKeepsLookups<K(!new), V>(cap: Capacity, l: seq<Entry<K, V>>, k: K)
    requires DistinctKeys(l) && |l| <= cap
    ensures forall k' :: Lookup(AfterGet(l, k), k') == Lookup(l, k')
  {
    forall k' ensures Lookup(AfterGet(l, k), k') == Lookup(l, k') {
      StepLookup(cap, l, Op<K, V>.Get(k), k');
    }
  }

  /** Before token i: what is collected so far, followed by what the remaining tokens will add. */
  ghost predicate TokensLeft(start: PostingCache, now: PostingCache, tokens: seq<string>, i: nat,
                             records: seq<TermFrequency>, missed: seq<string>)
  {
    && i <= |tokens|
    && AfterGets(now, tokens[i..]) == AfterGets(start, tokens)
    && (forall k :: Lookup(now, k) == Lookup(start, k))
    && records + HitRecords(start, tokens[i..]) == HitRecords(start, tokens)
    && missed + Missed(start, tokens[i..]) == Missed(start, tokens)
  }

  lemma TokensStart(start: PostingCache, tokens: seq<string>)
    ensures TokensLeft(start, start, tokens, 0, [], [])
  {
    hide AfterGets, HitRecords, Missed, Lookup;
    assert tokens[0..] == tokens;
  }

  lemma TokensEnd(start: PostingCache, now: PostingCache, tokens: seq<string>, records: seq<TermFrequency>,
                  missed: seq<string>)
    requires TokensLeft(start, now, tokens, |tokens|, records, missed)
    ensures now == AfterGets(start, tokens) && records == HitRecords(start, tokens) && missed == Missed(start, tokens)
  {
    assert tokens[|tokens|..] == [];
  }

  lemma TokensStep(cap: Capacity, start: PostingCache, now: PostingCache, tokens: seq<string>, i: nat,
                   records: seq<TermFrequency>, missed: seq<string>)
    requires DistinctKeys(now) && |now| <= cap && i < |tokens| && TokensLeft(start, now, tokens, i, records, missed)
    ensures match Lookup(now, tokens[i])
            case Some(ps) =>
              TokensLeft(start, AfterGet(now, tokens[i]), tokens, i + 1, records + RecordsOf(tokens[i], ps), missed)
            case None =>
              TokensLeft(start, AfterGet(now, tokens[i]), tokens, i + 1, records, missed + [tokens[i]])
  {
    hide AfterGet, AfterGets, HitRecords, Missed, Lookup, RecordsOf;
    var rest := tokens[i..];
    assert rest[1..] == tokens[i + 1..] && rest[0] == tokens[i];
    GetKeepsLookups(cap, now, tokens[i]);
    GetsUnfold(now, rest);
    RecordsUnfold(start, rest, records);
    MissedUnfold(start, rest, missed);
    assert missed + [] == missed && records + [] == records;
  }

  lemma Regroup<T>(a: seq<T>, b: seq<T>, c: seq<T>)
    ensures a + (b + c) == a + b + c
  {
  }

  lemma GetsUnfold(now: PostingCache, rest: seq<string>)
    requires rest != []
    ensures AfterGets(now, rest) == AfterGets(AfterGet(now, rest[0]), rest[1..])
  {
    hide AfterGet;
  }

  lemma RecordsUnfold(start: PostingCache, rest: seq<string>, records: seq<TermFrequency>)
    requires rest != []
    ensures records + HitRecords(start, rest)
         == records + (match Lookup(start, rest[0]) case Some(ps) => RecordsOf(rest[0], ps) case None => [])
            + HitRecords(start, rest[1..])
  {
    hide Lookup, RecordsOf;
    var hits := match Lookup(start, rest[0]) case Some(ps) => RecordsOf(rest[0], ps) case None => [];
    Regroup(records, hits, HitRecords(start, rest[1..]));
  }

  lemma MissedUnfold(start: PostingCache, rest: seq<string>, missed: seq<string>)
    requires rest != []
    ensures missed + Missed(start, rest)
         == missed + (if Resident(start, rest[0]) then [] else [rest[0]]) + Missed(start, rest[1..])
  {
    hide Lookup;
    Regroup(missed, if Resident(start, rest[0]) then [] else [rest[0]], Missed(start, rest[1..]));
  }

  /** The groups of the rows, as the temporary hash map holds them. */
  ghost predicate Grouped(groups: map<string, seq<Posting>>, rows: seq<TermFrequency>) {
    && (forall w :: w in groups <==> exists i :: 0 <= i < |rows| && rows[i].word == w)
    && (forall w :: w in groups ==> groups[w] == GroupOf(rows, w))
  }

  /** The row is appended to the group of its word. */
  function AddedTo(groups: map<string, seq<Posting>>, r: TermFrequency): map<string, seq<Posting>> {
    var group := if r.word in groups then groups[r.word] else [];
    groups[r.word := group + [Posting(r.docId, r.wordFrequency)]]
  }

  lemma GroupedSnoc(groups: map<string, seq<Posting>>, rows: seq<TermFrequency>, r: TermFrequency)
    requires Grouped(groups, rows)
    ensures Grouped(AddedTo(groups, r), rows + [r])
  {
    hide GroupOf;
    var all := rows + [r];
    var groups' := AddedTo(groups, r);
    forall w ensures w in groups' <==> exists i :: 0 <= i < |all| && all[i].word == w {
      if w in groups {
        var i :| 0 <= i < |rows| && rows[i].word == w;
        assert all[i].word == w;
      }
      assert all[|rows|].word == r.word;
    }
    forall w | w in groups' ensures groups'[w] == GroupOf(all, w) {
      GroupSnoc(rows, r, w);
      if w !in groups {
        GroupAbsent(rows, w);
      }
    }
  }

  lemma {:induction false} FetchSnoc(cap: Capacity, cache: DocumentCache, documents: map<DocId, string>,
                                     ranked: seq<Scored>, fails: seq<bool>, s: Scored, failed: bool)
    requires |fails| == |ranked|
    ensures var (mid, results) := Fetch(cap, cache, documents, ranked, fails);
            var (next, text) := FetchStep(cap, mid, documents, s.docId, failed);
            Fetch(cap, cache, documents, ranked + [s], fails + [failed])
              == (next, results + [SearchResult(s.docId, s.score, text)])
    decreases |ranked|
  {
    hide FetchStep;
    if ranked == [] {
      var (next, text) := FetchStep(cap, cache, documents, s.docId, failed);
      assert ranked + [s] == [s] && fails + [failed] == [failed] && [s][1..] == [] && [failed][1..] == [];
      assert Fetch(cap, next, documents, [], []) == (next, []);
      assert [SearchResult(s.docId, s.score, text)] + [] == [] + [SearchResult(s.docId, s.score, text)];
    } else {
      var (next, text) := FetchStep(cap, cache, documents, ranked[0].docId, fails[0]);
      var (last, rest) := Fetch(cap, next, documents, ranked[1..], fails[1..]);
      FetchSnoc(cap, next, documents, ranked[1..], fails[1..], s, failed);
      var r0 := SearchResult(ranked[0].docId, ranked[0].score, text);
      var tail := FetchStep(cap, last, documents, s.docId, failed).1;
      Regroup([r0], rest, [SearchResult(s.docId, s.score, tail)]);
      assert (ranked + [s])[1..] == ranked[1..] + [s] && (fails + [failed])[1..] == fails[1..] + [failed];
    }
  }
}
