/** What one search does, on values: the hit/miss split, the records it scores, the cache refill,
    the ranking and the text fetch. */
module SearchSpec {
  import opened Wrappers
  import opened Sums
  import opened RecencyList
  import opened TermFrequency

  datatype Posting = Posting(docId: DocId, frequency: real)
  datatype Scored = Scored(docId: DocId, score: real)
  datatype SearchResult = SearchResult(docId: DocId, score: real, text: string)

  type PostingCache = seq<Entry<string, seq<Posting>>>
  type DocumentCache = seq<Entry<DocId, string>>
  type TermTable = map<(DocId, string), real>

  // ---------- hits and misses ----------

  function AfterGets(cache: PostingCache, tokens: seq<string>): PostingCache
    decreases |tokens|
  {
    if tokens == [] then cache else AfterGets(AfterGet(cache, tokens[0]), tokens[1..])
  }

  function RecordsOf(w: string, ps: seq<Posting>): (rs: seq<TermFrequency>)
    ensures |rs| == |ps|
    ensures forall i :: 0 <= i < |ps| ==> rs[i] == TermFrequency(ps[i].docId, w, ps[i].frequency)
  {
    seq(|ps|, i requires 0 <= i < |ps| => TermFrequency(ps[i].docId, w, ps[i].frequency))
  }

  /** The records of the cached tokens: once per occurrence, since tokens are not deduplicated. */
  function HitRecords(cache: PostingCache, tokens: seq<string>): seq<TermFrequency> {
    if tokens == [] then []
    else
      (match Lookup(cache, tokens[0]) case Some(ps) => RecordsOf(tokens[0], ps) case None => [])
      + HitRecords(cache, tokens[1..])
  }

  function Missed(cache: PostingCache, tokens: seq<string>): seq<string> {
    if tokens == [] then []
    else (if Resident(cache, tokens[0]) then [] else [tokens[0]]) + Missed(cache, tokens[1..])
  }

  /** rs is a result of SELECT ... WHERE word IN (words): every matching row once, in any order. */
  ghost predicate Selects(rs: seq<TermFrequency>, tf: TermTable, words: seq<string>) {
    && (forall i :: 0 <= i < |rs| ==>
          && rs[i].word in words
          && (rs[i].docId, rs[i].word) in tf
          && rs[i].wordFrequency == tf[(rs[i].docId, rs[i].word)])
    && (forall i, j :: 0 <= i < j < |rs| ==> (rs[i].docId, rs[i].word) != (rs[j].docId, rs[j].word))
    && (forall d, w :: (d, w) in tf && w in words ==> exists i :: 0 <= i < |rs| && rs[i].docId == d && rs[i].word == w)
  }

  // ---------- refilling the posting cache ----------

  function GroupOf(rs: seq<TermFrequency>, w: string): seq<Posting> {
    if rs == [] then []
    else (if rs[0].word == w then [Posting(rs[0].docId, rs[0].wordFrequency)] else []) + GroupOf(rs[1..], w)
  }

  /** The words of the records, each once, in the arbitrary order the hash map is iterated in. */
  ghost predicate GroupOrder(rs: seq<TermFrequency>, order: seq<string>) {
    && Distinct(order)
    && forall w :: w in order <==> exists i :: 0 <= i < |rs| && rs[i].word == w
  }

  function PutGroups(cap: Capacity, cache: PostingCache, rs: seq<TermFrequency>, order: seq<string>): PostingCache
    decreases |order|
  {
    if order == [] then cache
    else PutGroups(cap, AfterPut(cap, cache, order[0], GroupOf(rs, order[0])), rs, order[1..])
  }

  // ---------- scores ----------

  function IdfOf(idf: map<string, real>, w: string): real {
    if w in idf then idf[w] else 0.0
  }

  function TermOf(r: TermFrequency, d: DocId, idf: map<string, real>): real {
    if r.docId == d then r.wordFrequency * IdfOf(idf, r.word) else 0.0
  }

  function TotalScore(rs: seq<TermFrequency>, d: DocId, idf: map<string, real>): real {
    if rs == [] then 0.0 else TermOf(rs[0], d, idf) + TotalScore(rs[1..], d, idf)
  }

  function Scores(rs: seq<TermFrequency>, idf: map<string, real>, n: nat): map<DocId, real>
    requires n > 0
  {
    map d | d in (set r | r in rs :: r.docId) :: TotalScore(rs, d, idf) / n as real
  }

  // ---------- ranking ----------

  /** sorted_docs.size() > top_k compares as unsigned, so a negative top_k never truncates. */
  function Limit(topK: int, size: nat): nat {
    if 0 <= topK < size then topK else size
  }

  /** A best-first prefix of the scored documents; ties may come in any order. */
  ghost predicate TopK(ranked: seq<Scored>, scores: map<DocId, real>, topK: int) {
    && |ranked| == Limit(topK, |scores|)
    && (forall i :: 0 <= i < |ranked| ==> ranked[i].docId in scores && ranked[i].score == scores[ranked[i].docId])
    && (forall i, j :: 0 <= i < j < |ranked| ==> ranked[i].docId != ranked[j].docId)
    && (forall i, j :: 0 <= i < j < |ranked| ==> ranked[i].score >= ranked[j].score)
    && (forall d, i :: d in scores && 0 <= i < |ranked| && (forall j :: 0 <= j < |ranked| ==> ranked[j].docId != d)
          ==> scores[d] <= ranked[i].score)
  }

  // ---------- fetching the texts ----------

  /** SELECT by id; failed says that the statement did not return a result. */
  function Select(documents: map<DocId, string>, d: DocId, failed: bool): Option<string> {
    if !failed && d in documents then Some(documents[d]) else None
  }

  /** One iteration: a cache hit is a touch; a row read from the table is cached; otherwise the
      text stays empty and the cache unchanged. */
  function FetchStep(cap: Capacity, cache: DocumentCache, documents: map<DocId, string>, d: DocId, failed: bool)
    : (DocumentCache, string)
  {
    match Lookup(cache, d)
    case Some(t) => (AfterGet(cache, d), t)
    case None =>
      match Select(documents, d, failed)
      case Some(t) => (AfterPut(cap, cache, d, t), t)
      case None => (cache, "")
  }

  /** The fetch loop; fails[i] is whether the select for result i fails. */
  function Fetch(cap: Capacity, cache: DocumentCache, documents: map<DocId, string>, ranked: seq<Scored>,
                 fails: seq<bool>): (DocumentCache, seq<SearchResult>)
    requires |fails| == |ranked|
    decreases |ranked|
  {
    if ranked == [] then (cache, [])
    else
      var (next, text) := FetchStep(cap, cache, documents, ranked[0].docId, fails[0]);
      var (last, rest) := Fetch(cap, next, documents, ranked[1..], fails[1..]);
      (last, [SearchResult(ranked[0].docId, ranked[0].score, text)] + rest)
  }
}
