/** The engine with whole requests as steps: the two tables, the two caches and the IDF table, and
    what each request may do to them. The services in Services.dfy are proved to take these steps. */
module Engine {
  import opened Wrappers
  import opened RecencyList
  import opened Tokenizer
  import opened TermFrequency
  import opened SearchSpec

  /** origin remembers the text whose insert generated each id, also of inserts rolled back later. */
  datatype World = World(
    documents: map<DocId, string>,
    tf: TermTable,
    docCache: DocumentCache,
    tfCache: PostingCache,
    idf: map<string, real>,
    origin: map<DocId, string>)

  datatype Config = Config(docCap: Capacity, tfCap: Capacity)

  /** The choices a search leaves to the database, the hash maps and the sort: the selected rows,
      the order the groups are cached in, the ranking among ties, and which text selects fail. */
  datatype SearchRun = SearchRun(rows: seq<TermFrequency>, order: seq<string>, ranked: seq<Scored>, fails: seq<bool>)

  datatype Request =
    | Create(text: string, generated: Option<DocId>, created: Option<DocId>)
    | Read(id: DocId, failed: bool, found: Option<string>)
    | Delete(id: DocId, deleted: bool)
    | Search(query: string, topK: int, run: SearchRun, results: seq<SearchResult>)
    | UpdateIdf(table: map<string, real>)

  /** The rows of term_frequency for one document. */
  function RowsOf(d: DocId, text: string): TermTable {
    map w | w in Tokenize(text) :: (d, w) := StoredFrequency(Tokenize(text), w)
  }

  /** A create inserts the row under a fresh id (or fails to), then the term frequencies; it rolls
      back unless every insert succeeded and there was at least one token. */
  ghost predicate CreateStep(c: Config, w: World, text: string, generated: Option<DocId>, created: Option<DocId>,
                             w': World)
  {
    && (generated.Some? ==> generated.value !in w.origin)
    && (created.Some? ==> created == generated && Tokenize(text) != [])
    && w'.origin == (if generated.Some? then w.origin[generated.value := text] else w.origin)
    && w'.tfCache == w.tfCache && w'.idf == w.idf
    && (created.None? ==> w'.documents == w.documents && w'.tf == w.tf && w'.docCache == w.docCache)
    && (created.Some? ==>
          && w'.documents == w.documents[created.value := text]
          && w'.tf == w.tf + RowsOf(created.value, text)
          && w'.docCache == AfterPut(c.docCap, w.docCache, created.value, text))
  }

  /** A read that misses the cache goes to the table and does not fill the cache. */
  ghost predicate ReadStep(w: World, id: DocId, failed: bool, found: Option<string>, w': World) {
    && w' == w.(docCache := AfterGet(w.docCache, id))
    && found == if Resident(w.docCache, id) then Lookup(w.docCache, id) else Select(w.documents, id, failed)
  }

  /** A delete clears the posting cache only when the document was in the document cache. */
  ghost predicate DeleteStep(w: World, id: DocId, deleted: bool, w': World) {
    && (deleted ==> id in w.documents)
    && w' == w.(
         docCache := Without(w.docCache, id),
         tfCache := if Resident(w.docCache, id) then [] else w.tfCache,
         documents := if deleted then w.documents - {id} else w.documents,
         tf := if deleted then (map k | k in w.tf && k.0 != id :: w.tf[k]) else w.tf)
  }

  /** Everything a search scores: the cached lists, then the selected rows. */
  function Records(w: World, tokens: seq<string>, run: SearchRun): seq<TermFrequency> {
    HitRecords(w.tfCache, tokens) + run.rows
  }

  ghost predicate SearchStep(c: Config, w: World, query: string, topK: int, run: SearchRun, results: seq<SearchResult>,
                             w': World)
  {
    var tokens := Tokenize(query);
    if tokens == [] then w' == w && results == []
    else
      var missed := Missed(w.tfCache, tokens);
      && (run.rows == [] || Selects(run.rows, w.tf, missed))
      && GroupOrder(run.rows, run.order)
      && TopK(run.ranked, Scores(Records(w, tokens, run), w.idf, |tokens|), topK)
      && |run.fails| == |run.ranked|
      && w' == w.(
           tfCache := PutGroups(c.tfCap, AfterGets(w.tfCache, tokens), run.rows, run.order),
           docCache := Fetch(c.docCap, w.docCache, w.documents, run.ranked, run.fails).0)
      && results == Fetch(c.docCap, w.docCache, w.documents, run.ranked, run.fails).1
  }

  ghost predicate Next(c: Config, w: World, req: Request, w': World) {
    match req
    case Create(text, generated, created) => CreateStep(c, w, text, generated, created, w')
    case Read(id, failed, found) => ReadStep(w, id, failed, found, w')
    case Delete(id, deleted) => DeleteStep(w, id, deleted, w')
    case Search(query, topK, run, results) => SearchStep(c, w, query, topK, run, results, w')
    case UpdateIdf(table) => w' == w.(idf := table)
  }

  ghost predicate Initial(w: World) {
    w.documents == map[] && w.tf == map[] && w.docCache == [] && w.tfCache == [] && w.idf == map[] && w.origin == map[]
  }

  /** A run of the engine: worlds[i] is the state after the first i requests. */
  ghost predicate Behaviour(c: Config, worlds: seq<World>, reqs: seq<Request>) {
    && |worlds| == |reqs| + 1
    && Initial(worlds[0])
    && forall i :: 0 <= i < |reqs| ==> Next(c, worlds[i], reqs[i], worlds[i + 1])
  }
}
