/** The two services over shared tables, caches and IDF table. Every request method is proved to take
    the corresponding step of the engine. */
module Services {
  import opened Wrappers
  import opened RecencyList
  import opened LruCache
  import opened Tokenizer
  import opened TermFrequency
  import opened SearchSpec
  import opened Engine
  import opened Database
  import opened IdfUpdater

  /** What the services share: one database, the two cache singletons and the IDF table. */
  class Backend {
    const db: Tables
    const docCache: Cache<DocId, string>
    const tfCache: Cache<string, seq<Posting>>
    const idfTable: IdfTable

    ghost predicate Valid()
      reads db, docCache, docCache.Repr, tfCache, tfCache.Repr
    {
      && db.Valid() && docCache.Valid() && tfCache.Valid()
      && docCache.Repr !! tfCache.Repr
      && db !in docCache.Repr + tfCache.Repr
      && idfTable !in docCache.Repr + tfCache.Repr
    }

    ghost function Abstract(): World
      requires Valid()
      reads db, idfTable, docCache, docCache.Repr, tfCache, tfCache.Repr
    {
      World(db.documents, db.tf, docCache.Entries(), tfCache.Entries(), idfTable.idfMap, db.origin)
    }

    ghost function Configuration(): Config {
      Config(docCache.capacity, tfCache.capacity)
    }

    constructor (docCap: Capacity, tfCap: Capacity)
      ensures Valid() && Initial(Abstract()) && Configuration() == Config(docCap, tfCap)
      ensures fresh(db) && fresh(idfTable) && fresh(docCache.Repr) && fresh(tfCache.Repr)
    {
      db := new Tables();
      docCache := new Cache(docCap);
      tfCache := new Cache(tfCap);
      idfTable := new IdfTable();
    }
  }

  class DocumentService {
    const backend: Backend

    constructor (b: Backend)
      ensures backend == b
    {
      backend := b;
    }

    /** The statements of a create all work: the insert of the row and that of each term. */
    ghost predicate InsertsWork(text: string, rowWorks: bool, termWorks: nat -> bool) {
      rowWorks && forall i :: 0 <= i < |set w | w in Tokenize(text)| ==> termWorks(i)
    }

    /** The transaction up to its commit: the document row, then all its terms, or nothing. */
    method InsertAll(text: string, generated: DocId, rowWorks: bool, termWorks: nat -> bool) returns (id: Option<DocId>)
      requires backend.db.Valid() && generated !in backend.db.origin
      modifies backend.db
      ensures backend.db.Valid()
      ensures id == if Tokenize(text) != [] && InsertsWork(text, rowWorks, termWorks) then Some(generated) else None
      ensures var origin := old(backend.db.origin);
              backend.db.origin == if rowWorks then origin[generated := text] else origin
      ensures id.None? ==> backend.db.documents == old(backend.db.documents) && backend.db.tf == old(backend.db.tf)
      ensures id.Some? ==>
                && backend.db.documents == old(backend.db.documents)[generated := text]
                && backend.db.tf == old(backend.db.tf) + RowsOf(generated, text)
    {
      hide Tokenize, RowsOf, Upserted, Working, Computed;
      var db := backend.db;
      db.BeginTransaction();
      id := db.InsertDocument(text, generated, rowWorks);
      if id.None? {
        db.Rollback();
        return;
      }
      var termFreqs := TokenizeAndCompute(id.value, text);
      OnePerToken(termFreqs, generated, Tokenize(text));
      var ok := db.InsertTermFrequenciesBulk(termFreqs, termWorks);
      if !ok {
        db.Rollback();
        return None;
      }
      UpsertedIsRows(old(backend.db.tf), termFreqs, generated, text);
    }

    lemma OnePerToken(freqs: seq<TermFrequency>, id: DocId, tokens: seq<string>)
      requires Computed(freqs, id, tokens)
      ensures |freqs| == |set w | w in tokens| && (freqs == [] <==> tokens == [])
      ensures forall i :: 0 <= i < |freqs| ==> freqs[i].docId == id
    {
      assert freqs != [] ==> freqs[0].word in tokens;
      if tokens != [] {
        FrequenciesSumToOne(freqs, id, tokens);
        assert tokens[0] in tokens;
      } else {
        assert (set w | w in tokens) == {};
      }
    }

    /** What the inserts and the put leave in the fields is a create step. */
    lemma CreateFields(c: Config, w: World, text: string, generated: DocId, rowWorks: bool, id: Option<DocId>,
                       w': World)
      requires generated !in w.origin && w'.tfCache == w.tfCache && w'.idf == w.idf
      requires w'.origin == if rowWorks then w.origin[generated := text] else w.origin
      requires id.None? ==> w'.documents == w.documents && w'.tf == w.tf && w'.docCache == w.docCache
      requires id.Some? ==>
                 && id.value == generated && rowWorks && Tokenize(text) != []
                 && w'.documents == w.documents[generated := text] && w'.tf == w.tf + RowsOf(generated, text)
                 && w'.docCache == AfterPut(c.docCap, w.docCache, generated, text)
      ensures CreateStep(c, w, text, if rowWorks then Some(generated) else None, id, w')
    {
      hide AfterPut, Tokenize, RowsOf;
    }

    /** The end of a successful create: the document is cached before the commit. */
    method CacheAndCommit(id: DocId, text: string)
      requires backend.Valid()
      modifies backend.db, backend.docCache.Repr
      ensures backend.Valid() && fresh(backend.docCache.Repr - old(backend.docCache.Repr))
      ensures backend.tfCache.Repr == old(backend.tfCache.Repr)
      ensures var w := old(backend.Abstract());
              backend.Abstract() == w.(docCache := AfterPut(backend.docCache.capacity, w.docCache, id, text))
    {
      hide Cache.Valid, Cache.Entries, Tables.Valid, AfterPut;
      backend.docCache.Put(id, text);
      backend.db.Commit();
    }

    /** One create request. generated is the id the server would give the row; the other inputs say which
        inserts work. */
    method CreateDocument(text: string, generated: DocId, rowWorks: bool, termWorks: nat -> bool)
      returns (id: Option<DocId>)
      requires backend.Valid() && generated !in backend.db.origin
      modifies backend.db, backend.docCache.Repr
      ensures backend.Valid() && fresh(backend.docCache.Repr - old(backend.docCache.Repr))
      ensures backend.tfCache.Repr == old(backend.tfCache.Repr)
      ensures id == if Tokenize(text) != [] && InsertsWork(text, rowWorks, termWorks) then Some(generated) else None
      ensures CreateStep(backend.Configuration(), old(backend.Abstract()), text,
                         if rowWorks then Some(generated) else None, id, backend.Abstract())
    {
      hide Cache.Valid, Cache.Entries, Tables.Valid, AfterPut, Tokenize, RowsOf, CreateStep;
      ghost var before := backend.Abstract();
      id := InsertAll(text, generated, rowWorks, termWorks);
      if id.Some? {
        CacheAndCommit(id.value, text);
      }
      CreateFields(backend.Configuration(), before, text, generated, rowWorks, id, backend.Abstract());
    }

    /** works: whether the select works, should the cache miss. */
    method GetDocumentById(id: DocId, works: bool) returns (text: Option<string>)
      requires backend.Valid()
      modifies backend.docCache.Repr
      ensures backend.Valid() && backend.docCache.Repr == old(backend.docCache.Repr)
      ensures ReadStep(old(backend.Abstract()), id, !works, text, backend.Abstract())
    {
      hide Cache.Valid, Cache.Entries, Tables.Valid, AfterGet, Lookup;
      text := backend.docCache.Get(id);
      if text.None? {
        text := backend.db.GetDocumentById(id, works);
      }
    }

    /** The first half of a delete: out of the document cache and, if it was there, no cached postings. */
    method Evict(id: DocId)
      requires backend.Valid()
      modifies backend.docCache.Repr, backend.tfCache.Repr
      ensures backend.Valid() && backend.docCache.Repr == old(backend.docCache.Repr)
      ensures backend.tfCache.Repr == old(backend.tfCache.Repr)
      ensures var w := old(backend.Abstract());
              backend.Abstract() == w.(docCache := Without(w.docCache, id),
                                       tfCache := if Resident(w.docCache, id) then [] else w.tfCache)
    {
      hide Cache.Valid, Cache.Entries, Tables.Valid, Without, Lookup;
      var isPresent := backend.docCache.Remove(id);
      if isPresent {
        backend.tfCache.Clear();
      }
    }

    method DeleteDocumentById(id: DocId, works: bool) returns (deleted: bool)
      requires backend.Valid()
      modifies backend.db, backend.docCache.Repr, backend.tfCache.Repr
      ensures backend.Valid() && backend.docCache.Repr == old(backend.docCache.Repr)
      ensures backend.tfCache.Repr == old(backend.tfCache.Repr)
      ensures deleted <==> works && id in old(backend.db.documents)
      ensures DeleteStep(old(backend.Abstract()), id, deleted, backend.Abstract())
    {
      hide Cache.Valid, Cache.Entries, Tables.Valid, Without, Lookup;
      Evict(id);
      deleted := backend.db.DeleteDocument(id, works);
    }
  }
}
