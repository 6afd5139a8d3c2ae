/** The two tables and the statements the repositories send. A statement may fail at any time: whether it
    works is an input of each method. BEGIN and COMMIT are taken to succeed. */
module Database {
  import opened Wrappers
  import opened Tokenizer
  import opened TermFrequency
  import opened SearchSpec
  import opened Engine

  datatype IdfStats = IdfStats(word: string, documentCount: nat)

  /** The documents that have a row for the word. */
  function DocumentsWith(tf: TermTable, w: string): set<DocId> {
    set k | k in tf && k.1 == w :: k.0
  }

  /** The result of SELECT word, COUNT(DISTINCT doc_id) ... GROUP BY word, in any order. */
  ghost predicate Groups(stats: seq<IdfStats>, tf: TermTable) {
    && (forall i, j :: 0 <= i < j < |stats| ==> stats[i].word != stats[j].word)
    && (forall i :: 0 <= i < |stats| ==> stats[i].documentCount == |DocumentsWith(tf, stats[i].word)|)
    && (forall i :: 0 <= i < |stats| ==> DocumentsWith(tf, stats[i].word) != {})
    && (forall k :: k in tf ==> exists i :: 0 <= i < |stats| && stats[i].word == k.1)
  }

  /** The upserts of a bulk insert, in order; each value goes through its six-decimal text. */
  function Upserted(tf: TermTable, freqs: seq<TermFrequency>): TermTable {
    if freqs == [] then tf
    else
      var last := freqs[|freqs| - 1];
      Upserted(tf, freqs[..|freqs| - 1])[(last.docId, last.word) := Round6(last.wordFrequency)]
  }

  /** The inserts of a list that work: works(i) is whether statement i does, and the document must exist. */
  function Working(freqs: seq<TermFrequency>, works: nat -> bool, stored: set<DocId>): seq<TermFrequency> {
    if freqs == [] then []
    else
      var n := |freqs| - 1;
      Working(freqs[..n], works, stored) + if works(n) && freqs[n].docId in stored then [freqs[n]] else []
  }

  lemma NoInserts(tf: TermTable, works: nat -> bool, stored: set<DocId>)
    ensures Upserted(tf, Working([], works, stored)) == tf
  {
  }

  /** One more insert attempted: it takes effect if it works, and changes nothing if not. */
  lemma InsertSnoc(tf: TermTable, freqs: seq<TermFrequency>, works: nat -> bool, stored: set<DocId>, i: nat)
    requires i < |freqs|
    ensures var before := Upserted(tf, Working(freqs[..i], works, stored));
            var inserted := before[(freqs[i].docId, freqs[i].word) := Round6(freqs[i].wordFrequency)];
            Upserted(tf, Working(freqs[..i + 1], works, stored))
              == if works(i) && freqs[i].docId in stored then inserted else before
  {
    var done := Working(freqs[..i], works, stored);
    assert freqs[..i + 1][..i] == freqs[..i];
    assert (done + [freqs[i]])[..|done|] == done;
    assert done + [] == done;
  }

  lemma LastWorks(freqs: seq<TermFrequency>, works: nat -> bool, stored: set<DocId>, n: nat)
    requires |freqs| == n + 1 && works(n) && freqs[n].docId in stored
    ensures Working(freqs, works, stored) == Working(freqs[..n], works, stored) + [freqs[n]]
  {
  }

  lemma {:induction false} AllWorking(freqs: seq<TermFrequency>, works: nat -> bool, stored: set<DocId>)
    requires forall i :: 0 <= i < |freqs| ==> works(i) && freqs[i].docId in stored
    ensures Working(freqs, works, stored) == freqs
  {
    if freqs != [] {
      hide Working;
      var n := |freqs| - 1;
      AllWorking(freqs[..n], works, stored);
      LastWorks(freqs, works, stored, n);
      assert freqs[..n] + [freqs[n]] == freqs;
    }
  }

  /** The rows of a select parsed so far, of which the rows with keys in rest are still to come. */
  ghost predicate Parsed(rows: seq<TermFrequency>, tf: TermTable, words: seq<string>, rest: set<(DocId, string)>) {
    && (forall k :: k in rest ==> k in tf && k.1 in words)
    && (forall i :: 0 <= i < |rows| ==>
          var k := (rows[i].docId, rows[i].word);
          k in tf && k.1 in words && k !in rest && rows[i].wordFrequency == tf[k])
    && (forall i, j :: 0 <= i < j < |rows| ==> (rows[i].docId, rows[i].word) != (rows[j].docId, rows[j].word))
    && (forall d, w :: (d, w) in tf && w in words ==>
          (d, w) in rest || exists i :: 0 <= i < |rows| && rows[i].docId == d && rows[i].word == w)
  }

  lemma ParsedSnoc(rows: seq<TermFrequency>, tf: TermTable, words: seq<string>, rest: set<(DocId, string)>,
                   k: (DocId, string))
    requires Parsed(rows, tf, words, rest) && k in rest
    ensures Parsed(rows + [TermFrequency(k.0, k.1, tf[k])], tf, words, rest - {k})
  {
    var all := rows + [TermFrequency(k.0, k.1, tf[k])];
    assert all[|rows|].docId == k.0 && all[|rows|].word == k.1;
    forall d, w | (d, w) in tf && w in words && (d, w) !in rest - {k}
      ensures exists i :: 0 <= i < |all| && all[i].docId == d && all[i].word == w
    {
      if (d, w) != k {
        var i :| 0 <= i < |rows| && rows[i].docId == d && rows[i].word == w;
        assert all[i] == rows[i];
      }
    }
  }

  class Tables {
    var documents: map<DocId, string>
    var tf: TermTable
    var savedDocuments: map<DocId, string>  // what a rollback restores
    var savedTf: TermTable
    ghost var origin: map<DocId, string>    // the text each id was generated for

    /** The foreign key of term_frequency, and ids only ever come from the generator; also of the
        state a rollback would restore. */
    ghost predicate Valid()
      reads this
    {
      && (forall k :: k in tf ==> k.0 in documents)
      && (forall k :: k in savedTf ==> k.0 in savedDocuments)
      && documents.Keys <= origin.Keys && savedDocuments.Keys <= origin.Keys
    }

    constructor ()
      ensures Valid() && documents == map[] && tf == map[] && origin == map[]
    {
      documents, tf, savedDocuments, savedTf, origin := map[], map[], map[], map[], map[];
    }

    method BeginTransaction()
      requires Valid()
      modifies this`savedDocuments, this`savedTf
      ensures Valid() && savedDocuments == documents && savedTf == tf
    {
      savedDocuments, savedTf := documents, tf;
    }

    /** The inserts are already in place; from here on nothing restores the saved state. */
    method Commit()
      requires Valid()
      modifies this`savedDocuments, this`savedTf
      ensures Valid()
    {
      savedDocuments, savedTf := documents, tf;
    }

    method Rollback()
      requires Valid()
      modifies this`documents, this`tf
      ensures Valid() && documents == savedDocuments && tf == savedTf
    {
      documents, tf := savedDocuments, savedTf;
    }

    /** INSERT INTO documents ... RETURNING doc_id; the server generates a fresh id. */
    method InsertDocument(text: string, generated: DocId, works: bool) returns (id: Option<DocId>)
      requires Valid() && generated !in origin
      modifies this`documents, this`origin
      ensures Valid()
      ensures id == if works then Some(generated) else None
      ensures documents == if works then old(documents)[generated := text] else old(documents)
      ensures origin == if works then old(origin)[generated := text] else old(origin)
    {
      if !works {
        return None;
      }
      documents := documents[generated := text];
      origin := origin[generated := text];
      return Some(generated);
    }

    /** The bulk insert: false on an empty list or when any statement fails; it does not stop at the
        first failure. A row whose document does not exist violates the foreign key. */
    method InsertTermFrequenciesBulk(freqs: seq<TermFrequency>, works: nat -> bool) returns (allSuccess: bool)
      requires Valid()
      modifies this`tf
      ensures Valid()
      ensures allSuccess <==> freqs != [] && forall i :: 0 <= i < |freqs| ==> works(i) && freqs[i].docId in documents
      ensures tf == Upserted(old(tf), Working(freqs, works, documents.Keys))
      ensures allSuccess ==> tf == Upserted(old(tf), freqs)
    {
      hide Upserted, Working;
      NoInserts(tf, works, documents.Keys);
      if freqs == [] {
        return false;
      }
      allSuccess := true;
      var i := 0;
      while i < |freqs|
        invariant 0 <= i <= |freqs| && Valid()
        invariant allSuccess <==> forall j :: 0 <= j < i ==> works(j) && freqs[j].docId in documents
        invariant tf == Upserted(old(tf), Working(freqs[..i], works, documents.Keys))
      {
        var f := freqs[i];
        InsertSnoc(old(tf), freqs, works, documents.Keys, i);
        if works(i) && f.docId in documents {
          tf := tf[(f.docId, f.word) := Round6(f.wordFrequency)];
        } else {
          allSuccess := false;
        }
        i := i + 1;
      }
      assert freqs[..|freqs|] == freqs;
      if allSuccess {
        AllWorking(freqs, works, documents.Keys);
      }
    }

    /** SELECT by id. */
    method GetDocumentById(id: DocId, works: bool) returns (text: Option<string>)
      ensures text == if works && id in documents then Some(documents[id]) else None
    {
      text := if works && id in documents then Some(documents[id]) else None;
    }

    /** DELETE by id, with ON DELETE CASCADE; true when a row was affected. */
    method DeleteDocument(id: DocId, works: bool) returns (deleted: bool)
      requires Valid()
      modifies this`documents, this`tf
      ensures Valid()
      ensures deleted <==> works && id in old(documents)
      ensures documents == (if deleted then old(documents) - {id} else old(documents))
      ensures tf == (if deleted then (map k | k in old(tf) && k.0 != id :: old(tf)[k]) else old(tf))
    {
      if !works || id !in documents {
        return false;
      }
      documents := documents - {id};
      tf := map k | k in tf && k.0 != id :: tf[k];
      return true;
    }

    /** SELECT ... WHERE word IN (words): the parse loop over the rows, in the server's order. A
        failed statement reads as no rows. */
    method GetWordStatsForQuery(words: seq<string>, works: bool) returns (rows: seq<TermFrequency>)
      ensures if works then Selects(rows, tf, words) else rows == []
    {
      rows := [];
      if words == [] || !works {
        return;
      }
      var rest := set k | k in tf && k.1 in words;
      while rest != {}
        invariant Parsed(rows, tf, words, rest)
        decreases rest
      {
        var k :| k in rest;
        ParsedSnoc(rows, tf, words, rest, k);
        rows := rows + [TermFrequency(k.0, k.1, tf[k])];
        rest := rest - {k};
      }
    }

    /** The word counts; a failed statement reads as none. */
    method GetAllIdfStats(works: bool) returns (stats: seq<IdfStats>)
      ensures if works then Groups(stats, tf) else stats == []
    {
      stats := [];
      if !works {
        return;
      }
      var words := set k | k in tf :: k.1;
      var rest := words;
      while rest != {}
        invariant rest <= words
        invariant forall i :: 0 <= i < |stats| ==> stats[i].word in words - rest
        invariant forall i, j :: 0 <= i < j < |stats| ==> stats[i].word != stats[j].word
        invariant forall i :: 0 <= i < |stats| ==> stats[i].documentCount == |DocumentsWith(tf, stats[i].word)|
        invariant forall w :: w in words - rest ==> exists i :: 0 <= i < |stats| && stats[i].word == w
        decreases rest
      {
        var w :| w in rest;
        ghost var before, done := stats, words - rest;
        stats := stats + [IdfStats(w, |DocumentsWith(tf, w)|)];
        rest := rest - {w};
        assert stats[|before|].word == w;
        forall v | v in words - rest ensures exists i :: 0 <= i < |stats| && stats[i].word == v {
          if v in done {
            var i :| 0 <= i < |before| && before[i].word == v;
            assert stats[i] == before[i];
          }
        }
      }
      forall i | 0 <= i < |stats| ensures DocumentsWith(tf, stats[i].word) != {} {
        assert stats[i].word in words;
        var k :| k in tf && k.1 == stats[i].word;
        assert k.0 in DocumentsWith(tf, stats[i].word);
      }
      forall k | k in tf ensures exists i :: 0 <= i < |stats| && stats[i].word == k.1 {
        assert k.1 in words - rest;
      }
    }

    /** SELECT COUNT(*); a failed statement reads as 0. */
    method GetTotalDocuments(works: bool) returns (total: nat)
      ensures total == if works then |documents| else 0
    {
      total := if works then |documents| else 0;
    }
  }

  // ---------- a successful bulk insert of a document's own terms ----------

  ghost predicate HasRow(freqs: seq<TermFrequency>, d: DocId, w: string) {
    exists i :: 0 <= i < |freqs| && freqs[i].docId == d && freqs[i].word == w
  }

  lemma HasRowSnoc(freqs: seq<TermFrequency>, d: DocId, w: string)
    requires freqs != []
    ensures var n := |freqs| - 1;
            HasRow(freqs, d, w) <==> HasRow(freqs[..n], d, w) || (freqs[n].docId == d && freqs[n].word == w)
  {
    var n := |freqs| - 1;
    if i :| 0 <= i < |freqs| && freqs[i].docId == d && freqs[i].word == w {
      assert i < n ==> freqs[..n][i] == freqs[i];
    }
    if i :| 0 <= i < n && freqs[..n][i].docId == d && freqs[..n][i].word == w {
      assert freqs[i] == freqs[..n][i];
    }
  }

  /** An upsert list with no key twice: which rows there are afterwards, and with what values. */
  lemma {:induction false} UpsertedAt(tf: TermTable, freqs: seq<TermFrequency>, d: DocId, w: string)
    requires forall i, j :: 0 <= i < j < |freqs| ==> (freqs[i].docId, freqs[i].word) != (freqs[j].docId, freqs[j].word)
    ensures (d, w) in Upserted(tf, freqs) <==> (d, w) in tf || HasRow(freqs, d, w)
    ensures !HasRow(freqs, d, w) && (d, w) in tf ==> Upserted(tf, freqs)[(d, w)] == tf[(d, w)]
    ensures forall i :: 0 <= i < |freqs| && freqs[i].docId == d && freqs[i].word == w ==>
              Upserted(tf, freqs)[(d, w)] == Round6(freqs[i].wordFrequency)
  {
    hide Round6;
    if freqs != [] {
      var n := |freqs| - 1;
      UpsertedAt(tf, freqs[..n], d, w);
      HasRowSnoc(freqs, d, w);
      forall i | 0 <= i < |freqs| && freqs[i].docId == d && freqs[i].word == w
        ensures Upserted(tf, freqs)[(d, w)] == Round6(freqs[i].wordFrequency)
      {
        if i < n {
          assert freqs[..n][i] == freqs[i];
          assert (freqs[i].docId, freqs[i].word) != (freqs[n].docId, freqs[n].word);
        }
      }
    }
  }

  /** Inserting the computed terms of a new document adds exactly its rows. */
  lemma UpsertedIsRows(tf: TermTable, freqs: seq<TermFrequency>, d: DocId, text: string)
    requires Computed(freqs, d, Tokenize(text)) && Tokenize(text) != []
    requires forall w :: (d, w) !in tf
    ensures Upserted(tf, freqs) == tf + RowsOf(d, text)
  {
    hide Round6, Tokenize, Frequency;
    var u, v := Upserted(tf, freqs), tf + RowsOf(d, text);
    forall k ensures k in u <==> k in v {
      UpsertedAt(tf, freqs, k.0, k.1);
      assert k == (k.0, k.1);
    }
    forall k | k in u ensures u[k] == v[k] {
      UpsertedAt(tf, freqs, k.0, k.1);
      assert k == (k.0, k.1);
    }
  }

  /** All computed terms of a document, inserted where it has no rows yet, are its rows of the index. */
  lemma AllUpserted(freqs: seq<TermFrequency>, next: nat, d: DocId, text: string)
    requires Computed(freqs, d, Tokenize(text)) && freqs != [] && next == |freqs|
    ensures Tokenize(text) != [] && Upserted(map[], freqs[..next]) == RowsOf(d, text)
  {
    hide Round6, Tokenize, Upserted, RowsOf;
    assert freqs[..next] == freqs;
    assert freqs[0].word in Tokenize(text);
    UpsertedIsRows(map[], freqs, d, text);
    assert map[] + RowsOf(d, text) == RowsOf(d, text);
  }
}
