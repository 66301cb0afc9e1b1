/** The records the crawler keeps and the store it keeps them in:
    `PasteModel`, and `DataBase`, a thin wrapper over a TinyDB table that
    behaves as an append-only sequence of documents. */
module Store {
  import opened Results
  import opened Dates

  /** `PasteModel`: one paste as the scraper assembles it. */
  datatype Paste = Paste(author: string, title: string, content: string, date: Instant)

  /** One stored TinyDB document: the fields of a paste, with the date kept
      as the text `str()` gives for the instant. */
  datatype Document = Document(author: string, title: string, content: string, date: string)

  /** The document `update_data_base` inserts for one paste. */
  function ToDocument(p: Paste): Document
  {
    Document(p.author, p.title, p.content, InstantText(p.date))
  }

  /** The documents for a list of pastes, one per paste and in list order. */
  function ToDocuments(ps: seq<Paste>): (ds: seq<Document>)
    ensures |ds| == |ps|
    ensures forall i :: 0 <= i < |ps| ==> ds[i] == ToDocument(ps[i])
  {
    if ps == [] then [] else [ToDocument(ps[0])] + ToDocuments(ps[1..])
  }

  lemma ToDocumentsSnoc(ps: seq<Paste>, p: Paste)
    ensures ToDocuments(ps + [p]) == ToDocuments(ps) + [ToDocument(p)]
  {
  }

  /** TinyDB's `contains(where('date') == value)`: a scan of the table for a
      document with that date text. */
  function HasDate(docs: seq<Document>, value: string): (b: bool)
    ensures b <==> exists i :: 0 <= i < |docs| && docs[i].date == value
  {
    if docs == [] then false
    else if docs[0].date == value then true
    else
      var rest := HasDate(docs[1..], value);
      assert rest ==> exists i :: 0 <= i < |docs| && docs[i].date == value by {
        if rest {
          var i :| 0 <= i < |docs[1..]| && docs[1..][i].date == value;
          assert docs[i + 1].date == value;
        }
      }
      assert (exists i :: 0 <= i < |docs| && docs[i].date == value) ==> rest by {
        forall i | 1 <= i < |docs| && docs[i].date == value ensures rest {
          assert docs[1..][i - 1].date == value;
        }
      }
      rest
  }

  /** Appending documents keeps every date already present and adds exactly
      the dates of the new documents. */
  lemma {:induction false} HasDateConcat(a: seq<Document>, b: seq<Document>, value: string)
    ensures HasDate(a + b, value) <==> HasDate(a, value) || HasDate(b, value)
  {
    if HasDate(a + b, value) {
      var i :| 0 <= i < |a + b| && (a + b)[i].date == value;
      if i < |a| {
        assert a[i].date == value;
      } else {
        assert b[i - |a|].date == value;
      }
    }
    if HasDate(a, value) {
      var i :| 0 <= i < |a| && a[i].date == value;
      assert (a + b)[i].date == value;
    }
    if HasDate(b, value) {
      var i :| 0 <= i < |b| && b[i].date == value;
      assert (a + b)[|a| + i].date == value;
    }
  }

  lemma SameText(a: Instant, t: Instant)
    requires ValidInstant(a) && ValidInstant(t)
    ensures InstantText(a) == InstantText(t) <==> a == t
  {
    if InstantText(a) == InstantText(t) {
      InstantTextInjective(a, t);
    }
  }

  /** Dates are stored as the text of the instant, and distinct valid
      instants have distinct texts: asking the store for the text of an
      instant is asking whether a paste with that very instant was stored. */
  lemma StoredInstant(ps: seq<Paste>, t: Instant)
    requires ValidInstant(t)
    requires forall i :: 0 <= i < |ps| ==> ValidInstant(ps[i].date)
    ensures HasDate(ToDocuments(ps), InstantText(t)) <==> exists i :: 0 <= i < |ps| && ps[i].date == t
  {
    forall i | 0 <= i < |ps|
      ensures InstantText(ps[i].date) == InstantText(t) <==> ps[i].date == t
    {
      SameText(ps[i].date, t);
    }
  }

  /** `DataBase`: the table of documents, modelled in memory. */
  class DataBase {
    var documents: seq<Document>

    constructor (initial: seq<Document>)
      ensures documents == initial
    {
      documents := initial;
    }

    /** `update_data_base`: insert one document per paste, in list order. */
    method UpdateDataBase(newPastes: seq<Paste>)
      modifies this
      ensures documents == old(documents) + ToDocuments(newPastes)
    {
      for i := 0 to |newPastes|
        invariant documents == old(documents) + ToDocuments(newPastes[..i])
      {
        ToDocumentsSnoc(newPastes[..i], newPastes[i]);
        PrefixSnoc(newPastes, i);
        documents := documents + [ToDocument(newPastes[i])];
      }
      assert newPastes[..|newPastes|] == newPastes;
    }

    /** `query_date`: whether some stored document has this date text. */
    function QueryDate(value: string): (b: bool)
      reads this
      ensures b <==> exists i :: 0 <= i < |documents| && documents[i].date == value
    {
      HasDate(documents, value)
    }

    /** `clear_db`: TinyDB's `purge` empties the table. */
    method ClearDb()
      modifies this
      ensures documents == []
    {
      documents := [];
    }

    /** `get_number_of_documents`: `len` of the table. */
    function GetNumberOfDocuments(): (n: nat)
      reads this
      ensures n == |documents|
    {
      |documents|
    }
  }
}
