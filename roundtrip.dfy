/**
 * What survives a trip through the files: importing an XML export or the JSON
 * snapshot of the table creates the same books, up to the fields the file
 * does not carry and the defaults the import fills in.
 */
module RoundTrip {
  import opened Wrappers
  import opened Builtins
  import opened Models
  import opened ElementTree
  import opened Store
  import opened Utils
  import opened Views

  // --------------------------------------------------------------------- XML

  /** The map from each export field of `b` whose value is not `None` to `str(value)`. */
  function ExportedFields(b: Book): FieldMap {
    map k | k in XmlKeys && XmlValue(b, k) != Null :: Str(PyStr(XmlValue(b, k)))
  }

  predicate DistinctKeys(f: Pairs) {
    forall i, j :: 0 <= i < j < |f| ==> f[i].0 != f[j].0
  }

  lemma XmlKeysDistinct()
    ensures forall i, j :: 0 <= i < j < |XmlKeys| ==> XmlKeys[i] != XmlKeys[j]
  {
  }

  /** Reading back the children of one more item. */
  lemma ChildrenForFieldsSnoc(f: Pairs)
    requires f != []
    ensures var init := f[..|f| - 1];
            var p := f[|f| - 1];
            FieldsOf(ChildrenFor(f)) ==
              if p.1 == Null then FieldsOf(ChildrenFor(init))
              else FieldsOf(ChildrenFor(init))[p.0 := Str(PyStr(p.1))]
  {
    var init := f[..|f| - 1];
    var p := f[|f| - 1];
    if p.1 == Null {
      assert ChildrenFor(f) == ChildrenFor(init);
    } else {
      FieldsOfSnoc(ChildrenFor(init), Element(p.0, Some(PyStr(p.1)), []));
    }
  }

  /** Some item with key `k` has a value other than `None`. */
  predicate HasExportedKey(f: Pairs, k: string) {
    exists i :: 0 <= i < |f| && f[i].0 == k && f[i].1 != Null
  }

  /** The fields read back from the children are exactly the keys of the items whose value is not `None`. */
  lemma {:induction false} ChildrenForKeys(f: Pairs)
    ensures forall k :: k in FieldsOf(ChildrenFor(f)) <==> HasExportedKey(f, k)
    decreases |f|
  {
    if f != [] {
      var init := f[..|f| - 1];
      var p := f[|f| - 1];
      ChildrenForKeys(init);
      ChildrenForFieldsSnoc(f);
      forall k ensures HasExportedKey(f, k) <==> HasExportedKey(init, k) || (p.0 == k && p.1 != Null) {
        if HasExportedKey(f, k) {
          var i :| 0 <= i < |f| && f[i].0 == k && f[i].1 != Null;
          if i < |init| {
            assert init[i] == f[i];
          }
        }
        if HasExportedKey(init, k) {
          var i :| 0 <= i < |init| && init[i].0 == k && init[i].1 != Null;
          assert f[i] == init[i];
        }
      }
    }
  }

  /** With distinct keys, each item that is not `None` reads back as its `str`. */
  lemma {:induction false} ChildrenForValues(f: Pairs)
    requires DistinctKeys(f)
    ensures forall i :: 0 <= i < |f| && f[i].1 != Null ==>
              f[i].0 in FieldsOf(ChildrenFor(f)) && FieldsOf(ChildrenFor(f))[f[i].0] == Str(PyStr(f[i].1))
    decreases |f|
  {
    if f != [] {
      var init := f[..|f| - 1];
      var p := f[|f| - 1];
      ChildrenForValues(init);
      ChildrenForFieldsSnoc(f);
      var before := FieldsOf(ChildrenFor(init));
      var after := FieldsOf(ChildrenFor(f));
      forall i | 0 <= i < |f| && f[i].1 != Null
        ensures f[i].0 in after && after[f[i].0] == Str(PyStr(f[i].1))
      {
        if i < |init| {
          assert init[i] == f[i];
          assert f[i].0 in before && before[f[i].0] == Str(PyStr(f[i].1));
          if p.1 != Null {
            assert f[i].0 != p.0;
            assert after == before[p.0 := Str(PyStr(p.1))];
          } else {
            assert after == before;
          }
        } else {
          assert p == f[i] && after == before[p.0 := Str(PyStr(p.1))];
        }
      }
    }
  }

  /** Importing an exported `<book>` yields exactly the map from each non-`None` field name to `str(value)`. */
  lemma BookElementFields(b: Book)
    ensures FieldsOf(BookElement(b).children) == ExportedFields(b)
  {
    var f := XmlFields(b);
    XmlKeysDistinct();
    assert DistinctKeys(f);
    ChildrenForKeys(f);
    ChildrenForValues(f);
    var m := FieldsOf(BookElement(b).children);
    var e := ExportedFields(b);
    forall k ensures k in m <==> k in e {
      if k in e {
        var i :| 0 <= i < |XmlKeys| && XmlKeys[i] == k;
        assert f[i].0 == k;
      }
      if k in m {
        var i :| 0 <= i < |f| && f[i].0 == k && f[i].1 != Null;
        assert XmlKeys[i] == k;
      }
    }
    forall k | k in m ensures m[k] == e[k] {
      var i :| 0 <= i < |f| && f[i].0 == k && f[i].1 != Null;
    }
  }

  /** The book an import recreates from an XML export of `b`: missing `isbn`, `publisher` and `description` become `''`. */
  function XmlImported(b: Book, id: nat, now: Timestamp): Book {
    b.(id := id, createdAt := now, isbn := Some(b.isbn.GetOr("")), publisher := Some(""),
       description := Some(b.description.GetOr("")), langua := None)
  }

  /** The export keeps the required fields under their own names, as text. */
  lemma ExportedRequiredFields(b: Book)
    ensures var m := ExportedFields(b);
      && "title" in m && m["title"] == Str(b.title)
      && "author" in m && m["author"] == Str(b.author)
      && "genre" in m && m["genre"] == Str(b.genre)
      && "publication_year" in m && m["publication_year"] == Str(IntToString(b.publicationYear))
  {
    assert "title" in XmlKeys && "author" in XmlKeys && "publication_year" in XmlKeys && "genre" in XmlKeys;
  }

  /** The export has an optional field exactly when the book holds a value for it, and never `publisher`, `id` or `created_at`. */
  lemma ExportedOptionalFields(b: Book)
    ensures var m := ExportedFields(b);
      && ("isbn" in m <==> b.isbn.Some?) && (b.isbn.Some? ==> m["isbn"] == Str(b.isbn.value))
      && ("description" in m <==> b.description.Some?) && (b.description.Some? ==> m["description"] == Str(b.description.value))
      && ("langua" in m <==> b.langua.Some?) && (b.langua.Some? ==> m["langua"] == Str(b.langua.value))
      && ("page_count" in m <==> b.pageCount.Some?)
      && (b.pageCount.Some? ==> m["page_count"] == Str(IntToString(b.pageCount.value)))
      && "publisher" !in m && "id" !in m && "created_at" !in m
  {
    assert "isbn" in XmlKeys && "page_count" in XmlKeys && "description" in XmlKeys && "langua" in XmlKeys;
  }

  lemma ImportExportedBook(b: Book, id: nat, now: Timestamp)
    ensures MakeBook(ExportedFields(b), id, now) == Success(XmlImported(b, id, now))
  {
    ParseIntOfIntToString(b.publicationYear);
    if b.pageCount.Some? {
      ParseIntOfIntToString(b.pageCount.value);
    }
    ExportedRequiredFields(b);
    ExportedOptionalFields(b);
    assert RecordError(ExportedFields(b)).None?;
  }

  /** Reading an export's tree back gives one record per book, in table order. */
  lemma XmlRecordsOfExport(books: seq<Book>)
    ensures XmlRecords(XmlTree(books)) == seq(|books|, i requires 0 <= i < |books| => ExportedFields(books[i]))
  {
    var root := XmlTree(books);
    XmlRecordsOfBooks(root);
    forall i | 0 <= i < |books| ensures FieldsOf(root.children[i].children) == ExportedFields(books[i]) {
      BookElementFields(books[i]);
    }
  }

  /** A root whose children are all `<book>` elements yields one record per child. */
  lemma XmlRecordsOfBooks(root: Element)
    requires forall i :: 0 <= i < |root.children| ==> root.children[i].tag == "book"
    ensures XmlRecords(root) == seq(|root.children|, i requires 0 <= i < |root.children| => FieldsOf(root.children[i].children))
  {
    BookChildrenAll(root.children);
  }

  /** Importing the exported records of a table creates every book again, with consecutive ids. */
  lemma ImportExportedBooks(books: seq<Book>, firstId: nat, now: Timestamp)
    ensures ImportBatch(seq(|books|, i requires 0 <= i < |books| => ExportedFields(books[i])), firstId, now)
            == Batch(seq(|books|, i requires 0 <= i < |books| => XmlImported(books[i], firstId + i, now)), None)
  {
    var records := seq(|books|, i requires 0 <= i < |books| => ExportedFields(books[i]));
    var expected := seq(|books|, i requires 0 <= i < |books| => XmlImported(books[i], firstId + i, now));
    forall i | 0 <= i < |records| ensures MakeBook(records[i], firstId + i, now) == Success(expected[i]) {
      assert records[i] == ExportedFields(books[i]) && expected[i] == XmlImported(books[i], firstId + i, now);
      ImportExportedBook(books[i], firstId + i, now);
    }
    ImportBatchAllCreated(records, firstId, now, expected);
  }

  /** Exporting a table to XML and importing the tree creates every book again, in order, with consecutive ids. */
  lemma XmlRoundTrip(books: seq<Book>, firstId: nat, now: Timestamp)
    ensures ImportBatch(XmlRecords(XmlTree(books)), firstId, now)
            == Batch(seq(|books|, i requires 0 <= i < |books| => XmlImported(books[i], firstId + i, now)), None)
  {
    XmlRecordsOfExport(books);
    ImportExportedBooks(books, firstId, now);
  }

  // -------------------------------------------------------------------- JSON

  /** The book an import recreates from the JSON object of `b`: `publisher` becomes `''` and `langua` is lost; every other field is kept. */
  function JsonImported(b: Book, id: nat, now: Timestamp): Book {
    b.(id := id, createdAt := now, publisher := Some(""), langua := None)
  }

  lemma ImportJsonRecord(b: Book, id: nat, now: Timestamp)
    ensures MakeBook(JsonRecord(b), id, now) == Success(JsonImported(b, id, now))
  {
    var m := JsonRecord(b);
    assert "publisher" !in m;
    assert RecordError(m).None?;
  }

  /** Importing the JSON snapshot of a table creates every book again, in order, with consecutive ids. */
  lemma JsonRoundTrip(books: seq<Book>, firstId: nat, now: Timestamp)
    ensures ImportBatch(JsonSnapshot(books), firstId, now)
            == Batch(seq(|books|, i requires 0 <= i < |books| => JsonImported(books[i], firstId + i, now)), None)
  {
    var records := JsonSnapshot(books);
    var expected := seq(|books|, i requires 0 <= i < |books| => JsonImported(books[i], firstId + i, now));
    forall i | 0 <= i < |records| ensures MakeBook(records[i], firstId + i, now) == Success(expected[i]) {
      ImportJsonRecord(books[i], firstId + i, now);
    }
    ImportBatchAllCreated(records, firstId, now, expected);
  }

  /**
   * The JSON mirror: once `books.json` holds the snapshot of a table (as after
   * `save_books_to_json()`), importing what `load_books_from_json()` returns
   * recreates every book, in order, with consecutive ids.
   */
  lemma MirrorRoundTrip(dir: DataDirectory, books: seq<Book>, firstId: nat, now: Timestamp)
    requires dir.jsonSnapshot == Some(JsonSnapshot(books))
    ensures ImportBatch(dir.LoadBooksFromJson(), firstId, now)
            == Batch(seq(|books|, i requires 0 <= i < |books| => JsonImported(books[i], firstId + i, now)), None)
  {
    JsonRoundTrip(books, firstId, now);
  }
}
