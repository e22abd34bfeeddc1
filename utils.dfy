/**
 * `FileHandler`: the JSON snapshot of the book table, the XML export tree and
 * the listing of the data directory. Reading and writing files is outside the
 * model; what is written is.
 */
module Utils {
  import opened Wrappers
  import opened Builtins
  import opened Models
  import opened ElementTree

  // ------------------------------------------------------------ JSON snapshot

  /** One object of the JSON snapshot, as a dictionary. */
  type JsonObject = map<string, Value>

  const JsonKeys: set<string> := {"id", "title", "author", "isbn", "publication_year", "genre",
                                  "langua", "page_count", "description", "created_at"}

  /** The dictionary `save_books_to_json` builds for one book. */
  function JsonRecord(b: Book): (r: JsonObject)
    ensures r.Keys == JsonKeys
    ensures r["id"] == Int(b.id) && r["created_at"] == Str(b.createdAt)
    ensures r["title"] == Str(b.title) && r["author"] == Str(b.author)
    ensures r["publication_year"] == Int(b.publicationYear) && r["genre"] == Str(b.genre)
    ensures r["isbn"] == OptText(b.isbn) && r["langua"] == OptText(b.langua)
    ensures r["page_count"] == OptInt(b.pageCount) && r["description"] == OptText(b.description)
  {
    map[
      "id" := Int(b.id),
      "title" := Str(b.title),
      "author" := Str(b.author),
      "isbn" := OptText(b.isbn),
      "publication_year" := Int(b.publicationYear),
      "genre" := Str(b.genre),
      "langua" := OptText(b.langua),
      "page_count" := OptInt(b.pageCount),
      "description" := OptText(b.description),
      "created_at" := Str(b.createdAt)
    ]
  }

  /** The whole snapshot of a table, one object per book in table order. */
  function JsonSnapshot(books: seq<Book>): seq<JsonObject> {
    seq(|books|, i requires 0 <= i < |books| => JsonRecord(books[i]))
  }

  /** The loop of `save_books_to_json` that appends one dictionary per book. */
  method BooksToJson(books: seq<Book>) returns (data: seq<JsonObject>)
    ensures |data| == |books|
    ensures forall i :: 0 <= i < |books| ==> data[i] == JsonRecord(books[i])
  {
    data := [];
    for i := 0 to |books|
      invariant |data| == i
      invariant forall k :: 0 <= k < i ==> data[k] == JsonRecord(books[k])
    {
      data := data + [JsonRecord(books[i])];
    }
  }

  /** The data directory, reduced to the content of `books.json` (`None` while that file does not exist). */
  class DataDirectory {
    var jsonSnapshot: Option<seq<JsonObject>>

    constructor ()
      ensures jsonSnapshot == None
    {
      jsonSnapshot := None;
    }

    /** `save_books_to_json(books_data)`: overwrite `books.json` with the given data, or with a snapshot of `books`. */
    method SaveBooksToJson(booksData: Option<seq<JsonObject>>, books: seq<Book>)
      modifies this
      ensures booksData.Some? ==> jsonSnapshot == booksData
      ensures booksData.None? ==> jsonSnapshot == Some(JsonSnapshot(books))
      ensures LoadBooksFromJson() == if booksData.Some? then booksData.value else JsonSnapshot(books)
    {
      var data: seq<JsonObject>;
      if booksData.None? {
        data := BooksToJson(books);
      } else {
        data := booksData.value;
      }
      assert booksData.None? ==> data == JsonSnapshot(books);
      jsonSnapshot := Some(data);
    }

    /** `load_books_from_json()`: the snapshot, or no objects when the file does not exist. */
    function LoadBooksFromJson(): (r: seq<JsonObject>)
      reads this
      ensures jsonSnapshot.None? ==> r == []
      ensures jsonSnapshot.Some? ==> r == jsonSnapshot.value
    {
      if jsonSnapshot.None? then [] else jsonSnapshot.value
    }
  }

  // --------------------------------------------------------------- XML export

  /** The keys of the dictionary `export_to_xml` builds, in insertion order. */
  const XmlKeys: seq<string> := ["title", "author", "isbn", "publication_year", "genre",
                                 "langua", "page_count", "description"]

  /** The value stored under `key` in the export dictionary of `b`. */
  function XmlValue(b: Book, key: string): Value {
    if key == "title" then Str(b.title)
    else if key == "author" then Str(b.author)
    else if key == "isbn" then OptText(b.isbn)
    else if key == "publication_year" then Int(b.publicationYear)
    else if key == "genre" then Str(b.genre)
    else if key == "langua" then OptText(b.langua)
    else if key == "page_count" then OptInt(b.pageCount)
    else if key == "description" then OptText(b.description)
    else Null
  }

  /** The export dictionary of `b` as its `items()`, in key order. */
  function XmlFields(b: Book): (f: Pairs)
    ensures |f| == |XmlKeys|
    ensures forall i :: 0 <= i < |f| ==> f[i] == (XmlKeys[i], XmlValue(b, XmlKeys[i]))
  {
    seq(|XmlKeys|, i requires 0 <= i < |XmlKeys| => (XmlKeys[i], XmlValue(b, XmlKeys[i])))
  }

  /** What one item adds to a `<book>`: nothing for `None`, else one child with text `str(value)`. */
  function ChildFor(item: (string, Value)): seq<Element> {
    if item.1 == Null then [] else [Element(item.0, Some(PyStr(item.1)), [])]
  }

  /** The children the inner loop of `export_to_xml` appends for `items`, in order. */
  function ChildrenFor(items: Pairs): seq<Element>
    decreases |items|
  {
    if items == [] then []
    else ChildrenFor(items[..|items| - 1]) + ChildFor(items[|items| - 1])
  }

  /** The children of a `<book>` keep the order of the items they come from. */
  lemma {:induction false} ChildrenForAppend(f: Pairs, g: Pairs)
    ensures ChildrenFor(f + g) == ChildrenFor(f) + ChildrenFor(g)
    decreases |g|
  {
    if g == [] {
      assert f + g == f;
    } else {
      var init := g[..|g| - 1];
      ChildrenForAppend(f, init);
      assert (f + g)[..|f + g| - 1] == f + init;
      assert (f + g)[|f + g| - 1] == g[|g| - 1];
    }
  }

  /** Every child is a leaf whose tag is an item key whose value is not `None`, and whose text is `str` of that value. */
  lemma {:induction false} ChildrenForFrom(f: Pairs)
    ensures forall c :: c in ChildrenFor(f) ==>
              && c.children == [] && c.text.Some?
              && exists i :: 0 <= i < |f| && f[i].0 == c.tag && f[i].1 != Null && c.text.value == PyStr(f[i].1)
    decreases |f|
  {
    if f != [] {
      var init := f[..|f| - 1];
      ChildrenForFrom(init);
      forall c | c in ChildrenFor(f)
        ensures exists i :: 0 <= i < |f| && f[i].0 == c.tag && f[i].1 != Null && c.text.value == PyStr(f[i].1)
      {
        if c in ChildrenFor(init) {
          var i :| 0 <= i < |init| && init[i].0 == c.tag && init[i].1 != Null && c.text.value == PyStr(init[i].1);
          assert f[i] == init[i];
        } else {
          assert f[|f| - 1].0 == c.tag;
        }
      }
    }
  }

  /** The `<book>` element `export_to_xml` builds for `b`. */
  function BookElement(b: Book): Element {
    Element("book", None, ChildrenFor(XmlFields(b)))
  }

  /** The `<books>` tree `export_to_xml` builds for a table. */
  function XmlTree(books: seq<Book>): Element {
    Element("books", None, seq(|books|, i requires 0 <= i < |books| => BookElement(books[i])))
  }

  /** `id` and `created_at` are never exported: every child of a `<book>` is tagged with an export key. */
  lemma BookElementTags(b: Book)
    ensures forall c :: c in BookElement(b).children ==> c.tag in XmlKeys && c.tag != "id" && c.tag != "created_at"
  {
    var f := XmlFields(b);
    ChildrenForFrom(f);
    forall c | c in BookElement(b).children ensures c.tag in XmlKeys {
      var i :| 0 <= i < |f| && f[i].0 == c.tag && f[i].1 != Null && c.text.value == PyStr(f[i].1);
      assert XmlKeys[i] == c.tag;
    }
  }

  /** The export items of `b`, written out. */
  lemma XmlFieldsLiteral(b: Book)
    ensures XmlFields(b) == [("title", Str(b.title)), ("author", Str(b.author)), ("isbn", OptText(b.isbn)),
                             ("publication_year", Int(b.publicationYear)), ("genre", Str(b.genre)),
                             ("langua", OptText(b.langua)), ("page_count", OptInt(b.pageCount)),
                             ("description", OptText(b.description))]
  {
    var f := XmlFields(b);
    assert f[0] == ("title", Str(b.title));
    assert f[1] == ("author", Str(b.author));
    assert f[2] == ("isbn", OptText(b.isbn));
    assert f[3] == ("publication_year", Int(b.publicationYear));
    assert f[4] == ("genre", Str(b.genre));
    assert f[5] == ("langua", OptText(b.langua));
    assert f[6] == ("page_count", OptInt(b.pageCount));
    assert f[7] == ("description", OptText(b.description));
  }

  /** The children of a `<book>`: one per field that is not `None`, in the export key order. */
  lemma BookElementChildren(b: Book)
    ensures BookElement(b).children ==
              ChildFor(("title", Str(b.title)))
              + ChildFor(("author", Str(b.author)))
              + ChildFor(("isbn", OptText(b.isbn)))
              + ChildFor(("publication_year", Int(b.publicationYear)))
              + ChildFor(("genre", Str(b.genre)))
              + ChildFor(("langua", OptText(b.langua)))
              + ChildFor(("page_count", OptInt(b.pageCount)))
              + ChildFor(("description", OptText(b.description)))
  {
    XmlFieldsLiteral(b);
    ChildrenForEight(("title", Str(b.title)), ("author", Str(b.author)), ("isbn", OptText(b.isbn)),
                     ("publication_year", Int(b.publicationYear)), ("genre", Str(b.genre)),
                     ("langua", OptText(b.langua)), ("page_count", OptInt(b.pageCount)),
                     ("description", OptText(b.description)));
  }

  /** The children of eight items are those of each item in turn. */
  lemma ChildrenForEight(p0: (string, Value), p1: (string, Value), p2: (string, Value), p3: (string, Value),
                         p4: (string, Value), p5: (string, Value), p6: (string, Value), p7: (string, Value))
    ensures ChildrenFor([p0, p1, p2, p3, p4, p5, p6, p7]) ==
              ChildFor(p0) + ChildFor(p1) + ChildFor(p2) + ChildFor(p3)
              + ChildFor(p4) + ChildFor(p5) + ChildFor(p6) + ChildFor(p7)
  {
    ChildrenForFour(p0, p1, p2, p3);
    ChildrenForAppend([p0, p1, p2, p3], [p4]);
    assert [p0, p1, p2, p3] + [p4] == [p0, p1, p2, p3, p4];
    ChildrenForAppend([p0, p1, p2, p3, p4], [p5]);
    assert [p0, p1, p2, p3, p4] + [p5] == [p0, p1, p2, p3, p4, p5];
    ChildrenForAppend([p0, p1, p2, p3, p4, p5], [p6]);
    assert [p0, p1, p2, p3, p4, p5] + [p6] == [p0, p1, p2, p3, p4, p5, p6];
    ChildrenForAppend([p0, p1, p2, p3, p4, p5, p6], [p7]);
    assert [p0, p1, p2, p3, p4, p5, p6] + [p7] == [p0, p1, p2, p3, p4, p5, p6, p7];
  }

  /** The children of four items are those of each item in turn. */
  lemma ChildrenForFour(p0: (string, Value), p1: (string, Value), p2: (string, Value), p3: (string, Value))
    ensures ChildrenFor([p0, p1, p2, p3]) == ChildFor(p0) + ChildFor(p1) + ChildFor(p2) + ChildFor(p3)
  {
    ChildrenForAppend([], [p0]);
    assert [] + [p0] == [p0];
    ChildrenForAppend([p0], [p1]);
    assert [p0] + [p1] == [p0, p1];
    ChildrenForAppend([p0, p1], [p2]);
    assert [p0, p1] + [p2] == [p0, p1, p2];
    ChildrenForAppend([p0, p1, p2], [p3]);
    assert [p0, p1, p2] + [p3] == [p0, p1, p2, p3];
  }


  /** `export_to_xml`'s loops: one `<book>` child of `<books>` per book, in table order. */
  method ExportToXml(books: seq<Book>) returns (root: Element)
    ensures root.tag == "books" && root.text == None
    ensures |root.children| == |books|
    ensures forall i :: 0 <= i < |books| ==> root.children[i] == BookElement(books[i])
  {
    var bookElems: seq<Element> := [];
    for i := 0 to |books|
      invariant |bookElems| == i
      invariant forall k :: 0 <= k < i ==> bookElems[k] == BookElement(books[k])
    {
      var items := XmlFields(books[i]);
      var kids: seq<Element> := [];
      for j := 0 to |items|
        invariant kids == ChildrenFor(items[..j])
      {
        if items[j].1 != Null {
          kids := kids + [Element(items[j].0, Some(PyStr(items[j].1)), [])];
        }
        ChildrenForAppend(items[..j], [items[j]]);
        assert items[..j + 1] == items[..j] + [items[j]];
      }
      assert items[..|items|] == items;
      bookElems := bookElems + [Element("book", None, kids)];
    }
    root := Element("books", None, bookElems);
  }

  // ----------------------------------------------------------- file listing

  predicate EndsWith(s: string, suffix: string) {
    |suffix| <= |s| && s[|s| - |suffix|..] == suffix
  }

  /** `filename.endswith(('.json', '.xml'))` */
  predicate IsDataFile(name: string) {
    EndsWith(name, ".json") || EndsWith(name, ".xml")
  }

  /** One directory entry: its name and its size in bytes. */
  type Listing = seq<(string, nat)>

  /** The entries `get_all_files` keeps, in listing order. */
  function DataFiles(listing: Listing): Listing
    decreases |listing|
  {
    if listing == [] then []
    else
      var last := listing[|listing| - 1];
      DataFiles(listing[..|listing| - 1]) + (if IsDataFile(last.0) then [last] else [])
  }

  /** An entry is kept iff its name ends with `.json` or `.xml`; the filter keeps listing order. */
  lemma {:induction false} DataFilesSpec(listing: Listing)
    ensures forall e :: e in DataFiles(listing) <==> e in listing && IsDataFile(e.0)
    decreases |listing|
  {
    if listing != [] {
      var init := listing[..|listing| - 1];
      DataFilesSpec(init);
      assert listing == init + [listing[|listing| - 1]];
    }
  }

  lemma {:induction false} DataFilesAppend(a: Listing, b: Listing)
    ensures DataFiles(a + b) == DataFiles(a) + DataFiles(b)
    decreases |b|
  {
    if b == [] {
      assert a + b == a;
    } else {
      var init := b[..|b| - 1];
      DataFilesAppend(a, init);
      assert (a + b)[..|a + b| - 1] == a + init;
      assert (a + b)[|a + b| - 1] == b[|b| - 1];
    }
  }

  /** `os.path.join(directory, name)` for a name without a slash. */
  function JoinPath(directory: string, name: string): string {
    if directory == "" || directory[|directory| - 1] == '/' then directory + name else directory + "/" + name
  }

  /** The dictionary `get_all_files` builds for a kept file; `file_list` later sets its preview. */
  class FileEntry {
    const name: string
    const path: string
    const size: nat
    var preview: Option<string>

    constructor (name: string, path: string, size: nat)
      ensures this.name == name && this.path == path && this.size == size && preview == None
    {
      this.name := name;
      this.path := path;
      this.size := size;
      preview := None;
    }
  }

  /** `get_all_files`, over the names and sizes the data directory lists. */
  method GetAllFiles(dataDir: string, listing: Listing) returns (files: seq<FileEntry>)
    ensures |files| == |DataFiles(listing)|
    ensures forall i :: 0 <= i < |files| ==>
              && fresh(files[i])
              && files[i].name == DataFiles(listing)[i].0
              && files[i].size == DataFiles(listing)[i].1
              && files[i].path == JoinPath(dataDir, files[i].name)
              && files[i].preview == None
  {
    files := [];
    for i := 0 to |listing|
      invariant |files| == |DataFiles(listing[..i])|
      invariant forall k :: 0 <= k < |files| ==>
                  && fresh(files[k])
                  && files[k].name == DataFiles(listing[..i])[k].0
                  && files[k].size == DataFiles(listing[..i])[k].1
                  && files[k].path == JoinPath(dataDir, files[k].name)
                  && files[k].preview == None
    {
      assert listing[..i + 1][..i] == listing[..i];
      var (name, size) := listing[i];
      if IsDataFile(name) {
        var entry := new FileEntry(name, JoinPath(dataDir, name), size);
        files := files + [entry];
      }
    }
    assert listing[..|listing|] == listing;
  }
}
