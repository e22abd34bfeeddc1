/**
 * The request handlers' logic: `upload_file` (XML records to dictionaries,
 * then one `Book.objects.create` per record, stopping at the first failure)
 * and the preview rule of `file_list`.
 */
module Views {
  import opened Wrappers
  import opened Builtins
  import opened Models
  import opened ElementTree
  import opened Store
  import opened Utils

  // -------------------------------------------------------------- XML import

  /** `root.findall('book')`: the direct children tagged `book`, in document order. */
  function BookChildren(cs: seq<Element>): seq<Element>
    decreases |cs|
  {
    if cs == [] then []
    else
      var last := cs[|cs| - 1];
      BookChildren(cs[..|cs| - 1]) + (if last.tag == "book" then [last] else [])
  }

  /** An element is found iff it is a direct child tagged `book`. */
  lemma {:induction false} BookChildrenSpec(cs: seq<Element>)
    ensures forall e :: e in BookChildren(cs) <==> e in cs && e.tag == "book"
    decreases |cs|
  {
    if cs != [] {
      var init := cs[..|cs| - 1];
      BookChildrenSpec(init);
      assert cs == init + [cs[|cs| - 1]];
    }
  }

  /** The search keeps document order. */
  lemma {:induction false} BookChildrenAppend(a: seq<Element>, b: seq<Element>)
    ensures BookChildren(a + b) == BookChildren(a) + BookChildren(b)
    decreases |b|
  {
    if b == [] {
      assert a + b == a;
    } else {
      var init := b[..|b| - 1];
      BookChildrenAppend(a, init);
      assert (a + b)[..|a + b| - 1] == a + init;
      assert (a + b)[|a + b| - 1] == b[|b| - 1];
    }
  }

  /** When every child is a `book`, all of them are found. */
  lemma {:induction false} BookChildrenAll(cs: seq<Element>)
    requires forall i :: 0 <= i < |cs| ==> cs[i].tag == "book"
    ensures BookChildren(cs) == cs
    decreases |cs|
  {
    if cs != [] {
      BookChildrenAll(cs[..|cs| - 1]);
    }
  }

  /** The `(child.tag, child.text)` pairs of a `<book>`, in document order. */
  function TagTexts(cs: seq<Element>): (p: Pairs)
    ensures |p| == |cs|
    ensures forall i :: 0 <= i < |cs| ==> p[i] == (cs[i].tag, OptText(cs[i].text))
  {
    seq(|cs|, i requires 0 <= i < |cs| => (cs[i].tag, OptText(cs[i].text)))
  }

  /** The dictionary the inner loop fills by `book_data[child.tag] = child.text`. */
  function FieldsOf(cs: seq<Element>): FieldMap {
    ToFieldMap(TagTexts(cs))
  }

  lemma FieldsOfSnoc(cs: seq<Element>, c: Element)
    ensures FieldsOf(cs + [c]) == FieldsOf(cs)[c.tag := OptText(c.text)]
  {
    assert TagTexts(cs + [c])[..|cs|] == TagTexts(cs);
  }

  /** Every child tag is a key; a tag maps to the text of its last occurrence. */
  lemma FieldsOfSpec(cs: seq<Element>)
    ensures forall k :: k in FieldsOf(cs) <==> exists i :: 0 <= i < |cs| && cs[i].tag == k
    ensures forall i :: 0 <= i < |cs| && (forall j :: i < j < |cs| ==> cs[j].tag != cs[i].tag)
              ==> cs[i].tag in FieldsOf(cs) && FieldsOf(cs)[cs[i].tag] == OptText(cs[i].text)
  {
    var p := TagTexts(cs);
    ToFieldMapKeys(p);
    forall k | k in FieldsOf(cs) ensures exists i :: 0 <= i < |cs| && cs[i].tag == k {
      var i :| 0 <= i < |p| && p[i].0 == k;
      assert cs[i].tag == k;
    }
    forall k | exists i :: 0 <= i < |cs| && cs[i].tag == k ensures k in FieldsOf(cs) {
      var i :| 0 <= i < |cs| && cs[i].tag == k;
      assert p[i].0 == k;
    }
    forall i | 0 <= i < |cs| && (forall j :: i < j < |cs| ==> cs[j].tag != cs[i].tag)
      ensures cs[i].tag in FieldsOf(cs) && FieldsOf(cs)[cs[i].tag] == OptText(cs[i].text)
    {
      forall j | i < j < |p| ensures p[j].0 != p[i].0 {
        assert p[j].0 == cs[j].tag;
      }
      ToFieldMapLastWins(p, i);
    }
  }

  /** The records an XML upload yields: one dictionary per `<book>` child of the root, in document order. */
  function XmlRecords(root: Element): seq<FieldMap> {
    var found := BookChildren(root.children);
    seq(|found|, i requires 0 <= i < |found| => FieldsOf(found[i].children))
  }

  /** The loops of `upload_file` that turn the parsed tree into `books_data`. */
  method ParseXmlBooks(root: Element) returns (records: seq<FieldMap>)
    ensures |records| == |BookChildren(root.children)|
    ensures forall i :: 0 <= i < |records| ==> records[i] == FieldsOf(BookChildren(root.children)[i].children)
  {
    records := [];
    for i := 0 to |root.children|
      invariant |records| == |BookChildren(root.children[..i])|
      invariant forall k :: 0 <= k < |records| ==> records[k] == FieldsOf(BookChildren(root.children[..i])[k].children)
    {
      assert root.children[..i + 1][..i] == root.children[..i];
      var elem := root.children[i];
      if elem.tag == "book" {
        var data: FieldMap := map[];
        assert elem.children[..0] == [];
        for j := 0 to |elem.children|
          invariant data == FieldsOf(elem.children[..j])
        {
          FieldsOfSnoc(elem.children[..j], elem.children[j]);
          assert elem.children[..j + 1] == elem.children[..j] + [elem.children[j]];
          data := data[elem.children[j].tag := OptText(elem.children[j].text)];
        }
        assert elem.children[..|elem.children|] == elem.children;
        records := records + [data];
      }
    }
    assert root.children[..|root.children|] == root.children;
  }

  // ------------------------------------------------------------ batch import

  /** What a batch does to the table: the rows it creates and, if it stopped, why. */
  datatype Batch = Batch(created: seq<Book>, failure: Option<ImportError>)

  /**
   * The create loop of `upload_file`: records are created in order with
   * consecutive ids from `firstId`; the first record that cannot be created
   * stops the batch, and the rows created before it stay.
   */
  function ImportBatch(records: seq<FieldMap>, firstId: nat, now: Timestamp): Batch
    decreases |records|
  {
    if records == [] then Batch([], None)
    else
      match MakeBook(records[0], firstId, now)
      case Failure(e) => Batch([], Some(e))
      case Success(b) =>
        var rest := ImportBatch(records[1..], firstId + 1, now);
        Batch([b] + rest.created, rest.failure)
  }

  /**
   * The batch creates, in order, exactly the records before the first bad one;
   * it fails iff some record is bad, and then with that record's error.
   */
  lemma {:induction false} ImportBatchSpec(records: seq<FieldMap>, firstId: nat, now: Timestamp)
    ensures var r := ImportBatch(records, firstId, now);
      && |r.created| <= |records|
      && (forall j :: 0 <= j < |r.created| ==>
            RecordError(records[j]).None? && r.created[j] == BuildBook(records[j], firstId + j, now))
      && (r.failure.None? <==> |r.created| == |records|)
      && (r.failure.Some? ==> RecordError(records[|r.created|]) == r.failure)
    decreases |records|
  {
    if records != [] && MakeBook(records[0], firstId, now).Success? {
      ImportBatchSpec(records[1..], firstId + 1, now);
      var rest := ImportBatch(records[1..], firstId + 1, now);
      var r := ImportBatch(records, firstId, now);
      assert r.created == [BuildBook(records[0], firstId, now)] + rest.created;
      forall j | 0 <= j < |r.created|
        ensures RecordError(records[j]).None? && r.created[j] == BuildBook(records[j], firstId + j, now)
      {
        if j > 0 {
          assert r.created[j] == rest.created[j - 1];
          assert records[1..][j - 1] == records[j];
        }
      }
      if r.failure.Some? {
        assert records[1..][|rest.created|] == records[|r.created|];
      }
    }
  }

  /** A batch whose every record creates its expected book imports exactly those books, in order. */
  lemma {:induction false} ImportBatchAllCreated(records: seq<FieldMap>, firstId: nat, now: Timestamp, expected: seq<Book>)
    requires |expected| == |records|
    requires forall i :: 0 <= i < |records| ==> MakeBook(records[i], firstId + i, now) == Success(expected[i])
    ensures ImportBatch(records, firstId, now) == Batch(expected, None)
    decreases |records|
  {
    if records != [] {
      assert MakeBook(records[0], firstId, now) == Success(expected[0]);
      forall i | 0 <= i < |records| - 1
        ensures MakeBook(records[1..][i], firstId + 1 + i, now) == Success(expected[1..][i])
      {
        assert records[1..][i] == records[i + 1] && firstId + 1 + i == firstId + (i + 1);
      }
      ImportBatchAllCreated(records[1..], firstId + 1, now, expected[1..]);
      assert expected == [expected[0]] + expected[1..];
    }
  }

  /** Extending a batch that has not failed with one more record. */
  lemma {:induction false} ImportBatchAppend(records: seq<FieldMap>, x: FieldMap, firstId: nat, now: Timestamp)
    requires ImportBatch(records, firstId, now).failure.None?
    ensures |ImportBatch(records, firstId, now).created| == |records|
    ensures ImportBatch(records + [x], firstId, now) ==
              var before := ImportBatch(records, firstId, now).created;
              match MakeBook(x, firstId + |records|, now)
              case Success(b) => Batch(before + [b], None)
              case Failure(e) => Batch(before, Some(e))
    decreases |records|
  {
    if records == [] {
      assert records + [x] == [x];
      assert [x][1..] == [];
    } else {
      ImportBatchAppend(records[1..], x, firstId + 1, now);
      assert (records + [x])[1..] == records[1..] + [x];
    }
  }

  /** Nothing after the failing record is created. */
  lemma {:induction false} ImportBatchAfterFailure(records: seq<FieldMap>, rest: seq<FieldMap>, firstId: nat, now: Timestamp)
    requires ImportBatch(records, firstId, now).failure.Some?
    ensures ImportBatch(records + rest, firstId, now) == ImportBatch(records, firstId, now)
    decreases |records|
  {
    assert (records + rest)[0] == records[0];
    if MakeBook(records[0], firstId, now).Success? {
      ImportBatchAfterFailure(records[1..], rest, firstId + 1, now);
      assert (records + rest)[1..] == records[1..] + rest;
    }
  }

  /** One step of the create loop: record `i` either extends the batch of the records before it or ends the whole batch. */
  lemma ImportBatchStep(records: seq<FieldMap>, i: nat, firstId: nat, now: Timestamp)
    requires i < |records|
    requires ImportBatch(records[..i], firstId, now).failure.None?
    ensures |ImportBatch(records[..i], firstId, now).created| == i
    ensures var before := ImportBatch(records[..i], firstId, now).created;
      match MakeBook(records[i], firstId + i, now)
      case Success(b) => ImportBatch(records[..i + 1], firstId, now) == Batch(before + [b], None)
      case Failure(e) => ImportBatch(records, firstId, now) == Batch(before, Some(e))
  {
    ImportBatchAppend(records[..i], records[i], firstId, now);
    assert records[..i + 1] == records[..i] + [records[i]];
    if MakeBook(records[i], firstId + i, now).Failure? {
      ImportBatchAfterFailure(records[..i + 1], records[i + 1..], firstId, now);
      assert records[..i + 1] + records[i + 1..] == records;
    }
  }

  /** The create loop of `upload_file`, counting `imported_count` and stopping at the first exception. */
  method ImportRecords(store: BookStore, records: seq<FieldMap>, now: Timestamp)
    returns (importedCount: nat, failure: Option<ImportError>)
    requires store.Valid()
    modifies store
    ensures store.Valid()
    ensures var batch := ImportBatch(records, old(store.nextId), now);
      && store.books == old(store.books) + batch.created
      && failure == batch.failure
      && importedCount == |batch.created|
      && store.nextId == old(store.nextId) + importedCount
  {
    ghost var firstId := store.nextId;
    importedCount := 0;
    var i := 0;
    assert records[..0] == [];
    while i < |records|
      invariant 0 <= i <= |records| && importedCount == i
      invariant store.Valid()
      invariant store.nextId == firstId + i
      invariant ImportBatch(records[..i], firstId, now).failure.None?
      invariant |ImportBatch(records[..i], firstId, now).created| == i
      invariant store.books == old(store.books) + ImportBatch(records[..i], firstId, now).created
    {
      ImportBatchStep(records, i, firstId, now);
      var r := store.Create(records[i], now);
      if r.Failure? {
        return importedCount, Some(r.error);
      }
      importedCount := importedCount + 1;
      i := i + 1;
    }
    assert records[..i] == records;
    failure := None;
  }

  // ------------------------------------------------------------- upload_file

  /** The uploaded file after decoding and parsing; `Unreadable` when either raised. */
  datatype Payload = JsonPayload(records: seq<FieldMap>) | XmlPayload(root: Element) | Unreadable

  datatype UploadError = UnreadableFile | BadRecord(cause: ImportError)

  /** The message `upload_file` leaves: the success count, or the error it caught. */
  datatype UploadOutcome = Imported(count: nat) | Failed(error: UploadError)

  /** The `books_data` a parsed upload yields. */
  function PayloadRecords(payload: Payload): seq<FieldMap>
    requires !payload.Unreadable?
  {
    if payload.JsonPayload? then payload.records else XmlRecords(payload.root)
  }

  /**
   * `upload_file` on a valid form: import the records; on success refresh
   * `books.json` from the whole table and report the count; on the first bad
   * record report it, keep the rows already created and skip the refresh.
   */
  method UploadFile(store: BookStore, dir: DataDirectory, payload: Payload, now: Timestamp)
    returns (outcome: UploadOutcome)
    requires store.Valid()
    modifies store, dir
    ensures store.Valid()
    ensures payload.Unreadable? ==>
              && outcome == Failed(UnreadableFile)
              && store.books == old(store.books) && store.nextId == old(store.nextId)
              && dir.jsonSnapshot == old(dir.jsonSnapshot)
    ensures !payload.Unreadable? ==>
              var records := PayloadRecords(payload);
              var batch := ImportBatch(records, old(store.nextId), now);
              && store.books == old(store.books) + batch.created
              && store.nextId == old(store.nextId) + |batch.created|
              && (batch.failure.None? ==>
                    && outcome == Imported(|records|)
                    && |store.books| == |old(store.books)| + |records|
                    && dir.jsonSnapshot == Some(JsonSnapshot(store.books))
                    && dir.LoadBooksFromJson() == JsonSnapshot(store.books))
              && (batch.failure.Some? ==>
                    && outcome == Failed(BadRecord(batch.failure.value))
                    && dir.jsonSnapshot == old(dir.jsonSnapshot))
  {
    if payload.Unreadable? {
      return Failed(UnreadableFile);
    }
    var records: seq<FieldMap>;
    if payload.JsonPayload? {
      records := payload.records;
    } else {
      records := ParseXmlBooks(payload.root);
      assert records == XmlRecords(payload.root);
    }
    ImportBatchSpec(records, store.nextId, now);
    var importedCount, failure := ImportRecords(store, records, now);
    if failure.Some? {
      return Failed(BadRecord(failure.value));
    }
    dir.SaveBooksToJson(None, store.books);
    outcome := Imported(importedCount);
  }

  // --------------------------------------------------------------- file_list

  const PreviewLength: nat := 200

  /** `content[:200] + '...' if len(content) > 200 else content` */
  function Preview(content: string): (r: string)
    ensures |content| <= PreviewLength ==> r == content
    ensures |content| > PreviewLength ==>
              |r| == PreviewLength + 3 && r[..PreviewLength] == content[..PreviewLength] && r[PreviewLength..] == "..."
  {
    if |content| > PreviewLength then content[..PreviewLength] + "..." else content
  }

  const UnreadableMessage: string := "Не удалось прочитать файл"

  /** What `file_list` shows for the file at `path`, given the readable files' contents. */
  function PreviewOf(files: map<string, string>, path: string): string {
    if path in files then Preview(files[path]) else UnreadableMessage
  }

  /** The loop of `file_list` that sets each entry's preview in place. */
  method FileList(entries: seq<FileEntry>, files: map<string, string>)
    modifies entries
    ensures forall i :: 0 <= i < |entries| ==> entries[i].preview == Some(PreviewOf(files, entries[i].path))
  {
    for i := 0 to |entries|
      invariant forall k :: 0 <= k < i ==> entries[k].preview == Some(PreviewOf(files, entries[k].path))
    {
      entries[i].preview := Some(PreviewOf(files, entries[i].path));
    }
  }
}
