# Book catalogue: validators, serialisers and the upload import

A Dafny model of the logic at the centre of the Django book catalogue
(`book_manager/books`):

- the `Book` record, its nine genre codes and the two field validators
  `validate_isbn` and `validate_publication_year` (`models.py`);
- `FileHandler` (`utils.py`): the JSON snapshot `save_books_to_json` writes,
  the `<books>` tree `export_to_xml` builds, and the extension filter of
  `get_all_files`;
- the request handlers (`views.py`): `upload_file` turns an XML tree into
  one dictionary per `<book>`, then creates one row per record with the
  defaults for missing fields and stops at the first failing record;
  `file_list` sets each listed file's 200-character preview.

The `Book` datatype (`Models.Book`) has one field per column of
`models.py:35-43`: `id` (the store's counter), `title`, `author`, `isbn`
(optional), `publicationYear`, `genre`, `publisher` (optional), `pageCount`
(optional), `description` (optional) and `createdAt` (the creation time as
its ISO text). It also carries `langua` (optional), which the serialisers
read although it is not a column; nothing in the model sets it.

Modules, in dependency order:

- `Wrappers`: `Option` and `Result`.
- `Builtins`: the Python behaviour the code relies on. This covers `str()`,
  `int()`, ASCII `isdigit`, the `\s` class, the value a dictionary holds, and
  a dictionary filled pair by pair.
- `Models`: the `Book` datatype, `GENRE_CHOICES`, ISBN cleaning and both
  validators.
- `ElementTree`: an XML element as a value.
- `Store`: `Book.objects.create` as a function of the record, plus the table
  as a class holding a sequence of rows and an id counter.
- `Utils`: the `FileHandler` operations. `books.json` is the one field of a
  `DataDirectory` object.
- `Views`: the XML parse loops, the create loop, `upload_file` and
  `file_list`.
- `RoundTrip`: two round trips, stated over the in-memory data rather than
  the file text (see "## Left out").
  - The `<books>` tree `export_to_xml` builds, read back by the import,
    yields per book the map from each non-`None` field to its `str`.
    Creating rows from that map restores every book, apart from a new id and
    creation time and the fields the import defaults.
  - The JSON snapshot, saved, loaded and fed back to the import, restores
    every book, apart from a new id and creation time, `publisher` (which
    the snapshot lacks) and `langua`.

The loops of the source are methods with loop invariants. Each is proved
against a function that states the same result all at once: `ImportBatch`
for the create loop, `XmlRecords` for the parse loops, `BookElement` for the
export loop, `DataFiles` for the listing filter. Properties are then proved
about those functions.

The clock, the file system and the form are inputs:

- The creation time is a `now` parameter, shared by the whole batch.
- `books.json` is the `jsonSnapshot` field.
- A directory listing is a sequence of (name, size) pairs.
- Readable files are a map from path to content.
- The decoded, parsed upload is a `Payload` value. An exception while
  decoding or parsing the upload is the `Unreadable` payload.

## Model

| member | source | states |
|---|---|---|
| `Models.ValidateIsbn` | book_manager/books/models.py:6-14 | a falsy value (`None` or `""`) is accepted unchecked; an accepted value comes back as given, not cleaned; a rejection carries the ISBN message |
| `Models.ValidateIsbnAccepts` | book_manager/books/models.py:10-13 | a non-empty value is accepted iff all its characters are digits, hyphens or whitespace and it holds exactly 10 or 13 digits |
| `Models.OnlySeparatorsRejected` | book_manager/books/models.py:10-13 | a non-empty value made only of hyphens and whitespace is rejected, because nothing is left to be digits |
| `Models.SeparatorIgnored` | book_manager/books/models.py:10 | inserting a hyphen or whitespace character anywhere into a non-empty value never changes whether it is accepted |
| `Models.CleanIsbnSpec` | book_manager/books/models.py:10 | cleaning leaves no separator, keeps exactly the non-separator characters and never lengthens the value |
| `Models.CleanIsbnKeeps` | book_manager/books/models.py:10 | a value without separators is unchanged by cleaning |
| `Models.CleanIsbnDeletes` | book_manager/books/models.py:10 | a value of separators only cleans to the empty string |
| `Builtins.IsSpace` | book_manager/books/models.py:10 | the characters `\s` matches in a `str` pattern: the Unicode whitespace characters (tab to carriage return, the file, group, record and unit separators, space, `U+0085`, no-break spaces and the Unicode space separators, line and paragraph separators) |
| `Models.IsSeparator` | book_manager/books/models.py:10 | the class `[-\s]`: a hyphen or a `\s` character |
| `Models.CleanIsbn` | book_manager/books/models.py:10 | `re.sub(r'[-\s]', '', value)`: the characters of the value that are not a hyphen or `\s`, in order |
| `Models.CleanIsbnAppend` | book_manager/books/models.py:10 | cleaning a concatenation is the concatenation of the cleaned parts |
| `Builtins.IsDigitString` | book_manager/books/models.py:12 | `str.isdigit()` over ASCII digits: false on the empty string, else every character is a digit |
| `Models.CleanIsbnDigits` | book_manager/books/models.py:10-12 | the cleaned value is all digits iff the value held only digits and separators, and its length is then the digit count |
| `Models.ValidatePublicationYear` | book_manager/books/models.py:16-20 | accepts exactly the years 1000 to 2030 inclusive, unchanged; every other year is rejected with the year message |
| `Models.GenreCodes` | book_manager/books/models.py:23-33 | one code per listed choice, in the listed order |
| `Models.GenreCodesFacts` | book_manager/books/models.py:23-33 | the codes are exactly the nine listed, pairwise distinct, with the import default `other` among them |
| `Builtins.IntToString` | book_manager/books/utils.py:79 | `str()` of an integer: a `-` for a negative number, then its decimal digits without leading zeros |
| `Builtins.PyStr` | book_manager/books/utils.py:79 | `str(value)` of a dictionary value: `None` is `"None"`, a string is itself, an integer its decimal text |
| `Builtins.ToText` | book_manager/books/views.py:160-168 | what a text column stores for a value: `None` stays `None` (NULL), anything else becomes `str(value)` |
| `Builtins.ParseInt` | book_manager/books/views.py:164 | `int()` of a string: an optional sign followed by at least one ASCII digit gives the signed decimal value; anything else is the `ValueError` case |
| `Builtins.ToInt` | book_manager/books/views.py:164 | `int()` of a record value: `None` is the `TypeError` case, an `int` is kept, a string goes through `ParseInt` |
| `Builtins.ToFieldMap` | book_manager/books/views.py:152-154 | the dictionary that `d[k] = v` for each pair in turn leaves: a later pair overrides an earlier one with the same key |
| `Builtins.NatToStringValue` | book_manager/books/utils.py:79 | `str` of a natural number is a non-empty string of digits that denotes that number |
| `Builtins.ParseIntOfIntToString` | book_manager/books/views.py:164 | `int(str(i)) == i` for every integer, negative ones included |
| `Builtins.ConversionsRoundTrip` | book_manager/books/views.py:160-168 | an integer column and a text column both read back the value that `str` of their value wrote |
| `Builtins.ToFieldMapKeys` | book_manager/books/views.py:152-154 | a dictionary filled pair by pair has exactly the keys of the pairs |
| `Builtins.ToFieldMapLastWins` | book_manager/books/views.py:154 | a key maps to the value of the last pair carrying it |
| `Store.Get` | book_manager/books/views.py:163-167 | `book_data.get(key, default)`: the record's value when the key is present, else the default |
| `Store.PageCountOk` | book_manager/books/views.py:167 | the `page_count` passed to the insert converts: it is `None` (also when the key is missing) or `int()` of it succeeds |
| `Store.RecordError` | book_manager/books/views.py:160-169 | the first exception `Book.objects.create(...)` raises on a record, in evaluation order: `KeyError` for `title`, `author`, `publication_year`; `int()` of the year; the integer conversion of `page_count`; then NOT NULL for `title`, `author` and `genre` |
| `Store.BuildBook` | book_manager/books/views.py:160-169 | the row inserted for a record without error: title and author as text, the year through `int()`, `isbn`/`publisher`/`description` defaulting to `''`, `genre` to `other`, `page_count` to `None` |
| `Store.MakeBook` | book_manager/books/views.py:160-169 | creating a row fails exactly when the record has an error (a missing key, a bad integer, or `None` in a NOT NULL column) |
| `Store.MakeBookSpec` | book_manager/books/views.py:160-169 | the key lookups fail in the order `title`, `author`, `publication_year`, then `int()` of the year; a created row holds the given id and time, the record's title and author as text and its year as an integer; missing `isbn`, `publisher` and `description` become `''`, missing `genre` becomes `other`, missing `page_count` becomes `None` |
| `Store.BookStore.Create` | book_manager/books/views.py:160-169 | a created row is appended with the next id and the counter advances; a failed create leaves the table and counter unchanged; ids stay increasing |
| `Store.IdsDistinct` | book_manager/books/views.py:160 | no two rows of the table share an id |
| `Utils.JsonRecord` | book_manager/books/utils.py:26-37 | the JSON object of a book has exactly the ten keys, each holding the book's field (`None` for an absent optional field) |
| `Utils.JsonSnapshot` | book_manager/books/utils.py:24-37 | the list `save_books_to_json()` writes: the object of each book, in table order |
| `Utils.BooksToJson` | book_manager/books/utils.py:24-37 | one object per book, in table order, the `i`-th being the object of the `i`-th book |
| `Utils.DataDirectory.SaveBooksToJson` | book_manager/books/utils.py:20-43 | `books.json` then holds the given data, or the snapshot of the whole table when none is given, and loading returns exactly that |
| `Utils.DataDirectory.LoadBooksFromJson` | book_manager/books/utils.py:46-51 | no objects while `books.json` does not exist, else its content; after a save (see `SaveBooksToJson`, `MirrorRoundTrip`) that is the saved data |
| `Utils.XmlValue` | book_manager/books/utils.py:59-68 | the value the export dictionary holds under a key: the book's field for each of the eight export keys (`None` for an absent optional field); `publisher`, `id`, `created_at` and every other key are absent (`Null`) |
| `Utils.XmlFields` | book_manager/books/utils.py:59-68 | the export dictionary's items are the eight export keys in insertion order, each with the book's value |
| `Utils.ChildrenForAppend` | book_manager/books/utils.py:76-79 | the children of a `<book>` keep the order of the items they come from |
| `Utils.ChildrenForFrom` | book_manager/books/utils.py:76-79 | every child is a leaf tagged with the key of an item whose value is not `None`, with text `str(value)` |
| `Utils.BookElementTags` | book_manager/books/utils.py:59-68 | every child of an exported `<book>` is tagged with an export key, never `id` or `created_at` |
| `Utils.BookElementChildren` | book_manager/books/utils.py:59-79 | the children of an exported `<book>` are, in this order, those for title, author, isbn, publication_year, genre, langua, page_count and description, each present iff the value is not `None` |
| `Utils.ChildFor` | book_manager/books/utils.py:77-79 | what one item adds to a `<book>`: nothing when the value is `None`, else one leaf tagged with the key whose text is `str(value)` |
| `Utils.ChildrenFor` | book_manager/books/utils.py:76-79 | the children the inner loop appends: for each item in order, one leaf with tag the key and text `str(value)` unless the value is `None` |
| `Utils.BookElement` | book_manager/books/utils.py:75-79 | the `<book>` element of a book: no text, with the children of its export items |
| `Utils.XmlTree` | book_manager/books/utils.py:73-79 | the `<books>` root with the `<book>` element of each book, in table order |
| `Utils.ExportToXml` | book_manager/books/utils.py:73-79 | the root is `<books>` with one `<book>` child per book, in table order |
| `Utils.IsDataFile` | book_manager/books/utils.py:96 | `filename.endswith(('.json', '.xml'))` |
| `Utils.DataFiles` | book_manager/books/utils.py:95-96 | the listed entries whose name ends with `.json` or `.xml`, in listing order |
| `Utils.JoinPath` | book_manager/books/utils.py:97 | `os.path.join` of the data directory and a bare file name: a `/` is inserted unless the directory is empty or already ends with one |
| `Utils.DataFilesSpec` | book_manager/books/utils.py:95-96 | a listed entry is kept iff its name ends with `.json` or `.xml` |
| `Utils.DataFilesAppend` | book_manager/books/utils.py:95-96 | the filter keeps listing order |
| `Utils.FileEntry.constructor` | book_manager/books/utils.py:98-102 | the dictionary `get_all_files` appends for a kept file: its name, its joined path and its size, with no preview until `file_list` sets one |
| `Utils.GetAllFiles` | book_manager/books/utils.py:91-103 | one new entry per kept name, in listing order, with that name, its size and the path joined onto the data directory |
| `Views.BookChildren` | book_manager/books/views.py:151 | `root.findall('book')`: the direct children tagged `book`, in document order |
| `Views.FieldsOf` | book_manager/books/views.py:152-154 | the dictionary of one `<book>`: each child's tag set to its text, in document order |
| `Views.XmlRecords` | book_manager/books/views.py:150-155 | `books_data` of an XML upload: the dictionary of each found `<book>`, in document order |
| `Views.BookChildrenSpec` | book_manager/books/views.py:151 | an element is found iff it is a direct child of the root tagged `book` |
| `Views.BookChildrenAppend` | book_manager/books/views.py:151 | the search keeps document order |
| `Views.BookChildrenAll` | book_manager/books/views.py:151 | when every child is a `book`, all of them are found |
| `Views.TagTexts` | book_manager/books/views.py:153-154 | one (tag, text) pair per child, in document order |
| `Views.FieldsOfSnoc` | book_manager/books/views.py:154 | one more child sets its tag to its text in the dictionary |
| `Views.FieldsOfSpec` | book_manager/books/views.py:152-154 | the dictionary's keys are exactly the child tags, and a tag maps to the text of its last occurrence |
| `Views.ParseXmlBooks` | book_manager/books/views.py:150-155 | one dictionary per `<book>` child of the root, in document order, each being the tag-to-text dictionary of its children |
| `Views.PayloadRecords` | book_manager/books/views.py:144-155 | `books_data` of a readable upload: the decoded JSON list for a JSON file, the records of the parsed tree for an XML file |
| `Views.ImportBatch` | book_manager/books/views.py:158-170 | the create loop: records are created in order with consecutive ids; the first record with an error ends the loop with that error, and the rows created before it stay |
| `Views.ImportBatchSpec` | book_manager/books/views.py:158-170 | the batch creates, with consecutive ids, exactly the records before the first one with an error; it fails iff some record has an error, and then with that record's error |
| `Views.ImportBatchAllCreated` | book_manager/books/views.py:158-170 | when every record creates its expected book, the batch creates exactly those books, in order, and does not fail |
| `Views.ImportBatchAppend` | book_manager/books/views.py:159-170 | a batch that has not failed created one row per record, and one more record either adds its row or ends the batch with its error |
| `Views.ImportBatchAfterFailure` | book_manager/books/views.py:159-170 | nothing after the failing record is created |
| `Views.ImportBatchStep` | book_manager/books/views.py:159-170 | record `i` of a batch that has not yet failed either extends it by one row or fixes the outcome of the whole batch |
| `Views.ImportRecords` | book_manager/books/views.py:158-170 | the table grows by the batch's rows, the count is the number of rows created and the counter advances by as much; on a failure the count is the rows created before it |
| `Views.UploadFile` | book_manager/books/views.py:140-178 | an unreadable file changes nothing; otherwise the rows before the first bad record stay; the id counter advances by the rows created; on success the count equals the number of records, the table grows by exactly that many and `books.json` is refreshed from the table, so loading it returns the table's snapshot; on a failure `books.json` is left as it was |
| `Views.Preview` | book_manager/books/views.py:198 | content of at most 200 characters is shown unchanged; longer content shows its first 200 characters followed by `...` |
| `Views.PreviewOf` | book_manager/books/views.py:195-200 | what one entry shows: the preview of the file's content when it can be read, else the unreadable message |
| `Views.FileList` | book_manager/books/views.py:194-200 | every entry's preview is set to the preview of its file's content, or to the unreadable message when the file cannot be read |
| `RoundTrip.XmlKeysDistinct` | book_manager/books/utils.py:59-68 | the eight export keys are pairwise distinct |
| `RoundTrip.ChildrenForFieldsSnoc` | book_manager/books/utils.py:76-79 | reading back the children of one more item adds that item's `str` under its key, or nothing when its value is `None` |
| `RoundTrip.ChildrenForKeys` | book_manager/books/utils.py:76-79 | the keys read back from the children are exactly the keys of the items whose value is not `None` |
| `RoundTrip.ChildrenForValues` | book_manager/books/utils.py:76-79 | with distinct keys, each item whose value is not `None` reads back as its `str` |
| `RoundTrip.BookElementFields` | book_manager/books/views.py:151-155 | importing an exported `<book>` yields exactly the map from each export field whose value is not `None` to `str(value)` |
| `RoundTrip.ExportedRequiredFields` | book_manager/books/utils.py:59-64 | the export keeps title, author, genre and the year under their own names, as text |
| `RoundTrip.ExportedOptionalFields` | book_manager/books/utils.py:62-67 | the export has isbn, description, langua and page_count exactly when the book holds a value for them, and never publisher, id or created_at |
| `RoundTrip.ImportExportedBook` | book_manager/books/views.py:160-169 | creating a row from an exported `<book>` succeeds and restores the book; a missing isbn or description becomes `''`, publisher becomes `''`, langua is lost |
| `RoundTrip.XmlRecordsOfExport` | book_manager/books/views.py:150-155 | reading an export's tree back gives one record per book, in table order |
| `RoundTrip.XmlRecordsOfBooks` | book_manager/books/views.py:151 | a root whose children are all `<book>` elements yields one record per child |
| `RoundTrip.ImportExportedBooks` | book_manager/books/views.py:158-170 | importing the exported records of a table creates every book again, with consecutive ids, and does not fail |
| `RoundTrip.XmlRoundTrip` | book_manager/books/utils.py:73-79 | exporting a table to XML and importing the tree recreates every book, in order, with consecutive ids |
| `RoundTrip.ImportJsonRecord` | book_manager/books/views.py:160-169 | creating a row from the JSON object of a book succeeds and restores it, except that each field the record does not hand to the create is defaulted: publisher becomes `''` and langua is lost |
| `RoundTrip.JsonRoundTrip` | book_manager/books/utils.py:24-37 | importing the JSON snapshot of a table recreates every book, in order, with consecutive ids |
| `RoundTrip.MirrorRoundTrip` | book_manager/books/utils.py:46-51 | once `books.json` holds the snapshot of a table, importing what `load_books_from_json()` returns recreates every book, in order, with consecutive ids |

## Left out

- Django's ORM queries, `get_object_or_404`, the paginator, `messages`, `render`/`redirect` and the request and response objects are framework plumbing. The table is a sequence of rows, and the message `upload_file` leaves is an `UploadOutcome` value.
- All file system I/O (`open`, `os.makedirs`, `os.listdir`, `os.path.getsize`, `os.path.exists`) is left out. The model keeps what is written and read, as fields and parameters.
- `get_data_path` and `get_json_file_path` (`utils.py:9-17`) are path expressions over the Django settings; the data directory is a parameter.
- `view_file` is not part of this model. Neither are the other views (`home`, `book_list`, the add, edit and delete views, `export_books`), nor `forms.py`, `urls.py`, `admin.py` and `wsgi.py`.
- The random `uuid` export file name (`utils.py:71`) is left out: it is random.
- The text formats are left out: JSON text, XML parsing, `ET.tostring` and minidom pretty-printing (`utils.py:81-83`, `views.py:142-149`). The parsed tree or list of dictionaries is the input. In particular, an empty `<x></x>` parses with text `None`; the model's tree takes whatever text the parser gave.
- JSON values other than `null`, strings and integers (floats, booleans, nested objects) are left out. So is the key order of a JSON object, which only shows in the file text.
- `Builtins.ParseInt` does not model Python `int()` leniency: surrounding whitespace, `_` separators and non-ASCII digits are all rejected.
- `Builtins.IsDigitString` accepts ASCII digits only, where `str.isdigit` also accepts other Unicode digits; `Models.ValidateIsbnAccepts` is stated for ASCII digits.
- SQLite's 64-bit integer range is not modelled: a year or page count is an unbounded integer.
- `Views.UploadFile`: the whole batch is created with one `now`, where each real row takes its own clock reading.
- `Views.UploadFile` treats the `books.json` refresh after a successful import as succeeding. As written, `save_books_to_json()` reads `book.langua`, and `Book` has no such field. On a non-empty table that raises `AttributeError`, which `views.py:177-178` turns into an error message; the rows stay created and `books.json` is not written. `export_to_xml` has the same access at `utils.py:65`. The model reads `langua` as an optional `Book` field that nothing sets. Outside this model, `forms.py:24` also lists `langua` in `BookForm.Meta.fields`, so Django raises `FieldError` when it builds that form class; since `views.py:9` imports the forms module, as written no handler loads at all.
- The validators raise `ValidationError`, which `models.py` never imports, so the `raise` would really be a `NameError`. Both are modelled as a rejection carrying the intended message. The validators are not attached to any field (`models.py:37-38`), so creating a row never runs them, and the model's create does not either.
- The genre is not checked against `GENRE_CHOICES` when a row is created, because `Book.objects.create` does not run field validation; the model stores whatever text the record holds.
- Whether a failed insert consumes an id from the database sequence is not modelled: the counter advances only on success.
- `RoundTrip.XmlRoundTrip` and `RoundTrip.ImportExportedBook` are stated for the `<books>` tree before `ET.tostring` (`utils.py:81`) writes it, not for the file. Through the file, a field whose text is `''` is written as an empty element and `ET.fromstring` (`views.py:149`) reads it back with text `None`. So an `isbn` or `description` of `''` returns as `None` rather than the `''` the theorem states, and an empty `title`, `author` or `genre` makes the insert fail on its NOT NULL column. The XML parser also turns CR line endings in a text into LF. Neither effect is modelled.
- A JSON upload whose top level is not a list of objects is not modelled. The source behaves in three ways, and the handler turns each exception into an error message:
  - a top-level `null`, number or boolean raises `TypeError` at the `for` (`views.py:159`) before anything is created;
  - an empty object `{}` or an empty string `""` runs the loop zero times, so the upload reports 0 imported and refreshes `books.json`;
  - a non-empty object or string iterates its keys or characters, and the first `book_data['title']` (`views.py:161`) raises `TypeError`.
- A JSON list element that is not an object is not modelled either: it raises `TypeError` at `views.py:161` when the loop reaches it, after the elements before it were created.
- Element trees are values: `ET.SubElement`'s in-place growth of the parent appears as a child sequence built up in the loop.
- `Book.__str__`, `get_absolute_url` and `Meta` (`models.py:45-53`) are display configuration.
