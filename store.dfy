/**
 * The record store: `Book.objects.create` as the import calls it, and the table
 * of books it appends to.
 */
module Store {
  import opened Wrappers
  import opened Builtins
  import opened Models

  /** One record of an upload: a dictionary from field name to value. */
  type FieldMap = map<string, Value>

  /** Why creating a book from a record fails. */
  datatype ImportError =
    | MissingKey(key: string)        // `book_data[key]` raised `KeyError`
    | NotAnInteger(field: string)    // `int(...)` raised `ValueError` or `TypeError`
    | NullNotAllowed(field: string)  // the insert violated a NOT NULL column

  /** `d.get(key, default)`. */
  function Get(d: FieldMap, key: string, default: Value): Value {
    if key in d then d[key] else default
  }

  /** The value the import passes as `page_count`: `None` stays `None`, anything else goes through `int()`. */
  predicate PageCountOk(d: FieldMap) {
    Get(d, "page_count", Null) == Null || ToInt(Get(d, "page_count", Null)).Some?
  }

  /**
   * The first error `Book.objects.create(...)` meets on record `d`, in the
   * order Python meets them: the three key lookups, `int()` of the year, the
   * integer conversion of `page_count` when the row is prepared, then the
   * NOT NULL columns `title`, `author` and `genre`.
   */
  function RecordError(d: FieldMap): Option<ImportError> {
    if "title" !in d then Some(MissingKey("title"))
    else if "author" !in d then Some(MissingKey("author"))
    else if "publication_year" !in d then Some(MissingKey("publication_year"))
    else if ToInt(d["publication_year"]).None? then Some(NotAnInteger("publication_year"))
    else if !PageCountOk(d) then Some(NotAnInteger("page_count"))
    else if ToText(d["title"]).None? then Some(NullNotAllowed("title"))
    else if ToText(d["author"]).None? then Some(NullNotAllowed("author"))
    else if ToText(Get(d, "genre", Str(DefaultGenre))).None? then Some(NullNotAllowed("genre"))
    else None
  }

  /** The row `Book.objects.create(...)` inserts for a record that has no error. */
  function BuildBook(d: FieldMap, id: nat, now: Timestamp): Book
    requires RecordError(d).None?
  {
    var pages := Get(d, "page_count", Null);
    Book(
      id := id,
      title := ToText(d["title"]).value,
      author := ToText(d["author"]).value,
      isbn := ToText(Get(d, "isbn", Str(""))),
      publicationYear := ToInt(d["publication_year"]).value,
      genre := ToText(Get(d, "genre", Str(DefaultGenre))).value,
      publisher := ToText(Get(d, "publisher", Str(""))),
      pageCount := if pages == Null then None else ToInt(pages),
      description := ToText(Get(d, "description", Str(""))),
      langua := None,
      createdAt := now)
  }

  /** `Book.objects.create(...)` on one upload record, given the id and the time the store assigns. */
  function MakeBook(d: FieldMap, id: nat, now: Timestamp): (r: Result<Book, ImportError>)
    ensures r.Failure? <==> RecordError(d).Some?
  {
    match RecordError(d)
    case Some(e) => Failure(e)
    case None => Success(BuildBook(d, id, now))
  }

  /** Which key error comes first, what a created book holds, and the defaults for missing optional fields. */
  lemma MakeBookSpec(d: FieldMap, id: nat, now: Timestamp)
    ensures var r := MakeBook(d, id, now);
      // the required fields
      && ("title" !in d ==> r == Failure(MissingKey("title")))
      && ("title" in d && "author" !in d ==> r == Failure(MissingKey("author")))
      && ("title" in d && "author" in d && "publication_year" !in d ==> r == Failure(MissingKey("publication_year")))
      && ("title" in d && "author" in d && "publication_year" in d && ToInt(d["publication_year"]).None?
          ==> r == Failure(NotAnInteger("publication_year")))
      // what a created book holds
      && (r.Success? ==> && r.value.id == id && r.value.createdAt == now && r.value.langua == None
                         && Some(r.value.title) == ToText(d["title"])
                         && Some(r.value.author) == ToText(d["author"])
                         && Some(r.value.publicationYear) == ToInt(d["publication_year"]))
      // the defaults for missing optional fields
      && (r.Success? && "isbn" !in d ==> r.value.isbn == Some(""))
      && (r.Success? && "genre" !in d ==> r.value.genre == DefaultGenre)
      && (r.Success? && "publisher" !in d ==> r.value.publisher == Some(""))
      && (r.Success? && "description" !in d ==> r.value.description == Some(""))
      && (r.Success? && "page_count" !in d ==> r.value.pageCount == None)
  {
  }

  /**
   * The book table. Ids are assigned from a counter that only grows, so the
   * rows are in increasing id order and every id is below the counter.
   */
  class BookStore {
    var books: seq<Book>
    var nextId: nat

    ghost predicate Valid()
      reads this
    {
      && (forall i :: 0 <= i < |books| ==> books[i].id < nextId)
      && (forall i, j :: 0 <= i < j < |books| ==> books[i].id < books[j].id)
    }

    constructor ()
      ensures Valid() && books == [] && nextId == 1
    {
      books := [];
      nextId := 1;
    }

    /** `Book.objects.create(...)`: the row is appended on success, and nothing changes on failure. */
    method Create(d: FieldMap, now: Timestamp) returns (r: Result<Book, ImportError>)
      requires Valid()
      modifies this
      ensures Valid()
      ensures r == MakeBook(d, old(nextId), now)
      ensures r.Success? ==> books == old(books) + [r.value] && nextId == old(nextId) + 1
      ensures r.Failure? ==> books == old(books) && nextId == old(nextId)
    {
      r := MakeBook(d, nextId, now);
      if r.Success? {
        books := books + [r.value];
        nextId := nextId + 1;
      }
    }
  }

  /** In a valid store no two rows share an id. */
  lemma IdsDistinct(store: BookStore)
    requires store.Valid()
    ensures forall i, j :: 0 <= i < |store.books| && 0 <= j < |store.books| && i != j
              ==> store.books[i].id != store.books[j].id
  {
    forall i, j | 0 <= i < |store.books| && 0 <= j < |store.books| && i != j
      ensures store.books[i].id != store.books[j].id
    {
      if i < j {
        assert store.books[i].id < store.books[j].id;
      } else {
        assert store.books[j].id < store.books[i].id;
      }
    }
  }
}
