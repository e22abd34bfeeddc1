/**
 * The `Book` record of the catalogue, its genre codes and the two field
 * validators `validate_isbn` and `validate_publication_year`.
 */
module Models {
  import opened Wrappers
  import opened Builtins

  /** `created_at.isoformat()`: the clock is outside the model, so a timestamp is its text. */
  type Timestamp = string

  /**
   * A stored book. Nullable columns are `Option`s. `langua` is read by the
   * serialisers but is not a column of the table; it is kept here as an
   * optional field that nothing in the core ever sets.
   */
  datatype Book = Book(
    id: nat,
    title: string,
    author: string,
    isbn: Option<string>,
    publicationYear: int,
    genre: string,
    publisher: Option<string>,
    pageCount: Option<int>,
    description: Option<string>,
    langua: Option<string>,
    createdAt: Timestamp)

  /** `Book.GENRE_CHOICES`: code and display name. */
  const GenreChoices: seq<(string, string)> := [
    ("fiction", "Художественная литература"),
    ("non_fiction", "Нехудожественная литература"),
    ("science", "Научная литература"),
    ("fantasy", "Фэнтези"),
    ("mystery", "Детектив"),
    ("romance", "Роман"),
    ("biography", "Биография"),
    ("history", "История"),
    ("other", "Другое")
  ]

  /** The code an import gives a record that names no genre. */
  const DefaultGenre: string := "other"

  function GenreCodes(): (codes: seq<string>)
    ensures |codes| == |GenreChoices|
    ensures forall i :: 0 <= i < |codes| ==> codes[i] == GenreChoices[i].0
  {
    seq(|GenreChoices|, i requires 0 <= i < |GenreChoices| => GenreChoices[i].0)
  }

  /** The nine codes, in the order listed, pairwise distinct, the import default among them. */
  lemma GenreCodesFacts()
    ensures GenreCodes() == ["fiction", "non_fiction", "science", "fantasy", "mystery",
                             "romance", "biography", "history", "other"]
    ensures forall i, j :: 0 <= i < j < |GenreCodes()| ==> GenreCodes()[i] != GenreCodes()[j]
    ensures DefaultGenre in GenreCodes()
  {
    var codes := GenreCodes();
    assert codes[8] == DefaultGenre;
    forall i, j | 0 <= i < j < |codes| ensures codes[i] != codes[j] {
      assert codes[i] == GenreChoices[i].0 && codes[j] == GenreChoices[j].0;
    }
  }

  // ---------------------------------------------------------------- ISBN

  /** What `re.sub(r'[-\s]', '', value)` deletes. */
  predicate IsSeparator(c: char) {
    c == '-' || IsSpace(c)
  }

  /** `re.sub(r'[-\s]', '', s)`. */
  function CleanIsbn(s: string): string
    decreases |s|
  {
    if s == [] then []
    else CleanIsbn(s[..|s| - 1]) + (if IsSeparator(s[|s| - 1]) then [] else [s[|s| - 1]])
  }

  /** Number of ASCII digits in `s`. */
  function DigitCount(s: string): nat
    decreases |s|
  {
    if s == [] then 0 else DigitCount(s[..|s| - 1]) + (if IsDigit(s[|s| - 1]) then 1 else 0)
  }

  /**
   * An independent description of an acceptable non-empty ISBN: made only of
   * digits, hyphens and whitespace, with exactly 10 or 13 digits.
   */
  predicate IsbnShaped(s: string) {
    && (forall i :: 0 <= i < |s| ==> IsDigit(s[i]) || IsSeparator(s[i]))
    && (DigitCount(s) == 10 || DigitCount(s) == 13)
  }

  /** Cleaning deletes exactly the separators and keeps every other character. */
  lemma {:induction false} CleanIsbnSpec(s: string)
    ensures forall i :: 0 <= i < |CleanIsbn(s)| ==> !IsSeparator(CleanIsbn(s)[i])
    ensures forall c :: c in CleanIsbn(s) <==> c in s && !IsSeparator(c)
    ensures |CleanIsbn(s)| <= |s|
    decreases |s|
  {
    if s != [] {
      var init := s[..|s| - 1];
      CleanIsbnSpec(init);
      assert s == init + [s[|s| - 1]];
      forall c ensures c in s <==> c in init || c == s[|s| - 1] {
      }
    }
  }

  /** A value without separators is left as it is. */
  lemma {:induction false} CleanIsbnKeeps(s: string)
    requires forall i :: 0 <= i < |s| ==> !IsSeparator(s[i])
    ensures CleanIsbn(s) == s
    decreases |s|
  {
    if s != [] {
      var init := s[..|s| - 1];
      CleanIsbnKeeps(init);
      assert s == init + [s[|s| - 1]];
    }
  }

  /** A value made only of separators is cleaned away entirely. */
  lemma {:induction false} CleanIsbnDeletes(s: string)
    requires forall i :: 0 <= i < |s| ==> IsSeparator(s[i])
    ensures CleanIsbn(s) == []
    decreases |s|
  {
    if s != [] {
      CleanIsbnDeletes(s[..|s| - 1]);
    }
  }

  /** The cleaned string is all digits iff the original held only digits and separators; its length is then the digit count. */
  lemma {:induction false} CleanIsbnDigits(s: string)
    ensures (forall i :: 0 <= i < |CleanIsbn(s)| ==> IsDigit(CleanIsbn(s)[i]))
            <==> (forall i :: 0 <= i < |s| ==> IsDigit(s[i]) || IsSeparator(s[i]))
    ensures (forall i :: 0 <= i < |s| ==> IsDigit(s[i]) || IsSeparator(s[i])) ==> |CleanIsbn(s)| == DigitCount(s)
    decreases |s|
  {
    if s != [] {
      var init := s[..|s| - 1];
      var last := s[|s| - 1];
      CleanIsbnDigits(init);
      var c := CleanIsbn(s);
      var ci := CleanIsbn(init);
      assert c == ci + (if IsSeparator(last) then [] else [last]);
      if forall i :: 0 <= i < |c| ==> IsDigit(c[i]) {
        assert forall i :: 0 <= i < |ci| ==> IsDigit(ci[i]) by {
          forall i | 0 <= i < |ci| ensures IsDigit(ci[i]) { assert c[i] == ci[i]; }
        }
        forall i | 0 <= i < |s| ensures IsDigit(s[i]) || IsSeparator(s[i]) {
          if i < |init| { assert s[i] == init[i]; } else if !IsSeparator(last) { assert c[|ci|] == last; }
        }
      }
      if forall i :: 0 <= i < |s| ==> IsDigit(s[i]) || IsSeparator(s[i]) {
        assert forall i :: 0 <= i < |init| ==> IsDigit(init[i]) || IsSeparator(init[i]) by {
          forall i | 0 <= i < |init| ensures IsDigit(init[i]) || IsSeparator(init[i]) { assert s[i] == init[i]; }
        }
      }
    }
  }

  datatype ValidationError = ValidationError(message: string)

  const IsbnMessage: string := "ISBN должен содержать 10 или 13 цифр"
  const YearMessage: string := "Год публикации должен быть между 1000 и 2030"

  /**
   * `validate_isbn`: a falsy value (`None` or `""`) passes unchecked;
   * otherwise the cleaned string must be all digits and 10 or 13 long.
   * On success the value is returned as given, not cleaned.
   */
  function ValidateIsbn(value: Option<string>): (r: Result<Option<string>, ValidationError>)
    ensures r.Success? ==> r.value == value
    ensures r.Failure? ==> r.error == ValidationError(IsbnMessage)
    ensures (value.None? || value.value == "") ==> r.Success?
  {
    if value.None? || value.value == "" then Success(value)
    else
      var clean := CleanIsbn(value.value);
      if IsDigitString(clean) && (|clean| == 10 || |clean| == 13) then Success(value)
      else Failure(ValidationError(IsbnMessage))
  }

  /** A non-empty ISBN is accepted exactly when it is `IsbnShaped`. */
  lemma ValidateIsbnAccepts(s: string)
    requires s != ""
    ensures ValidateIsbn(Some(s)).Success? <==> IsbnShaped(s)
  {
    CleanIsbnDigits(s);
    var c := CleanIsbn(s);
    if IsbnShaped(s) {
      assert |c| == DigitCount(s);
    }
    if IsDigitString(c) && (|c| == 10 || |c| == 13) {
      assert |c| == DigitCount(s);
    }
  }

  /** A non-empty value made only of hyphens and whitespace is rejected: nothing is left to be digits. */
  lemma OnlySeparatorsRejected(s: string)
    requires s != ""
    requires forall i :: 0 <= i < |s| ==> IsSeparator(s[i])
    ensures ValidateIsbn(Some(s)) == Failure(ValidationError(IsbnMessage))
  {
    CleanIsbnDeletes(s);
  }

  /** Cleaning distributes over concatenation. */
  lemma {:induction false} CleanIsbnAppend(a: string, b: string)
    ensures CleanIsbn(a + b) == CleanIsbn(a) + CleanIsbn(b)
    decreases |b|
  {
    if b != [] {
      var init := b[..|b| - 1];
      CleanIsbnAppend(a, init);
      var last := b[|b| - 1];
      var tail: string := if IsSeparator(last) then [] else [last];
      assert (a + b)[..|a + b| - 1] == a + init;
      assert (a + b)[|a + b| - 1] == last;
      calc {
        CleanIsbn(a + b);
        CleanIsbn(a + init) + tail;
        (CleanIsbn(a) + CleanIsbn(init)) + tail;
        CleanIsbn(a) + (CleanIsbn(init) + tail);
        CleanIsbn(a) + CleanIsbn(b);
      }
    } else {
      assert a + b == a;
    }
  }

  /**
   * Only the digits are judged: putting a hyphen or a whitespace character
   * anywhere into a non-empty value does not change whether it is accepted.
   */
  lemma SeparatorIgnored(a: string, c: char, b: string)
    requires IsSeparator(c)
    requires a + b != ""
    ensures ValidateIsbn(Some(a + [c] + b)).Success? <==> ValidateIsbn(Some(a + b)).Success?
  {
    CleanIsbnAppend(a + [c], b);
    CleanIsbnAppend(a, [c]);
    CleanIsbnAppend(a, b);
    var single: string := [c];
    assert single[..0] == [];
    assert CleanIsbn(single) == [];
    assert CleanIsbn(a + [c] + b) == CleanIsbn(a + b);
    assert a + [c] + b != "";
  }

  /** `validate_publication_year`: the years 1000 to 2030 inclusive pass unchanged. */
  function ValidatePublicationYear(value: int): (r: Result<int, ValidationError>)
    ensures r.Success? <==> 1000 <= value <= 2030
    ensures r.Success? ==> r.value == value
    ensures r.Failure? ==> r.error == ValidationError(YearMessage)
  {
    if value < 1000 || value > 2030 then Failure(ValidationError(YearMessage)) else Success(value)
  }
}
