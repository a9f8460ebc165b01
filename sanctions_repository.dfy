/**
 * The sanctions-list side of the screening: turning the consolidated list into a
 * table of person aliases (`process_sanctions_data`), normalising names
 * (`normalize`), and scoring one roster person against every alias
 * (`check_prefix_match`, `calculate_match_score`, `find_person_by_name`).
 *
 * The fuzzy ratio (`rapidfuzz.fuzz.token_set_ratio`) and the NFKD decomposition
 * (`unicodedata.normalize('NFKD', ...)`) are foreign code: they enter as the
 * fields of a `Foreign` value, constrained only by their range. Scores are exact
 * reals.
 */
module SanctionsRepository {
  import opened Wrappers
  import opened PyText
  import opened Helpers
  import opened Ranking

  /** A value of `token_set_ratio`: a similarity between 0 and 100. */
  type Percent = r: real | 0.0 <= r <= 100.0

  /**
   * The foreign functions the matcher calls: `tokenSetRatio` for
   * `fuzz.token_set_ratio`, and `nfkd` for the NFKD decomposition of one
   * non-ASCII character (an ASCII character decomposes to itself).
   */
  datatype Foreign = Foreign(tokenSetRatio: (string, string) -> Percent, nfkd: char -> string)

  const SurnameThreshold: real := 0.80
  const NameThreshold: real := 0.70
  const PrefixNameScore: real := 0.85
  const MinPrefixLength: nat := 3
  const SurnameWeight: real := 0.6
  const NameWeight: real := 0.4

  /** The least positive score any alias can get: 0.6 * 0.80 + 0.4 * 0.70. */
  const MinPositiveScore: real := 0.76

  // ---------------------------------------------------------------------------
  // normalize
  // ---------------------------------------------------------------------------

  /**
   * NFKD applied character by character. Only the ASCII characters of the result
   * survive the next step, and canonical reordering only moves combining marks
   * (none of them ASCII), so decomposing per character loses nothing here.
   */
  function Decompose(nfkd: char -> string, s: string): string {
    if s == "" then ""
    else (if IsAsciiChar(s[0]) then [s[0]] else nfkd(s[0])) + Decompose(nfkd, s[1..])
  }

  /** `text.encode('ascii', 'ignore').decode('utf-8')`: every non-ASCII character is dropped. */
  function AsciiOnly(s: string): (r: string)
    ensures IsAscii(r)
    ensures |r| <= |s|
    ensures forall c :: c in r <==> c in s && IsAsciiChar(c)
  {
    if s == "" then ""
    else
      var r := (if IsAsciiChar(s[0]) then [s[0]] else []) + AsciiOnly(s[1..]);
      assert s == [s[0]] + s[1..];
      r
  }

  /** The ASCII filter works character by character, keeping the order: it distributes over concatenation. */
  lemma {:induction false} AsciiOnlyAppend(a: string, b: string)
    ensures AsciiOnly(a + b) == AsciiOnly(a) + AsciiOnly(b)
    decreases |a|
  {
    if a != "" {
      assert (a + b)[0] == a[0];
      assert (a + b)[1..] == a[1..] + b;
      AsciiOnlyAppend(a[1..], b);
    } else {
      assert a + b == b;
    }
  }

  lemma {:induction false} DecomposeAscii(nfkd: char -> string, s: string)
    requires IsAscii(s)
    ensures Decompose(nfkd, s) == s
  {
    if s != "" {
      DecomposeAscii(nfkd, s[1..]);
      assert s == [s[0]] + s[1..];
    }
  }

  lemma {:induction false} AsciiOnlyAscii(s: string)
    requires IsAscii(s)
    ensures AsciiOnly(s) == s
  {
    if s != "" {
      AsciiOnlyAscii(s[1..]);
      assert s == [s[0]] + s[1..];
    }
  }

  /** Properties of one character carry over from a string to any of its slices. */
  lemma SliceKeeps(s: string, i: nat, j: nat)
    requires i <= j <= |s|
    requires IsAscii(s) && NoUpperAscii(s) && '-' !in s
    ensures IsAscii(s[i..j]) && NoUpperAscii(s[i..j]) && '-' !in s[i..j]
  {
    forall k | 0 <= k < j - i ensures s[i..j][k] == s[i + k] { }
  }

  /**
   * `normalize(text)`. `None` stands for a value that is not a string or is NaN,
   * which normalises to "". The result is ASCII, has no upper-case letter and no
   * hyphen, and neither starts nor ends with whitespace.
   */
  function Normalize(lib: Foreign, text: Option<string>): (r: string)
    ensures text.None? ==> r == ""
    ensures IsAscii(r) && NoUpperAscii(r) && '-' !in r && IsStripped(r)
  {
    match text
    case None => ""
    case Some(s) =>
      var ascii := AsciiOnly(Decompose(lib.nfkd, s));
      var lowered := Lower(ascii);
      var spaced := ReplaceChar(lowered, '-', ' ');
      assert IsAscii(spaced) && NoUpperAscii(spaced) && '-' !in spaced;
      var r := Strip(spaced);
      var i, j :| 0 <= i <= j <= |spaced| && r == spaced[i..j];
      SliceKeeps(spaced, i, j);
      r
  }

  /**
   * On ASCII text the transliteration steps change nothing: the text is lowered,
   * its hyphens become blanks, and it is stripped. Every letter and digit survives.
   */
  lemma NormalizeAscii(lib: Foreign, s: string)
    requires IsAscii(s)
    ensures Normalize(lib, Some(s)) == Strip(ReplaceChar(Lower(s), '-', ' '))
  {
    DecomposeAscii(lib.nfkd, s);
    AsciiOnlyAscii(s);
  }

  /** A string already in normal form is its own normalisation. */
  lemma NormalFixed(lib: Foreign, s: string)
    requires IsAscii(s) && NoUpperAscii(s) && '-' !in s && IsStripped(s)
    ensures Normalize(lib, Some(s)) == s
  {
    DecomposeAscii(lib.nfkd, s);
    AsciiOnlyAscii(s);
    LowerNoUpper(s);
    ReplaceAbsent(s, '-', ' ');
    StripOfStripped(s);
  }

  /** Normalising twice is normalising once. */
  lemma NormalizeIdempotent(lib: Foreign, text: Option<string>)
    ensures Normalize(lib, Some(Normalize(lib, text))) == Normalize(lib, text)
  {
    NormalFixed(lib, Normalize(lib, text));
  }

  // ---------------------------------------------------------------------------
  // check_prefix_match
  // ---------------------------------------------------------------------------

  /**
   * `check_prefix_match(short_name, long_name)`: true exactly when `short_name`
   * has at least three characters and `long_name` starts with it (both are then
   * non-empty).
   */
  function CheckPrefixMatch(shortName: string, longName: string): (r: bool)
    ensures r <==> |shortName| >= MinPrefixLength && StartsWith(longName, shortName)
    ensures r ==> shortName != "" && longName != ""
  {
    if shortName == "" || longName == "" then false
    else if |shortName| < MinPrefixLength then false
    else if StartsWith(longName, shortName) then |shortName| >= MinPrefixLength
    else false
  }

  /**
   * Examples: "ana" prefixes "analita" and "dmitrij" prefixes "dmitrijevich" (the
   * examples in the comment of `check_prefix_match`); "an" is below the minimum length.
   */
  lemma PrefixExamples()
    ensures CheckPrefixMatch("ana", "analita")
    ensures !CheckPrefixMatch("an", "analita")
    ensures CheckPrefixMatch("dmitrij", "dmitrijevich")
  {
  }

  // ---------------------------------------------------------------------------
  // calculate_match_score
  // ---------------------------------------------------------------------------

  /**
   * One row of the alias table. A field is `None` when the cell is NaN or when
   * the table has no such column (the code treats both alike); the whole name is
   * always a string, since rows without a valid one are dropped at ingestion.
   */
  datatype Alias = Alias(
    entityId: Option<string>,
    lastName: Option<string>,
    firstName: Option<string>,
    middleName: Option<string>,
    wholeName: string)

  /** The search input after normalisation: name, surname and the name's tokens. */
  datatype Query = Query(name: string, surname: string, tokens: seq<string>)

  function MakeQuery(lib: Foreign, personName: string, personSurname: string): Query {
    var name := Normalize(lib, Some(personName));
    Query(name, Normalize(lib, Some(personSurname)), if name != "" then Split(name) else [])
  }

  /** `fuzz.token_set_ratio(a, b) / 100.0`. */
  function Similarity(lib: Foreign, a: string, b: string): (r: real)
    ensures 0.0 <= r <= 1.0
  {
    lib.tokenSetRatio(a, b) / 100.0
  }

  /**
   * The surname part of `calculate_match_score`. It is 0 unless the query surname,
   * the alias's last name and its normalised form are all non-empty; then it is the
   * similarity of the two, kept exactly when it reaches the 0.80 threshold.
   */
  function SurnameScore(lib: Foreign, q: Query, alias: Alias): (r: real)
    ensures r == 0.0 || SurnameThreshold <= r <= 1.0
    ensures r > 0.0 ==> q.surname != "" && alias.lastName.Some? && Normalize(lib, alias.lastName) != ""
    ensures q.surname != "" && alias.lastName.Some? && Normalize(lib, alias.lastName) != "" ==>
              (r > 0.0 <==> Similarity(lib, q.surname, Normalize(lib, alias.lastName)) >= SurnameThreshold)
    ensures r > 0.0 ==> r == Similarity(lib, q.surname, Normalize(lib, alias.lastName))
  {
    if q.surname != "" && alias.lastName.Some? then
      var lastName := Normalize(lib, alias.lastName);
      if lastName != "" then
        var score := Similarity(lib, q.surname, lastName);
        if score < SurnameThreshold then 0.0 else score
      else 0.0
    else 0.0
  }

  /** Some query token is a prefix of the alias's first name (first `any` of the fast path). */
  predicate TokenPrefixesFirstName(tokens: seq<string>, firstName: string) {
    exists i :: 0 <= i < |tokens| && CheckPrefixMatch(tokens[i], firstName)
  }

  /** The alias's first name is a prefix of some query token (the `elif any`). */
  predicate FirstNamePrefixesToken(tokens: seq<string>, firstName: string) {
    exists i :: 0 <= i < |tokens| && CheckPrefixMatch(firstName, tokens[i])
  }

  /** The condition of the prefix fast path. */
  predicate FastPath(lib: Foreign, q: Query, alias: Alias) {
    && q.tokens != []
    && alias.firstName.Some?
    && (|| TokenPrefixesFirstName(q.tokens, Normalize(lib, alias.firstName))
        || FirstNamePrefixesToken(q.tokens, Normalize(lib, alias.firstName)))
  }

  /** The alias's first and middle names as the fuzzy fallback compares them. */
  function AliasGivenNames(lib: Foreign, alias: Alias): string {
    Strip((if alias.firstName.Some? then Normalize(lib, alias.firstName) + " " else "")
          + (if alias.middleName.Some? then Normalize(lib, alias.middleName) else ""))
  }

  /**
   * The fuzzy name score of the fallback: 0 unless both the query name and the
   * alias's given names are non-empty; then the similarity, kept exactly when it
   * reaches the 0.70 threshold.
   */
  function FuzzyNameScore(lib: Foreign, q: Query, alias: Alias): (r: real)
    ensures r == 0.0 || NameThreshold <= r <= 1.0
    ensures r > 0.0 ==> q.name != "" && AliasGivenNames(lib, alias) != ""
    ensures q.name != "" && AliasGivenNames(lib, alias) != "" ==>
              (r > 0.0 <==> Similarity(lib, q.name, AliasGivenNames(lib, alias)) >= NameThreshold)
    ensures r > 0.0 ==> r == Similarity(lib, q.name, AliasGivenNames(lib, alias))
  {
    if q.name != "" then
      var fullName := AliasGivenNames(lib, alias);
      if fullName != "" then
        var score := Similarity(lib, q.name, fullName);
        if score < NameThreshold then 0.0 else score
      else 0.0
    else 0.0
  }

  /**
   * `calculate_match_score(row)`. The score is positive exactly when the surname
   * score is positive and either the fast path fires or the fuzzy name score is
   * positive (the AND gate). On the fast path the fuzzy score plays no part and the
   * name counts as 0.85; otherwise the two scores are weighted 0.6 / 0.4. Every
   * positive score lies between 0.76 and 1.
   */
  function MatchScore(lib: Foreign, q: Query, alias: Alias): (r: real)
    ensures 0.0 <= r <= 1.0
    ensures r == 0.0 || r >= MinPositiveScore
    ensures r > 0.0 <==>
              SurnameScore(lib, q, alias) > 0.0 && (FastPath(lib, q, alias) || FuzzyNameScore(lib, q, alias) > 0.0)
    ensures FastPath(lib, q, alias) && SurnameScore(lib, q, alias) > 0.0 ==>
              r == SurnameWeight * SurnameScore(lib, q, alias) + NameWeight * PrefixNameScore
    ensures !FastPath(lib, q, alias) && r > 0.0 ==>
              r == SurnameWeight * SurnameScore(lib, q, alias) + NameWeight * FuzzyNameScore(lib, q, alias)
  {
    var surnameScore := SurnameScore(lib, q, alias);
    if q.tokens != [] && alias.firstName.Some? && TokenPrefixesFirstName(q.tokens, Normalize(lib, alias.firstName)) then
      if surnameScore > 0.0 then surnameScore * SurnameWeight + PrefixNameScore * NameWeight else 0.0
    else if q.tokens != [] && alias.firstName.Some? && FirstNamePrefixesToken(q.tokens, Normalize(lib, alias.firstName)) then
      if surnameScore > 0.0 then surnameScore * SurnameWeight + PrefixNameScore * NameWeight else 0.0
    else
      var nameScore := FuzzyNameScore(lib, q, alias);
      if surnameScore > 0.0 && nameScore > 0.0 then surnameScore * SurnameWeight + nameScore * NameWeight else 0.0
  }

  /** The score `find_person_by_name` gives every row for one person. */
  function ScoreOf(lib: Foreign, personName: string, personSurname: string): Alias -> real {
    a => MatchScore(lib, MakeQuery(lib, personName, personSurname), a)
  }

  /**
   * Identical names match: when the alias's first and last names normalise to the
   * person's name and surname (both non-empty) and the alias has no middle name,
   * the score is positive, given only that the ratio of a non-empty stripped
   * string with itself is 100.  (`token_set_ratio` gives 0 when a side has no
   * tokens, so a string of blanks does not score 100 against itself; a
   * non-empty stripped string has a token, and it does.)
   */
  lemma IdenticalNamesMatch(lib: Foreign, personName: string, personSurname: string, alias: Alias)
    requires forall s :: s != "" && IsStripped(s) ==> lib.tokenSetRatio(s, s) == 100.0
    requires Normalize(lib, Some(personName)) != "" && Normalize(lib, Some(personSurname)) != ""
    requires alias.firstName.Some? && Normalize(lib, alias.firstName) == Normalize(lib, Some(personName))
    requires alias.lastName.Some? && Normalize(lib, alias.lastName) == Normalize(lib, Some(personSurname))
    requires alias.middleName.None?
    ensures MatchScore(lib, MakeQuery(lib, personName, personSurname), alias) > 0.0
  {
    var q := MakeQuery(lib, personName, personSurname);
    IdenticalSurname(lib, q, alias);
    if !FastPath(lib, q, alias) {
      IdenticalGivenName(lib, q, alias);
    }
  }

  lemma IdenticalSurname(lib: Foreign, q: Query, alias: Alias)
    requires forall s :: s != "" && IsStripped(s) ==> lib.tokenSetRatio(s, s) == 100.0
    requires q.surname != "" && alias.lastName.Some? && Normalize(lib, alias.lastName) == q.surname
    ensures SurnameScore(lib, q, alias) == 1.0
  {
    assert lib.tokenSetRatio(q.surname, q.surname) == 100.0;
  }

  lemma IdenticalGivenName(lib: Foreign, q: Query, alias: Alias)
    requires forall s :: s != "" && IsStripped(s) ==> lib.tokenSetRatio(s, s) == 100.0
    requires q.name != "" && IsStripped(q.name)
    requires alias.firstName.Some? && Normalize(lib, alias.firstName) == q.name && alias.middleName.None?
    ensures FuzzyNameScore(lib, q, alias) == 1.0
  {
    GivenNamesOfFirstOnly(lib, alias);
    assert lib.tokenSetRatio(q.name, q.name) == 100.0;
  }

  /** An alias with a first name and no middle name is compared by its normalised first name. */
  lemma GivenNamesOfFirstOnly(lib: Foreign, alias: Alias)
    requires alias.firstName.Some? && alias.middleName.None?
    ensures AliasGivenNames(lib, alias) == Normalize(lib, alias.firstName)
  {
    var first := Normalize(lib, alias.firstName);
    var joined := (first + " ") + "";
    assert joined == first + " ";
    StripAppendSpace(first);
    assert AliasGivenNames(lib, alias) == Strip(joined);
  }

  // ---------------------------------------------------------------------------
  // process_sanctions_data
  // ---------------------------------------------------------------------------

  /** The columns of the consolidated list the core reads. */
  datatype Column = SubjectType | LogicalId | LastName | FirstName | MiddleName | WholeName

  /** The columns `process_sanctions_data` selects, when present. */
  const NameColumns: set<Column> := {LogicalId, LastName, FirstName, MiddleName, WholeName}

  /** One row of the consolidated list as read; `None` is a NaN cell. */
  datatype RawRow = RawRow(
    subjectType: Option<string>,
    logicalId: Option<string>,
    lastName: Option<string>,
    firstName: Option<string>,
    middleName: Option<string>,
    wholeName: Option<string>)

  /** The list as `read_csv` returns it: its columns and its rows. */
  datatype RawTable = RawTable(columns: set<Column>, rows: seq<RawRow>)

  /** The processed alias table: the columns kept and the rows. */
  datatype AliasTable = AliasTable(columns: set<Column>, rows: seq<Alias>)

  /** A row survives ingestion: a natural person with a valid whole name. */
  predicate Admitted(row: RawRow) {
    row.subjectType == Some("P") && IsLatin(row.wholeName)
  }

  /** `df[df['Entity_SubjectType'] == 'P']`. */
  function NaturalPersons(rows: seq<RawRow>): (r: seq<RawRow>)
    ensures forall i :: 0 <= i < |r| ==> r[i] in rows && r[i].subjectType == Some("P")
    ensures forall i :: 0 <= i < |rows| && rows[i].subjectType == Some("P") ==> rows[i] in r
  {
    if rows == [] then []
    else (if rows[0].subjectType == Some("P") then [rows[0]] else []) + NaturalPersons(rows[1..])
  }

  /** `selected_df[selected_df['NameAlias_WholeName'].apply(is_latin)]`. */
  function LatinRows(rows: seq<RawRow>): (r: seq<RawRow>)
    ensures forall i :: 0 <= i < |r| ==> r[i] in rows && IsLatin(r[i].wholeName)
    ensures forall i :: 0 <= i < |rows| && IsLatin(rows[i].wholeName) ==> rows[i] in r
  {
    if rows == [] then []
    else (if IsLatin(rows[0].wholeName) then [rows[0]] else []) + LatinRows(rows[1..])
  }

  /** A cell of a selected column, or `None` when the column is not in the table. */
  function Cell(columns: set<Column>, c: Column, v: Option<string>): Option<string> {
    if c in columns then v else None
  }

  /** `persons_df[existing_columns]` for one row. */
  function Project(columns: set<Column>, row: RawRow): Alias
    requires row.wholeName.Some?
  {
    Alias(Cell(columns, LogicalId, row.logicalId), Cell(columns, LastName, row.lastName),
          Cell(columns, FirstName, row.firstName), Cell(columns, MiddleName, row.middleName),
          row.wholeName.value)
  }

  function ProjectAll(columns: set<Column>, rows: seq<RawRow>): (r: seq<Alias>)
    requires forall i :: 0 <= i < |rows| ==> rows[i].wholeName.Some?
    ensures |r| == |rows|
    ensures forall i :: 0 <= i < |rows| ==> r[i] == Project(columns, rows[i])
  {
    if rows == [] then [] else [Project(columns, rows[0])] + ProjectAll(columns, rows[1..])
  }

  ghost predicate Distinct(s: seq<Alias>) {
    forall i, j :: 0 <= i < j < |s| ==> s[i] != s[j]
  }

  /** `drop_duplicates()`: the first occurrence of every row, in order. */
  function Dedup(s: seq<Alias>): (r: seq<Alias>)
    ensures Distinct(r)
    ensures forall x :: x in r <==> x in s
    ensures Distinct(s) ==> r == s
  {
    if s == [] then []
    else
      var init := Dedup(s[..|s| - 1]);
      assert forall x :: x in s <==> x in s[..|s| - 1] || x == s[|s| - 1];
      assert Distinct(s) ==> Distinct(s[..|s| - 1]) && s[|s| - 1] !in s[..|s| - 1];
      assert s == s[..|s| - 1] + [s[|s| - 1]];
      if s[|s| - 1] in init then init else init + [s[|s| - 1]]
  }

  /**
   * `drop_duplicates()` keeps rows in input order: deduplicating a prefix of the
   * table gives a prefix of the deduplicated table.
   */
  lemma {:induction false} DedupPrefix(s: seq<Alias>, k: nat)
    requires k <= |s|
    ensures Dedup(s[..k]) <= Dedup(s)
    decreases |s| - k
  {
    if k == |s| {
      assert s[..k] == s;
    } else {
      var init := s[..|s| - 1];
      assert init[..k] == s[..k];
      DedupPrefix(init, k);
    }
  }

  /** The kept alias `a` comes from an admitted row of the list. */
  ghost predicate ComesFrom(raw: RawTable, columns: set<Column>, a: Alias) {
    exists k :: 0 <= k < |raw.rows| && Admitted(raw.rows[k]) && a == Project(columns, raw.rows[k])
  }

  /**
   * `process_sanctions_data`'s filtering, after the file has been read (`None`:
   * reading raised). It yields `None` when the read failed, when the subject-type
   * or the whole-name column is absent, or when no admitted row remains.
   * Otherwise the table holds the listed name columns that exist, every row is
   * the projection of an admitted row, every admitted row is represented, and no
   * row occurs twice.
   */
  function ProcessSanctionsData(read: Option<RawTable>): (r: Option<AliasTable>)
    ensures r.None? <==>
              || read.None?
              || SubjectType !in read.value.columns
              || WholeName !in read.value.columns
              || forall k :: 0 <= k < |read.value.rows| ==> !Admitted(read.value.rows[k])
    ensures r.Some? ==> ValidIngest(read.value, r.value)
  {
    match read
    case None => None
    case Some(raw) =>
      if SubjectType !in raw.columns then None
      else
        var persons := NaturalPersons(raw.rows);
        var columns := raw.columns * NameColumns;
        if WholeName !in columns then None
        else
          var aliases := Dedup(ProjectAll(columns, LatinRows(persons)));
          DedupOfAdmitted(raw, columns);
          if aliases == [] then None else Some(AliasTable(columns, aliases))
  }

  /**
   * What a successful ingestion guarantees: the table holds the listed name
   * columns that exist (the whole name among them), every row is the projection of
   * an admitted row, every admitted row is represented, and no row occurs twice.
   */
  ghost predicate ValidIngest(raw: RawTable, t: AliasTable) {
    && t.columns == raw.columns * NameColumns
    && WholeName in t.columns
    && t.rows != []
    && Distinct(t.rows)
    && (forall a :: a in t.rows ==> LatinText(a.wholeName) && ComesFrom(raw, t.columns, a))
    && (forall k :: 0 <= k < |raw.rows| && Admitted(raw.rows[k]) ==> Project(t.columns, raw.rows[k]) in t.rows)
  }

  lemma DedupOfAdmitted(raw: RawTable, columns: set<Column>)
    requires columns == raw.columns * NameColumns && WholeName in columns
    ensures var aliases := Dedup(ProjectAll(columns, LatinRows(NaturalPersons(raw.rows))));
            && (aliases == [] <==> forall k :: 0 <= k < |raw.rows| ==> !Admitted(raw.rows[k]))
            && (aliases != [] ==> ValidIngest(raw, AliasTable(columns, aliases)))
  {
    var persons := NaturalPersons(raw.rows);
    var valid := LatinRows(persons);
    var projected := ProjectAll(columns, valid);
    var aliases := Dedup(projected);
    AdmittedRowsKept(raw, columns, persons, valid, projected);
    forall k | 0 <= k < |raw.rows| && Admitted(raw.rows[k])
      ensures Project(columns, raw.rows[k]) in aliases
    {
      assert Project(columns, raw.rows[k]) in projected;
    }
    if aliases != [] {
      assert aliases[0] in projected;
    }
  }

  /** The filter chain keeps exactly the projections of the admitted rows. */
  lemma AdmittedRowsKept(raw: RawTable, columns: set<Column>, persons: seq<RawRow>,
                         valid: seq<RawRow>, projected: seq<Alias>)
    requires persons == NaturalPersons(raw.rows) && valid == LatinRows(persons)
    requires projected == ProjectAll(columns, valid)
    ensures forall a :: a in projected ==> ComesFrom(raw, columns, a) && LatinText(a.wholeName)
    ensures forall k :: 0 <= k < |raw.rows| && Admitted(raw.rows[k]) ==> Project(columns, raw.rows[k]) in projected
    ensures projected == [] <==> forall k :: 0 <= k < |raw.rows| ==> !Admitted(raw.rows[k])
  {
    forall a | a in projected ensures ComesFrom(raw, columns, a) && LatinText(a.wholeName) {
      KeptComesFrom(raw, columns, persons, valid, projected, a);
    }
    forall k | 0 <= k < |raw.rows| && Admitted(raw.rows[k])
      ensures Project(columns, raw.rows[k]) in projected
    {
      AdmittedKept(raw, columns, persons, valid, projected, k);
    }
    if projected != [] {
      KeptComesFrom(raw, columns, persons, valid, projected, projected[0]);
    }
  }

  /** A row the filter chain keeps is the projection of an admitted row. */
  lemma KeptComesFrom(raw: RawTable, columns: set<Column>, persons: seq<RawRow>,
                      valid: seq<RawRow>, projected: seq<Alias>, a: Alias)
    requires persons == NaturalPersons(raw.rows) && valid == LatinRows(persons)
    requires projected == ProjectAll(columns, valid)
    requires a in projected
    ensures ComesFrom(raw, columns, a) && LatinText(a.wholeName)
  {
    var i :| 0 <= i < |projected| && projected[i] == a;
    var row := valid[i];
    assert row in persons && IsLatin(row.wholeName);
    var j :| 0 <= j < |persons| && persons[j] == row;
    assert row in raw.rows && row.subjectType == Some("P");
    var k :| 0 <= k < |raw.rows| && raw.rows[k] == row;
    assert a == Project(columns, raw.rows[k]);
  }

  /** The filter chain keeps the projection of every admitted row. */
  lemma AdmittedKept(raw: RawTable, columns: set<Column>, persons: seq<RawRow>,
                     valid: seq<RawRow>, projected: seq<Alias>, k: nat)
    requires persons == NaturalPersons(raw.rows) && valid == LatinRows(persons)
    requires projected == ProjectAll(columns, valid)
    requires k < |raw.rows| && Admitted(raw.rows[k])
    ensures Project(columns, raw.rows[k]) in projected
  {
    var row := raw.rows[k];
    assert row in persons;
    assert row in valid;
    var i :| 0 <= i < |valid| && valid[i] == row;
    assert projected[i] == Project(columns, row);
  }

  // ---------------------------------------------------------------------------
  // find_person_by_name
  // ---------------------------------------------------------------------------

  /**
   * The alias table as the screening loop holds it: rows that never change and
   * the `match_score` column that every search (re)writes (`None` before the first).
   */
  class NameTable {
    const columns: set<Column>
    const rows: seq<Alias>
    var matchScore: Option<seq<real>>

    constructor (data: AliasTable)
      ensures columns == data.columns && rows == data.rows && matchScore == None
    {
      columns := data.columns;
      rows := data.rows;
      matchScore := None;
    }

    /**
     * `find_person_by_name(self, person_names_df, person_name, person_surname)`:
     * writes every row's score into `match_score`, and returns the rows with a
     * positive score, each as often as in the table, in non-increasing score order,
     * without the score column.
     */
    method FindPersonByName(lib: Foreign, personName: string, personSurname: string)
      returns (result: seq<Alias>)
      modifies this
      ensures matchScore.Some? && |matchScore.value| == |rows|
      ensures forall i :: 0 <= i < |rows| ==> matchScore.value[i] == ScoreOf(lib, personName, personSurname)(rows[i])
      ensures multiset(result) == multiset(Positive(rows, ScoreOf(lib, personName, personSurname)))
      ensures NonIncreasing(result, ScoreOf(lib, personName, personSurname))
      ensures forall a :: a in result <==> a in rows && ScoreOf(lib, personName, personSurname)(a) > 0.0
    {
      var score := ScoreOf(lib, personName, personSurname);
      matchScore := Some(Scores(rows, score));
      result := RankPositive(rows, score);
    }
  }
}
