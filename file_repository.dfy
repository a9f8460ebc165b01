/**
 * The roster import: `split_name_column`, and `load_people_from_file` from the
 * extension check onward. Reading the file (`read_csv` / `read_excel`) is
 * outside the model: the loader is given what the reader chosen by the extension
 * returned, a table or the text of the exception it raised.
 */
module FileRepository {
  import opened Wrappers
  import opened PyText
  import opened PersonModel

  // ---------------------------------------------------------------------------
  // split_name_column
  // ---------------------------------------------------------------------------

  /**
   * `split_name_column(full_name)`: the last token is the given name, the tokens
   * before it, joined by single spaces, the surname. Returns (surname, name).
   */
  function SplitNameColumn(fullName: string): (r: (string, string))
    ensures NoSpace(r.1)
  {
    NameParts(Split(Strip(fullName)))
  }

  /** The (surname, name) pair `split_name_column` builds from the tokens of the name. */
  function NameParts(parts: seq<string>): (r: (string, string))
    ensures (forall k :: 0 <= k < |parts| ==> IsToken(parts[k])) ==> NoSpace(r.1)
  {
    if |parts| < 2 then ("", if parts != [] then parts[0] else "")
    else (Join(" ", parts[..|parts| - 1]), parts[|parts| - 1])
  }

  /** A blank name gives an empty surname and an empty name. */
  lemma SplitNameBlank(fullName: string)
    requires AllSpace(fullName)
    ensures SplitNameColumn(fullName) == ("", "")
  {
    StripEmptyIffAllSpace(fullName);
    SplitEmptyIffAllSpace(Strip(fullName));
  }

  /** One token: no surname, the token is the name. */
  lemma SplitNameSingleToken(fullName: string)
    requires |Split(Strip(fullName))| == 1
    ensures SplitNameColumn(fullName) == ("", Split(Strip(fullName))[0])
  {
  }

  /** Two or more tokens: surname, a space and name give back the tokens joined by spaces. */
  lemma SplitNameRoundTrip(fullName: string)
    requires |Split(Strip(fullName))| >= 2
    ensures var r := SplitNameColumn(fullName);
            r.0 + " " + r.1 == Join(" ", Split(Strip(fullName)))
  {
    NamePartsRoundTrip(Split(Strip(fullName)));
  }

  /** Two or more tokens: the surname, a space and the name are the tokens joined by spaces. */
  lemma NamePartsRoundTrip(parts: seq<string>)
    requires |parts| >= 2
    ensures NameParts(parts).0 + " " + NameParts(parts).1 == Join(" ", parts)
  {
    JoinInit(" ", parts);
  }

  /** Prepending whitespace changes nothing `split()` sees. */
  lemma SplitSkipsSpace(s: string)
    ensures Split(" " + s) == Split(s)
  {
    assert TrimLeft(" " + s) == TrimLeft(s) by { assert (" " + s)[1..] == s; }
  }

  /** The leading word of `w + rest` is `w` when `w` has no space and `rest` starts with one. */
  lemma {:induction false} WordOfConcat(w: string, rest: string)
    requires NoSpace(w)
    requires rest == "" || IsSpace(rest[0])
    ensures Word(w + rest) == w
    decreases |w|
  {
    if w != "" {
      assert (w + rest)[1..] == w[1..] + rest;
      WordOfConcat(w[1..], rest);
    } else {
      assert w + rest == rest;
    }
  }

  /** A token followed by a space and more text: `split()` takes the token off the front. */
  lemma SplitCons(t: string, rest: string)
    requires IsToken(t)
    ensures Split(t + " " + rest) == [t] + Split(rest)
  {
    var s := t + " " + rest;
    assert s == t + (" " + rest);
    assert TrimLeft(s) == s;
    WordOfConcat(t, " " + rest);
    assert s[|t|..] == " " + rest;
    SplitSkipsSpace(rest);
  }

  /** A single token splits into itself. */
  lemma SplitToken(t: string)
    requires IsToken(t)
    ensures Split(t) == [t]
  {
    assert TrimLeft(t) == t;
    WordOfConcat(t, "");
    assert t + "" == t;
    assert t[|t|..] == "";
  }

  lemma SplitOfJoinStep(t: string, ts: seq<string>)
    requires IsToken(t) && ts != []
    requires Split(Join(" ", ts)) == ts
    ensures Split(Join(" ", [t] + ts)) == [t] + ts
  {
    var rest := Join(" ", ts);
    assert ([t] + ts)[1..] == ts;
    assert Join(" ", [t] + ts) == t + " " + rest;
    SplitCons(t, rest);
  }

  /** Splitting tokens joined by single spaces gives the tokens back. */
  lemma {:induction false} SplitOfJoin(tokens: seq<string>)
    requires forall k :: 0 <= k < |tokens| ==> IsToken(tokens[k])
    ensures Split(Join(" ", tokens)) == tokens
    decreases |tokens|
  {
    if |tokens| == 1 {
      SplitToken(tokens[0]);
    } else if |tokens| > 1 {
      var t, ts := tokens[0], tokens[1..];
      assert tokens == [t] + ts;
      SplitOfJoin(ts);
      SplitOfJoinStep(t, ts);
    }
  }

  /** Tokens joined by spaces neither start nor end with whitespace. */
  lemma {:induction false} JoinStripped(tokens: seq<string>)
    requires forall k :: 0 <= k < |tokens| ==> IsToken(tokens[k])
    ensures IsStripped(Join(" ", tokens))
    ensures tokens != [] ==> Join(" ", tokens) != ""
    decreases |tokens|
  {
    if |tokens| > 1 {
      JoinStripped(tokens[1..]);
      var rest := Join(" ", tokens[1..]);
      assert (tokens[0] + " " + rest)[0] == tokens[0][0];
      assert (tokens[0] + " " + rest)[|tokens[0] + " " + rest| - 1] == rest[|rest| - 1];
    }
  }

  /**
   * A name written as surname tokens followed by a given name is split back into
   * exactly those parts.
   */
  lemma SplitNameOfJoined(tokens: seq<string>)
    requires |tokens| >= 2
    requires forall k :: 0 <= k < |tokens| ==> IsToken(tokens[k])
    ensures SplitNameColumn(Join(" ", tokens)) == (Join(" ", tokens[..|tokens| - 1]), tokens[|tokens| - 1])
  {
    var n := |tokens|;
    StripSplitOfJoin(tokens);
    assert NameParts(tokens) == (Join(" ", tokens[..n - 1]), tokens[n - 1]);
  }

  /** Tokens joined by single spaces strip to themselves and split back into the tokens. */
  lemma StripSplitOfJoin(tokens: seq<string>)
    requires forall k :: 0 <= k < |tokens| ==> IsToken(tokens[k])
    ensures Split(Strip(Join(" ", tokens))) == tokens
  {
    var j := Join(" ", tokens);
    JoinStripped(tokens);
    StripOfStripped(j);
    SplitOfJoin(tokens);
  }

  // ---------------------------------------------------------------------------
  // load_people_from_file
  // ---------------------------------------------------------------------------

  /**
   * A cell of the roster table as pandas reads it.  `Float` is a whole-number
   * float below 10^16 in magnitude: what an integer column such as OIB holds
   * once one of its cells is blank, since pandas then reads the column as
   * float64 and the blank as NaN.
   */
  datatype Cell = Text(text: string) | Int(number: int) | Float(whole: int) | Nan

  /** `str(value)` for a cell; Python writes a whole float with a trailing ".0". */
  function CellText(c: Cell): string {
    match c
    case Text(s) => s
    case Int(i) => IntToString(i)
    case Float(i) => IntToString(i) + ".0"
    case Nan => "nan"
  }

  /**
   * An OIB column with a blank cell is read as floats, and every OIB of it is
   * imported with ".0" after its digits.
   */
  lemma FloatOibGainsSuffix(init: seq<Parameter>, ime: Cell, i: int, adresa: Cell)
    requires KeywordCallBinds(init, ImportCallKeywords)
    ensures var oib := ImportRow(init, RosterRow(ime, Float(i), adresa)).value.oib;
            && oib == IntToString(i) + ".0"
            && oib[|oib| - 2..] == ".0"
            && oib != CellText(Int(i))
  {
    FloatTextStripped(i);
    var row := RosterRow(ime, Float(i), adresa);
    assert ImportRow(init, row).value.oib == Strip(CellText(row.oib));
  }

  /** `str(x).strip()` of a whole float is its digits and ".0". */
  lemma FloatTextStripped(i: int)
    ensures Strip(CellText(Float(i))) == IntToString(i) + ".0"
  {
    var digits := IntToString(i);
    var t := digits + ".0";
    assert t[0] == digits[0];
    assert digits[0] == '-' || '0' <= digits[0] <= '9';
    StripOfStripped(t);
  }

  datatype RosterRow = RosterRow(ime: Cell, oib: Cell, adresa: Cell)

  /** The table the reader returned: its column names and its rows. */
  datatype RosterTable = RosterTable(columns: set<string>, rows: seq<RosterRow>)

  /** The fields one row gives the constructor. */
  datatype PersonFields = PersonFields(name: string, surname: string, oib: string, address: string)

  /**
   * The body of the row loop's `try`, for a constructor with parameters `init`:
   * the fields it computes, or `None` when building the `Person` raises.
   */
  function ImportRow(init: seq<Parameter>, row: RosterRow): (r: Option<PersonFields>)
    ensures r.Some? <==> KeywordCallBinds(init, ImportCallKeywords)
    ensures r.Some? ==> NoSpace(r.value.name) && IsStripped(r.value.oib) && IsStripped(r.value.address)
  {
    var rawFullName := Strip(CellText(row.ime));
    var (surname, name) := SplitNameColumn(rawFullName);
    var oib := Strip(CellText(row.oib));
    var address := Strip(CellText(row.adresa));
    if KeywordCallBinds(init, ImportCallKeywords) then Some(PersonFields(name, surname, oib, address)) else None
  }

  /** The body of the row loop, as a function of the row, for the constructor `init`. */
  function RowOutcome(init: seq<Parameter>): RosterRow -> Option<PersonFields> {
    row => ImportRow(init, row)
  }

  /** The fields of the rows that become persons, in row order. */
  function Imported(outcome: RosterRow -> Option<PersonFields>, rows: seq<RosterRow>): seq<PersonFields> {
    if rows == [] then []
    else
      Imported(outcome, rows[..|rows| - 1])
      + match outcome(rows[|rows| - 1]) case Some(f) => [f] case None => []
  }

  /** How many rows the loop skips. */
  function Skipped(outcome: RosterRow -> Option<PersonFields>, rows: seq<RosterRow>): nat {
    if rows == [] then 0
    else Skipped(outcome, rows[..|rows| - 1]) + if outcome(rows[|rows| - 1]).None? then 1 else 0
  }

  /** Every row is either imported or counted as skipped. */
  lemma {:induction false} ImportedPlusSkipped(outcome: RosterRow -> Option<PersonFields>, rows: seq<RosterRow>)
    ensures |Imported(outcome, rows)| + Skipped(outcome, rows) == |rows|
  {
    if rows != [] {
      ImportedPlusSkipped(outcome, rows[..|rows| - 1]);
    }
  }

  /** With the constructor as written, every row is skipped and nobody is imported. */
  lemma {:induction false} AllRowsSkippedAsWritten(rows: seq<RosterRow>)
    ensures Skipped(RowOutcome(PersonInitAsWritten), rows) == |rows|
    ensures Imported(RowOutcome(PersonInitAsWritten), rows) == []
  {
    ImportCallFailsAsWritten();
    if rows != [] {
      AllRowsSkippedAsWritten(rows[..|rows| - 1]);
    }
  }

  /** With the `surname` parameter, no row is skipped. */
  lemma {:induction false} NoRowSkipped(rows: seq<RosterRow>)
    ensures Skipped(RowOutcome(PersonInit), rows) == 0
    ensures |Imported(RowOutcome(PersonInit), rows)| == |rows|
  {
    ImportCallBinds();
    if rows != [] {
      NoRowSkipped(rows[..|rows| - 1]);
    }
  }

  /** The index of the last occurrence of `c` in `s`, or -1 (`str.rfind`). */
  function LastIndexOf(s: string, c: char): (r: int)
    ensures -1 <= r < |s|
    ensures r >= 0 ==> s[r] == c
    ensures forall k :: r < k < |s| ==> s[k] != c
  {
    if s == "" then -1 else if s[|s| - 1] == c then |s| - 1 else LastIndexOf(s[..|s| - 1], c)
  }

  /**
   * `os.path.splitext(path)[1]` (POSIX): from the last dot of the last path
   * component, provided some character before that dot in the component is not a
   * dot; otherwise "".
   */
  function Extension(path: string): (ext: string)
    ensures ext == "" || (ext[0] == '.' && |ext| <= |path| && path[|path| - |ext|..] == ext)
    ensures forall k :: 0 < k < |ext| ==> ext[k] != '.' && ext[k] != '/'
    ensures ext != "" <==>
              exists k, d :: LastIndexOf(path, '/') < k < d < |path| && path[k] != '.' && path[d] == '.'
    ensures ext != "" ==> ext == path[LastIndexOf(path, '.')..]
  {
    var sepIndex := LastIndexOf(path, '/');
    var dotIndex := LastIndexOf(path, '.');
    if dotIndex > sepIndex && exists k :: sepIndex + 1 <= k < dotIndex && path[k] != '.' then
      path[dotIndex..]
    else ""
  }

  /** The occurrence of `c` at `i` with none after it is the last one. */
  lemma LastIndexAt(s: string, c: char, i: int)
    requires 0 <= i < |s| && s[i] == c
    requires forall k :: i < k < |s| ==> s[k] != c
    ensures LastIndexOf(s, c) == i
  {
  }

  /** A string without `c` has no last occurrence of it. */
  lemma LastIndexNone(s: string, c: char)
    requires forall k :: 0 <= k < |s| ==> s[k] != c
    ensures LastIndexOf(s, c) == -1
  {
  }

  /** The extension is taken from the last path component and keeps its case. */
  lemma ExtensionAfterDirectory()
    ensures Extension("klijenti/popis.CSV") == ".CSV"
  {
    var p := "klijenti/popis.CSV";
    LastIndexAt(p, '/', 8);
    LastIndexAt(p, '.', 14);
    assert p[9] != '.';
    assert p[14..] == ".CSV";
  }

  /** Only the text from the last dot on is the extension. */
  lemma ExtensionFromLastDot()
    ensures Extension("a.tar.xlsx") == ".xlsx"
  {
    var q := "a.tar.xlsx";
    LastIndexNone(q, '/');
    LastIndexAt(q, '.', 5);
    assert q[0] != '.';
    assert q[5..] == ".xlsx";
  }

  /** A leading dot starts a hidden file's name, not an extension. */
  lemma ExtensionOfDotFile()
    ensures Extension(".csv") == ""
  {
    var d := ".csv";
    LastIndexNone(d, '/');
    LastIndexAt(d, '.', 0);
  }

  /** A dot in a directory name is not an extension. */
  lemma ExtensionDotInDirectory()
    ensures Extension("arhiva.d/popis") == ""
  {
    var a := "arhiva.d/popis";
    LastIndexAt(a, '/', 8);
    LastIndexAt(a, '.', 6);
  }

  predicate Supported(ext: string) {
    ext == ".csv" || ext == ".xlsx" || ext == ".xls"
  }

  /** The columns a roster must have, in the order the loader lists them. */
  const RequiredColumns: seq<string> := ["IME", "OIB", "ADRESA"]

  /** The position of a column in `RequiredColumns` (3 for any other name). */
  function RequiredRank(c: string): nat {
    if c == "IME" then 0 else if c == "OIB" then 1 else if c == "ADRESA" then 2 else 3
  }

  /**
   * The required columns the table lacks: every one of them, and only those, each
   * once, in the order IME, OIB, ADRESA.
   */
  function MissingColumns(columns: set<string>): (r: seq<string>)
    ensures r == [] <==> "IME" in columns && "OIB" in columns && "ADRESA" in columns
    ensures forall c :: c in r <==> c in RequiredColumns && c !in columns
    ensures forall j, k :: 0 <= j < k < |r| ==> RequiredRank(r[j]) < RequiredRank(r[k])
  {
    (if "IME" in columns then [] else ["IME"])
    + (if "OIB" in columns then [] else ["OIB"])
    + (if "ADRESA" in columns then [] else ["ADRESA"])
  }

  function UnsupportedMessage(ext: string): string {
    "Nepodr\U{17E}ani format datoteke: " + ext + ". Koristite CSV ili Excel."
  }

  function MissingMessage(missing: seq<string>): string {
    "Nedostaju stupci: " + Join(", ", missing)
  }

  function ReadErrorMessage(error: string): string {
    "Gre\U{161}ka pri u\U{10D}itavanju datoteke: " + error
  }

  /** The success message: the suffix about skipped rows appears exactly when some row was skipped. */
  function LoadedMessage(loaded: nat, skipped: nat): (m: string)
    ensures var base := "U\U{10D}itano " + NatToString(loaded) + " osoba.";
            StartsWith(m, base) && (m == base <==> skipped == 0)
  {
    var base := "U\U{10D}itano " + NatToString(loaded) + " osoba.";
    if skipped > 0 then base + " Presko\U{10D}eno " + NatToString(skipped) + " neva\U{17E}e\U{107}ih zapisa."
    else base
  }

  /** A person holds the fields of an imported row, a zero count and a fresh empty list. */
  ghost predicate Built(p: Person, f: PersonFields)
    reads p, p.matchingNames
  {
    && p.name == f.name && p.surname == f.surname && p.oib == f.oib && p.address == f.address
    && p.count == 0 && p.matchingNames.items == []
  }

  /**
   * The row loop of `load_people_from_file`, given the outcome of its `try` body
   * for each row: a new person per row that yields fields, a count of the others.
   */
  method ImportRows(outcome: RosterRow -> Option<PersonFields>, rows: seq<RosterRow>)
    returns (loaded: seq<Person>, skipped: nat)
    ensures |loaded| == |Imported(outcome, rows)|
    ensures skipped == Skipped(outcome, rows)
    ensures forall k :: 0 <= k < |loaded| ==> fresh(loaded[k]) && fresh(loaded[k].matchingNames)
    ensures forall k :: 0 <= k < |loaded| ==> Built(loaded[k], Imported(outcome, rows)[k])
    ensures forall j, k :: 0 <= j < k < |loaded| ==> loaded[j] != loaded[k]
  {
    loaded := [];
    ghost var done: seq<PersonFields> := [];
    skipped := 0;
    for i := 0 to |rows|
      invariant done == Imported(outcome, rows[..i])
      invariant skipped == Skipped(outcome, rows[..i])
      invariant |loaded| == |done|
      invariant forall k :: 0 <= k < |loaded| ==> fresh(loaded[k]) && fresh(loaded[k].matchingNames)
      invariant forall k :: 0 <= k < |loaded| ==> Built(loaded[k], done[k])
      invariant forall j, k :: 0 <= j < k < |loaded| ==> loaded[j] != loaded[k]
    {
      assert rows[..i + 1][..i] == rows[..i];
      match outcome(rows[i]) {
        case Some(f) =>
          var person := new Person(f.name, f.surname, f.oib, f.address);
          loaded := loaded + [person];
          done := done + [f];
        case None =>
          skipped := skipped + 1;
      }
    }
    assert rows[..|rows|] == rows;
  }

  /**
   * `load_people_from_file(file_path)` after the file read: dispatch on the
   * lower-cased extension, the required-column check, and the row loop, which
   * imports or skips every row.
   */
  method LoadPeopleFromFile(filePath: string, read: Result<RosterTable, string>)
    returns (people: Option<seq<Person>>, message: string)
    ensures var ext := Lower(Extension(filePath));
            !Supported(ext) ==> people == None && message == UnsupportedMessage(ext)
    ensures Supported(Lower(Extension(filePath))) && read.Failure? ==>
              people == None && message == ReadErrorMessage(read.error)
    ensures Supported(Lower(Extension(filePath))) && read.Success? && MissingColumns(read.value.columns) != [] ==>
              people == None && message == MissingMessage(MissingColumns(read.value.columns))
    ensures Supported(Lower(Extension(filePath))) && read.Success? && MissingColumns(read.value.columns) == [] ==>
              && var imported := Imported(RowOutcome(PersonInit), read.value.rows);
              && people.Some? && |people.value| == |imported|
              && (forall k :: 0 <= k < |imported| ==>
                    fresh(people.value[k]) && fresh(people.value[k].matchingNames) && Built(people.value[k], imported[k]))
              && (forall j, k :: 0 <= j < k < |imported| ==> people.value[j] != people.value[k])
              && message == LoadedMessage(|imported|, Skipped(RowOutcome(PersonInit), read.value.rows))
  {
    var ext := Lower(Extension(filePath));
    if !Supported(ext) {
      return None, UnsupportedMessage(ext);
    }
    if read.Failure? {
      return None, ReadErrorMessage(read.error);
    }
    var table := read.value;
    var missing := MissingColumns(table.columns);
    if missing != [] {
      return None, MissingMessage(missing);
    }
    var loaded, skipped := ImportRows(RowOutcome(PersonInit), table.rows);
    people := Some(loaded);
    message := LoadedMessage(|loaded|, skipped);
  }
}
