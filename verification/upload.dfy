/**
  The data frame as the upload handler leaves it (app.py lines 74-83), the schema
  text kept in the session (lines 29-30) and the summary facts the system prompt
  embeds (lines 33-40).
 */
module Upload {
  import opened Wrappers
  import opened Text

  /** The pandas dtypes the model tells apart; any other prints as its own name. */
  datatype DType = Object | Int64 | Float64 | Bool | Other(name: string)

  /** `str(dtype)`, as `get_column_info` prints it. */
  function DTypeName(d: DType): string {
    match d
    case Object => "object"
    case Int64 => "int64"
    case Float64 => "float64"
    case Bool => "bool"
    case Other(n) => n
  }

  /** pandas' `is_numeric_dtype`: integers, floats and booleans. */
  predicate IsNumeric(d: DType) {
    d.Int64? || d.Float64? || d.Bool?
  }

  /** A column: its name, its dtype, and the text `astype(str)` gives for each cell. */
  datatype Column = Column(name: string, dtype: DType, cells: seq<string>)

  function Names(cols: seq<Column>): (names: seq<string>)
    ensures |names| == |cols| && forall i :: 0 <= i < |cols| ==> names[i] == cols[i].name
  {
    seq(|cols|, i requires 0 <= i < |cols| => cols[i].name)
  }

  // ---------------------------------------------------------------- column names

  /** Line 74: `df.columns.str.strip().str.lower()` on one name. */
  function NormalizeName(name: string): (r: string)
    ensures IsStripped(r) && IsLower(r) && |r| <= |name|
    ensures exists i, j :: IsTrimmedInfix(name, i, j) && r == Lower(name[i..j])
  {
    LowerKeepsStripped(Strip(name));
    Lower(Strip(name))
  }

  /** Normalising a normalised name changes nothing. */
  lemma NormalizeNameIdempotent(name: string)
    ensures NormalizeName(NormalizeName(name)) == NormalizeName(name)
  {
    var n := NormalizeName(name);
    assert Strip(n) == n;
    LowerOfLower(n);
  }

  function NormalizedColumns(cols: seq<Column>): (r: seq<Column>)
    ensures |r| == |cols|
    ensures forall i :: 0 <= i < |cols| ==> r[i] == cols[i].(name := NormalizeName(cols[i].name))
  {
    seq(|cols|, i requires 0 <= i < |cols| => cols[i].(name := NormalizeName(cols[i].name)))
  }

  /** `next((col for col in names if token in col), None)`: the first name containing `token`. */
  function FirstContaining(names: seq<string>, token: string): (r: Option<nat>)
    ensures r.Some? ==> r.value < |names| && Contains(names[r.value], token)
    ensures r.Some? ==> forall j :: 0 <= j < r.value ==> !Contains(names[j], token)
    ensures r.None? ==> forall j :: 0 <= j < |names| ==> !Contains(names[j], token)
    decreases |names|
  {
    if names == [] then None
    else if Contains(names[0], token) then Some(0)
    else match FirstContaining(names[1..], token)
      case Some(i) => Some(i + 1)
      case None => None
  }

  /** The position of the column called `name`, as `df[name]` finds it. */
  function IndexOfName(cols: seq<Column>, name: string): (r: Option<nat>)
    ensures r.Some? ==> r.value < |cols| && cols[r.value].name == name
    ensures r.Some? ==> forall j :: 0 <= j < r.value ==> cols[j].name != name
    ensures r.None? ==> forall j :: 0 <= j < |cols| ==> cols[j].name != name
    decreases |cols|
  {
    if cols == [] then None
    else if cols[0].name == name then Some(0)
    else match IndexOfName(cols[1..], name)
      case Some(i) => Some(i + 1)
      case None => None
  }

  /** `df[c.name] = ...`: replaces the column of that name, or appends it at the end. */
  function SetColumn(cols: seq<Column>, c: Column): (r: seq<Column>)
    ensures IndexOfName(cols, c.name).Some? ==> |r| == |cols| && r == cols[IndexOfName(cols, c.name).value := c]
    ensures IndexOfName(cols, c.name).None? ==> r == cols + [c]
    ensures IndexOfName(r, c.name).Some? && r[IndexOfName(r, c.name).value] == c
    ensures forall j :: 0 <= j < |cols| && cols[j].name != c.name ==> r[j] == cols[j]
  {
    match IndexOfName(cols, c.name)
    case Some(i) =>
      IndexOfNameAt(cols[i := c], c.name, i);
      cols[i := c]
    case None =>
      IndexOfNameAt(cols + [c], c.name, |cols|);
      cols + [c]
  }

  /** The first column called `name` is the one `IndexOfName` finds. */
  lemma IndexOfNameAt(cols: seq<Column>, name: string, i: nat)
    requires i < |cols| && cols[i].name == name
    requires forall j :: 0 <= j < i ==> cols[j].name != name
    ensures IndexOfName(cols, name) == Some(i)
  {
  }

  // ---------------------------------------------------------------- employee names

  /** `s` starts with the lower-case text `p`, ignoring the case of ASCII letters. */
  predicate StartsWithIgnoreCase(s: string, p: string) {
    |p| <= |s| && forall i :: 0 <= i < |p| ==> LowerChar(s[i]) == p[i]
  }

  /** One alternative of the title pattern: its letters, and whether a `.` may follow them (`\.?`). */
  datatype Title = Title(text: string, dot: bool)

  /** The alternatives of `(mr\.?|ms\.?|mrs\.?|dr\.?|miss|m/s)`, in the order the pattern tries them. */
  const Titles: seq<Title> :=
    [Title("mr", true), Title("ms", true), Title("mrs", true), Title("dr", true), Title("miss", false), Title("m/s", false)]

  /** Some alternative of the title pattern matches at the front of `s`, ignoring case. */
  predicate HasTitle(s: string) {
    exists k :: 0 <= k < |Titles| && StartsWithIgnoreCase(s, Titles[k].text)
  }

  /** What the alternative `t` takes from the front of `s` once its letters match: those, and a `.` after them where `t` allows one. */
  function TitleSpan(s: string, t: Title): (n: nat)
    requires StartsWithIgnoreCase(s, t.text)
    ensures |t.text| <= n <= |t.text| + 1 && n <= |s|
    ensures n == |t.text| + 1 <==> t.dot && |t.text| < |s| && s[|t.text|] == '.'
  {
    if t.dot && |t.text| < |s| && s[|t.text|] == '.' then |t.text| + 1 else |t.text|
  }

  /** The first alternative, from the `k`-th on, whose letters match at the front of `s`. */
  function FirstTitle(s: string, k: nat): (r: Option<nat>)
    requires k <= |Titles|
    ensures r.Some? ==> k <= r.value < |Titles| && StartsWithIgnoreCase(s, Titles[r.value].text)
    ensures r.Some? ==> forall j :: k <= j < r.value ==> !StartsWithIgnoreCase(s, Titles[j].text)
    ensures r.None? ==> forall j :: k <= j < |Titles| ==> !StartsWithIgnoreCase(s, Titles[j].text)
    decreases |Titles| - k
  {
    if k == |Titles| then None
    else if StartsWithIgnoreCase(s, Titles[k].text) then Some(k)
    else FirstTitle(s, k + 1)
  }

  /**
    The length of the title `(mr\.?|ms\.?|mrs\.?|dr\.?|miss|m/s)` matches at the front
    of `s`, ignoring case: the alternatives are tried in order, the first whose letters
    match wins, and it takes a following `.` when it allows one.
   */
  function TitleLength(s: string): (n: Option<nat>)
    ensures n.None? <==> !HasTitle(s)
    ensures n.Some? ==> 2 <= n.value <= |s|
    ensures n.Some? ==>
              exists k :: 0 <= k < |Titles| && StartsWithIgnoreCase(s, Titles[k].text)
                          && (forall j :: 0 <= j < k ==> !StartsWithIgnoreCase(s, Titles[j].text))
                          && n.value == TitleSpan(s, Titles[k])
  {
    match FirstTitle(s, 0)
    case None => None
    case Some(k) =>
      assert |Titles[k].text| >= 2;
      Some(TitleSpan(s, Titles[k]))
  }

  /** The title found is the first alternative that matches. */
  lemma TitleAt(s: string, k: nat)
    requires k < |Titles| && StartsWithIgnoreCase(s, Titles[k].text)
    requires forall j :: 0 <= j < k ==> !StartsWithIgnoreCase(s, Titles[j].text)
    ensures TitleLength(s) == Some(TitleSpan(s, Titles[k]))
  {
    var k' :| 0 <= k' < |Titles| && StartsWithIgnoreCase(s, Titles[k'].text)
              && (forall j :: 0 <= j < k' ==> !StartsWithIgnoreCase(s, Titles[j].text))
              && TitleLength(s).value == TitleSpan(s, Titles[k']);
    assert k' == k;
  }

  /** The number of whitespace characters at the front of `s` (what `\s*` takes). */
  function LeadingSpaces(s: string): (n: nat)
    ensures n <= |s| && (n < |s| ==> !IsSpace(s[n]))
    ensures forall i :: 0 <= i < n ==> IsSpace(s[i])
  {
    |s| - |TrimLeft(s)|
  }

  /**
    Line 78's `str.replace(r'^(...)\s*', '', regex=True, case=False)`: removes the
    title at the front, if there is one, and the whitespace after it; once only.
   */
  function StripHonorific(s: string): (r: string)
    ensures |r| <= |s| && r == s[|s| - |r|..]
    ensures TitleLength(s).None? ==> r == s
    ensures TitleLength(s).Some? ==> |r| <= |s| - TitleLength(s).value && (r == [] || !IsSpace(r[0]))
    ensures TitleLength(s).Some? ==> forall i :: TitleLength(s).value <= i < |s| - |r| ==> IsSpace(s[i])
  {
    match TitleLength(s)
    case None => s
    case Some(n) => AfterTitle(s, n)
  }

  /** What is left once a title of length `n` and the whitespace after it are taken off. */
  function AfterTitle(s: string, n: nat): (r: string)
    requires n <= |s|
    ensures |r| <= |s| - n && r == s[|s| - |r|..]
    ensures r == [] || !IsSpace(r[0])
    ensures forall i :: n <= i < |s| - |r| ==> IsSpace(s[i])
  {
    var rest := s[n..];
    var k := LeadingSpaces(rest);
    assert rest[k..] == s[n + k..];
    rest[k..]
  }

  /**
    Line 78: the `clean_emp_name` of one cell: the cell without its title, normalised
    exactly like a column name; a cell with no title in front is just normalised.
   */
  function CleanEmpName(cell: string): (r: string)
    ensures IsStripped(r) && IsLower(r)
    ensures r == NormalizeName(StripHonorific(cell))
    ensures !HasTitle(cell) ==> r == NormalizeName(cell)
  {
    var t := Strip(StripHonorific(cell));
    LowerKeepsStripped(t);
    Lower(t)
  }

  /**
    The alternative `mrs\.?` never applies: `mr\.?` is tried first and already matches,
    so of a leading `Mrs` only `Mr` is removed and the `s` stays.
   */
  lemma MrsLosesOnlyMr(s: string)
    requires StartsWithIgnoreCase(s, "mrs")
    ensures TitleLength(s) == Some(2)
    ensures StripHonorific(s) == s[2..]
  {
    var mr := Titles[0];
    assert mr == Title("mr", true);
    assert StartsWithIgnoreCase(s, mr.text) by {
      assert "mrs"[0] == 'm' && "mrs"[1] == 'r';
    }
    TitleAt(s, 0);
    assert LowerChar(s[2]) == 's' by {
      assert "mrs"[2] == 's';
    }
    assert TitleSpan(s, mr) == 2;
    assert LeadingSpaces(s[2..]) == 0;
  }

  /** Only one title goes: of `Dr. Mr. Smith`, the clean name is `mr. smith`. */
  lemma OneTitleRemoved(cell: string)
    requires cell == "Dr. Mr. Smith"
    ensures CleanEmpName(cell) == "mr. smith"
  {
    DoctorTitle(cell);
    assert cell[4..] == "Mr. Smith";
    LowerMrSmith(cell[4..]);
  }

  /** A leading `Dr.` and one space are the title taken off such a name. */
  lemma DoctorTitle(s: string)
    requires |s| >= 5 && LowerChar(s[0]) == 'd' && LowerChar(s[1]) == 'r'
    requires s[2] == '.' && s[3] == ' ' && !IsSpace(s[4])
    ensures StripHonorific(s) == s[4..]
  {
    var dr := Titles[3];
    assert dr == Title("dr", true);
    assert StartsWithIgnoreCase(s, dr.text);
    forall j | 0 <= j < 3 ensures !StartsWithIgnoreCase(s, Titles[j].text) {
      assert Titles[j].text[0] == 'm';
    }
    TitleAt(s, 3);
    assert TitleSpan(s, dr) == 3;
    var rest := s[3..];
    assert TrimLeft(rest) == rest[1..];
    assert rest[1..] == s[4..];
  }

  lemma LowerMrSmith(name: string)
    requires name == "Mr. Smith"
    ensures Lower(Strip(name)) == "mr. smith"
  {
    assert IsStripped(name);
    var low := Lower(name);
    assert low[0] == 'm' && low[1] == 'r' && low[2] == '.' && low[3] == ' ' && low[4] == 's';
    assert low[5] == 'm' && low[6] == 'i' && low[7] == 't' && low[8] == 'h';
  }

  // ---------------------------------------------------------------- amounts

  /** The characters `[^\d.]` does not match. */
  predicate IsAmountChar(c: char) {
    IsDigit(c) || c == '.'
  }

  /** `r` is `s` with some characters left out, the rest in their order. */
  predicate IsSubsequence(r: string, s: string)
    decreases |s|
  {
    if r == [] then true
    else if s == [] then false
    else if r[0] == s[0] then IsSubsequence(r[1..], s[1..])
    else IsSubsequence(r, s[1..])
  }

  /**
    Line 83's `str.replace(r'[^\d.]', '', regex=True)`: keeps exactly the digits
    and dots, each as often as in the input and in the input's order.
   */
  function KeepAmountChars(s: string): (r: string)
    ensures forall i :: 0 <= i < |r| ==> IsAmountChar(r[i])
    ensures forall c :: multiset(r)[c] == if IsAmountChar(c) then multiset(s)[c] else 0
    ensures IsSubsequence(r, s)
    decreases |s|
  {
    if s == [] then []
    else
      var rest := KeepAmountChars(s[1..]);
      assert s == [s[0]] + s[1..];
      if IsAmountChar(s[0]) then
        assert ([s[0]] + rest)[1..] == rest;
        [s[0]] + rest
      else rest
  }

  /** Cleaning an amount twice is cleaning it once. */
  lemma {:induction false} KeepAmountCharsIdempotent(s: string)
    ensures KeepAmountChars(KeepAmountChars(s)) == KeepAmountChars(s)
    decreases |s|
  {
    if s != [] {
      KeepAmountCharsIdempotent(s[1..]);
      var rest := KeepAmountChars(s[1..]);
      if IsAmountChar(s[0]) {
        assert ([s[0]] + rest)[1..] == rest;
      }
    }
  }

  /** Line 81: the column name mentions one of the amount tokens. */
  predicate IsAmountName(name: string) {
    Contains(name, "sal") || Contains(name, "amount") || Contains(name, "price")
    || Contains(name, "cost") || Contains(name, "value")
  }

  /**
    Lines 81-83 on one column: a text (`object`) column with an amount name gets its
    cells cleaned; pandas' `to_numeric` (given here as `toNumeric`) decides the new
    dtype. The cells then hold the cleaned text that `to_numeric` parses.
   */
  function Coerced(c: Column, toNumeric: seq<string> -> DType): (r: Column)
    ensures r.name == c.name && |r.cells| == |c.cells|
    ensures !(IsAmountName(c.name) && c.dtype == Object) ==> r == c
    ensures IsAmountName(c.name) && c.dtype == Object ==>
              forall i :: 0 <= i < |r.cells| ==> r.cells[i] == KeepAmountChars(c.cells[i])
    ensures IsAmountName(c.name) && c.dtype == Object ==> r.dtype == toNumeric(r.cells)
  {
    if IsAmountName(c.name) && c.dtype == Object then
      var cleaned := seq(|c.cells|, i requires 0 <= i < |c.cells| => KeepAmountChars(c.cells[i]));
      Column(c.name, toNumeric(cleaned), cleaned)
    else c
  }

  // ---------------------------------------------------------------- the table

  const CleanNameColumn: string := "clean_emp_name"

  /**
    Lines 76-78: when some column name contains `name`, the first such column's
    cells, cleaned by `CleanEmpName`, become the text column `clean_emp_name`.
   */
  function WithCleanNames(cols: seq<Column>): (r: seq<Column>)
    ensures FirstContaining(Names(cols), "name").None? ==> r == cols
    ensures FirstContaining(Names(cols), "name").Some? ==>
              IndexOfName(r, CleanNameColumn).Some?
              && r[IndexOfName(r, CleanNameColumn).value]
                 == Column(CleanNameColumn, Object, CleanEmpNames(cols[FirstContaining(Names(cols), "name").value].cells))
    ensures |cols| <= |r| <= |cols| + 1
    ensures FirstContaining(Names(cols), "name").Some? && IndexOfName(cols, CleanNameColumn).Some? ==>
              r == cols[IndexOfName(cols, CleanNameColumn).value := r[IndexOfName(cols, CleanNameColumn).value]]
    ensures forall j :: 0 <= j < |cols| && cols[j].name != CleanNameColumn ==> r[j] == cols[j]
  {
    match FirstContaining(Names(cols), "name")
    case None => cols
    case Some(i) => SetColumn(cols, Column(CleanNameColumn, Object, CleanEmpNames(cols[i].cells)))
  }

  /** The clean name of every cell of a column, in order. */
  function CleanEmpNames(cells: seq<string>): (r: seq<string>)
    ensures |r| == |cells| && forall j :: 0 <= j < |cells| ==> r[j] == CleanEmpName(cells[j])
  {
    seq(|cells|, j requires 0 <= j < |cells| => CleanEmpName(cells[j]))
  }

  /** The data frame the upload handler edits in place: its columns and its number of rows. */
  class Table {
    var columns: seq<Column>
    var rowCount: nat

    ghost predicate Valid()
      reads this
    {
      forall i :: 0 <= i < |columns| ==> |columns[i].cells| == rowCount
    }

    /** The table as `read_csv`/`read_excel` produced it. */
    constructor (columns: seq<Column>, rowCount: nat)
      requires forall i :: 0 <= i < |columns| ==> |columns[i].cells| == rowCount
      ensures Valid() && this.columns == columns && this.rowCount == rowCount
    {
      this.columns := columns;
      this.rowCount := rowCount;
    }

    /** Line 74: every column name stripped and lower-cased, nothing else touched. */
    method NormalizeColumnNames()
      requires Valid()
      modifies this
      ensures Valid() && rowCount == old(rowCount)
      ensures columns == NormalizedColumns(old(columns))
    {
      columns := NormalizedColumns(columns);
    }

    /** Lines 76-78: adds (or replaces) the `clean_emp_name` column. */
    method AddCleanNameColumn()
      requires Valid()
      modifies this
      ensures Valid() && rowCount == old(rowCount)
      ensures columns == WithCleanNames(old(columns))
    {
      columns := WithCleanNames(columns);
    }

    /** Lines 80-83: the loop over the columns that cleans the amount columns one by one. */
    method CoerceAmountColumns(toNumeric: seq<string> -> DType)
      requires Valid()
      modifies this
      ensures Valid() && rowCount == old(rowCount)
      ensures |columns| == |old(columns)|
      ensures forall i :: 0 <= i < |columns| ==> columns[i] == Coerced(old(columns)[i], toNumeric)
    {
      for i := 0 to |columns|
        invariant Valid() && rowCount == old(rowCount)
        invariant |columns| == |old(columns)|
        invariant forall j :: 0 <= j < i ==> columns[j] == Coerced(old(columns)[j], toNumeric)
        invariant forall j :: i <= j < |columns| ==> columns[j] == old(columns)[j]
      {
        var col := columns[i];
        if IsAmountName(col.name) && col.dtype == Object {
          columns := columns[i := Coerced(col, toNumeric)];
        }
      }
    }
  }

  /** The columns after the whole upload step (lines 74-83). */
  function UploadedColumns(cols: seq<Column>, toNumeric: seq<string> -> DType): seq<Column> {
    var named := WithCleanNames(NormalizedColumns(cols));
    seq(|named|, i requires 0 <= i < |named| => Coerced(named[i], toNumeric))
  }

  /** The table methods, run in order, leave exactly `UploadedColumns`. */
  lemma UploadedBySteps(cols: seq<Column>, named: seq<Column>, final: seq<Column>, toNumeric: seq<string> -> DType)
    requires named == WithCleanNames(NormalizedColumns(cols))
    requires |final| == |named| && forall i :: 0 <= i < |final| ==> final[i] == Coerced(named[i], toNumeric)
    ensures final == UploadedColumns(cols, toNumeric)
  {
  }

  /** The clean-name step adds at most the `clean_emp_name` column and changes no other. */
  lemma WithCleanNamesColumns(cols: seq<Column>)
    ensures forall c :: c in WithCleanNames(cols) ==> c in cols || c.name == CleanNameColumn
    ensures forall c :: c in cols && c.name != CleanNameColumn ==> c in WithCleanNames(cols)
  {
    forall c | c in cols && c.name != CleanNameColumn ensures c in WithCleanNames(cols) {
      var k :| 0 <= k < |cols| && cols[k] == c;
      assert WithCleanNames(cols)[k] == c;
    }
    match FirstContaining(Names(cols), "name")
    case None =>
    case Some(i) =>
      var added := WithCleanNames(cols)[|WithCleanNames(cols)| - 1];
      forall c | c in WithCleanNames(cols) ensures c in cols || c.name == CleanNameColumn {
        var k :| 0 <= k < |WithCleanNames(cols)| && WithCleanNames(cols)[k] == c;
        match IndexOfName(cols, CleanNameColumn)
        case Some(j) => if k != j { assert c == cols[k]; }
        case None => if k < |cols| { assert c == cols[k]; }
      }
  }

  /** Every name `NormalizedColumns` leaves is already normalised. */
  lemma NormalizedColumnsFixed(cols: seq<Column>)
    ensures forall c :: c in NormalizedColumns(cols) ==> NormalizeName(c.name) == c.name
  {
    var normal := NormalizedColumns(cols);
    forall c | c in normal ensures NormalizeName(c.name) == c.name {
      var k :| 0 <= k < |normal| && normal[k] == c;
      NormalizeNameIdempotent(cols[k].name);
    }
  }

  lemma CleanNameColumnNormalized()
    ensures NormalizeName(CleanNameColumn) == CleanNameColumn
  {
    assert IsStripped(CleanNameColumn) && IsLower(CleanNameColumn);
    LowerOfLower(CleanNameColumn);
  }

  /** After an upload every column name is stripped and lower-case, the added one included. */
  lemma UploadedNamesNormalized(cols: seq<Column>, toNumeric: seq<string> -> DType)
    ensures forall c :: c in UploadedColumns(cols, toNumeric) ==> NormalizeName(c.name) == c.name
  {
    var normal := NormalizedColumns(cols);
    var named := WithCleanNames(normal);
    NormalizedColumnsFixed(cols);
    WithCleanNamesColumns(normal);
    CleanNameColumnNormalized();
    var up := UploadedColumns(cols, toNumeric);
    forall c | c in up ensures NormalizeName(c.name) == c.name {
      var k :| 0 <= k < |up| && up[k] == c;
      assert c.name == named[k].name && named[k] in named;
    }
  }

  // ---------------------------------------------------------------- schema and summary

  /** One line of `get_column_info`. */
  function ColumnLine(c: Column): string {
    "- '" + c.name + "' (type: " + DTypeName(c.dtype) + ")"
  }

  /** Lines 29-30: one line per column, joined by newlines. */
  function ColumnInfo(cols: seq<Column>): string {
    Join(seq(|cols|, i requires 0 <= i < |cols| => ColumnLine(cols[i])), "\n")
  }

  /**
    The schema text has exactly one line per column, in column order, when no name
    or dtype contains a newline.
   */
  lemma ColumnInfoLines(cols: seq<Column>)
    requires |cols| >= 1
    requires forall i :: 0 <= i < |cols| ==> '\n' !in cols[i].name && '\n' !in DTypeName(cols[i].dtype)
    ensures |Split(ColumnInfo(cols), '\n')| == |cols|
    ensures forall i :: 0 <= i < |cols| ==> Split(ColumnInfo(cols), '\n')[i] == ColumnLine(cols[i])
  {
    var lines := seq(|cols|, i requires 0 <= i < |cols| => ColumnLine(cols[i]));
    forall i | 0 <= i < |cols| ensures '\n' !in lines[i] {
      assert lines[i] == "- '" + cols[i].name + "' (type: " + DTypeName(cols[i].dtype) + ")";
    }
    SplitJoin(lines, '\n');
  }

  /** The facts `get_system_prompt` puts in its summary, in order. */
  datatype SummaryLine =
    | Shape(records: nat, columns: nat)
    | TopDepartment(column: string)
    | SalaryRange(column: string)

  function LowerNames(cols: seq<Column>): (names: seq<string>)
    ensures |names| == |cols| && forall i :: 0 <= i < |cols| ==> names[i] == Lower(cols[i].name)
  {
    seq(|cols|, i requires 0 <= i < |cols| => Lower(cols[i].name))
  }

  /** Column `i` is the first whose lower-cased name contains `token`, as `next(...)` on lines 34 and 38 picks it. */
  predicate FirstWith(cols: seq<Column>, i: int, token: string) {
    0 <= i < |cols| && Contains(Lower(cols[i].name), token)
    && forall j :: 0 <= j < i ==> !Contains(Lower(cols[j].name), token)
  }

  /** `FirstContaining` over the lower-cased names finds exactly the first column. */
  lemma FirstContainingLower(cols: seq<Column>, token: string)
    ensures FirstContaining(LowerNames(cols), token).Some? ==> FirstWith(cols, FirstContaining(LowerNames(cols), token).value, token)
    ensures FirstContaining(LowerNames(cols), token).None? ==> forall i :: !FirstWith(cols, i, token)
  {
  }

  /**
    Lines 34-36: a department line for the first column whose lower-cased name
    contains `dept`, present exactly when there is such a column.
   */
  function DepartmentLine(cols: seq<Column>): (d: seq<SummaryLine>)
    ensures |d| <= 1
    ensures d != [] <==> exists j :: 0 <= j < |cols| && Contains(Lower(cols[j].name), "dept")
    ensures forall i :: FirstWith(cols, i, "dept") ==> d == [TopDepartment(cols[i].name)]
  {
    FirstContainingLower(cols, "dept");
    match FirstContaining(LowerNames(cols), "dept")
    case Some(i) => [TopDepartment(cols[i].name)]
    case None => []
  }

  /**
    Lines 38-40: a salary line for the first column whose lower-cased name contains
    `sal`, present exactly when that column is numeric.
   */
  function SalaryLine(cols: seq<Column>): (d: seq<SummaryLine>)
    ensures |d| <= 1
    ensures forall l :: l in d ==> l.SalaryRange?
    ensures forall i :: FirstWith(cols, i, "sal") && IsNumeric(cols[i].dtype) ==> d == [SalaryRange(cols[i].name)]
    ensures d != [] ==> exists i :: FirstWith(cols, i, "sal") && IsNumeric(cols[i].dtype)
  {
    FirstContainingLower(cols, "sal");
    match FirstContaining(LowerNames(cols), "sal")
    case Some(i) => if IsNumeric(cols[i].dtype) then [SalaryRange(cols[i].name)] else []
    case None => []
  }

  /**
    Lines 33-40: the shape first; then the most frequent value of the first column
    whose lower-cased name contains `dept`, if any; then the range of the first
    column whose lower-cased name contains `sal`, if any and if it is numeric.
   */
  function Summary(rowCount: nat, cols: seq<Column>): (r: seq<SummaryLine>)
    ensures 1 <= |r| <= 3 && r[0] == Shape(rowCount, |cols|)
    ensures forall i :: 1 <= i < |r| ==> !r[i].Shape?
    ensures (exists i :: 0 <= i < |r| && r[i].TopDepartment?) <==> (exists j :: 0 <= j < |cols| && Contains(Lower(cols[j].name), "dept"))
    ensures forall i :: FirstWith(cols, i, "dept") ==> |r| >= 2 && r[1] == TopDepartment(cols[i].name)
    ensures forall i :: FirstWith(cols, i, "sal") && IsNumeric(cols[i].dtype) ==> r[|r| - 1] == SalaryRange(cols[i].name)
    ensures (exists k :: 0 <= k < |r| && r[k].SalaryRange?) ==> exists i :: FirstWith(cols, i, "sal") && IsNumeric(cols[i].dtype)
    ensures forall k :: 0 <= k < |r| && r[k].TopDepartment? ==> k == 1
    ensures forall k :: 0 <= k < |r| && r[k].SalaryRange? ==> k == |r| - 1
  {
    var r := [Shape(rowCount, |cols|)] + DepartmentLine(cols) + SalaryLine(cols);
    SummaryFacts(rowCount, cols, r);
    r
  }

  /** The facts `Summary` promises, for the lines it puts together. */
  lemma SummaryFacts(rowCount: nat, cols: seq<Column>, r: seq<SummaryLine>)
    requires r == [Shape(rowCount, |cols|)] + DepartmentLine(cols) + SalaryLine(cols)
    ensures 1 <= |r| <= 3 && r[0] == Shape(rowCount, |cols|)
    ensures forall i :: 1 <= i < |r| ==> !r[i].Shape?
    ensures (exists i :: 0 <= i < |r| && r[i].TopDepartment?) <==> (exists j :: 0 <= j < |cols| && Contains(Lower(cols[j].name), "dept"))
    ensures forall i :: FirstWith(cols, i, "dept") ==> |r| >= 2 && r[1] == TopDepartment(cols[i].name)
    ensures forall i :: FirstWith(cols, i, "sal") && IsNumeric(cols[i].dtype) ==> r[|r| - 1] == SalaryRange(cols[i].name)
    ensures (exists k :: 0 <= k < |r| && r[k].SalaryRange?) ==> exists i :: FirstWith(cols, i, "sal") && IsNumeric(cols[i].dtype)
    ensures forall k :: 0 <= k < |r| && r[k].TopDepartment? ==> k == 1
    ensures forall k :: 0 <= k < |r| && r[k].SalaryRange? ==> k == |r| - 1
  {
    var dept, sal := DepartmentLine(cols), SalaryLine(cols);
    assert r[1..] == dept + sal;
    SummaryParts(r, dept, sal);
    forall i | FirstWith(cols, i, "dept") ensures |r| >= 2 && r[1] == TopDepartment(cols[i].name) {
      assert dept == [TopDepartment(cols[i].name)];
    }
    forall i | FirstWith(cols, i, "sal") && IsNumeric(cols[i].dtype) ensures r[|r| - 1] == SalaryRange(cols[i].name) {
      assert sal == [SalaryRange(cols[i].name)];
    }
    assert !r[0].TopDepartment? && !r[0].SalaryRange?;
  }

  /** Where the lines of a summary come from: each line after the first is a department or salary line, in that order. */
  lemma SummaryParts(r: seq<SummaryLine>, dept: seq<SummaryLine>, sal: seq<SummaryLine>)
    requires |r| >= 1 && r[0].Shape? && r[1..] == dept + sal && |dept| <= 1 && |sal| <= 1
    requires forall l :: l in dept ==> l.TopDepartment?
    requires forall l :: l in sal ==> l.SalaryRange?
    ensures (exists i :: 0 <= i < |r| && r[i].TopDepartment?) <==> dept != []
    ensures (exists i :: 0 <= i < |r| && r[i].SalaryRange?) <==> sal != []
    ensures forall i :: 1 <= i < |r| ==> r[i] in dept || r[i] in sal
    ensures forall i :: 1 <= i < |r| && r[i].TopDepartment? ==> i == 1
    ensures forall i :: 1 <= i < |r| && r[i].SalaryRange? ==> i == |r| - 1
    ensures dept != [] ==> r[1] == dept[0]
    ensures sal != [] ==> r[|r| - 1] == sal[0]
  {
    forall i | 1 <= i < |r|
      ensures r[i] in dept || r[i] in sal
      ensures r[i].TopDepartment? ==> i == 1
      ensures r[i].SalaryRange? ==> i == |r| - 1
    {
      assert r[i] == (dept + sal)[i - 1];
      if i - 1 < |dept| {
        assert r[i] == dept[i - 1];
      } else {
        assert r[i] == sal[i - 1 - |dept|];
      }
    }
    if dept != [] {
      assert r[1] == dept[0];
    }
    if sal != [] {
      assert r[|r| - 1] == (dept + sal)[|dept|];
    }
  }

  /** The first summary line: "This dataset contains N records and M columns." */
  function ShapeSentence(records: nat, columns: nat): string {
    "This dataset contains " + NatStr(records) + " records and " + NatStr(columns) + " columns."
  }

  /** The sentence states the shape exactly: different shapes never give the same sentence. */
  lemma ShapeSentenceInjective(r1: nat, c1: nat, r2: nat, c2: nat)
    requires ShapeSentence(r1, c1) == ShapeSentence(r2, c2)
    ensures r1 == r2 && c1 == c2
  {
    var lead, mid, tail := "This dataset contains ", " records and ", " columns.";
    assert !IsDigit(mid[0]) && !IsDigit(tail[0]);
    NumbersInTextInjective(lead, mid, tail, r1, c1, r2, c2);
  }

  /** Two numbers written between fixed words that do not start with a digit can be read back. */
  lemma NumbersInTextInjective(lead: string, mid: string, tail: string, r1: nat, c1: nat, r2: nat, c2: nat)
    requires mid != [] && tail != [] && !IsDigit(mid[0]) && !IsDigit(tail[0])
    requires lead + NatStr(r1) + mid + NatStr(c1) + tail == lead + NatStr(r2) + mid + NatStr(c2) + tail
    ensures r1 == r2 && c1 == c2
  {
    DigitsInTextInjective(lead, mid, tail, NatStr(r1), NatStr(c1), NatStr(r2), NatStr(c2));
    ParseNatStr(r1);
    ParseNatStr(r2);
    ParseNatStr(c1);
    ParseNatStr(c2);
  }

  lemma DigitsInTextInjective(lead: string, mid: string, tail: string, a1: string, b1: string, a2: string, b2: string)
    requires AllDigits(a1) && AllDigits(b1) && AllDigits(a2) && AllDigits(b2)
    requires mid != [] && tail != [] && !IsDigit(mid[0]) && !IsDigit(tail[0])
    requires lead + a1 + mid + b1 + tail == lead + a2 + mid + b2 + tail
    ensures a1 == a2 && b1 == b2
  {
    var x1, x2 := a1 + (mid + (b1 + tail)), a2 + (mid + (b2 + tail));
    assert lead + a1 + mid + b1 + tail == lead + x1;
    assert lead + a2 + mid + b2 + tail == lead + x2;
    assert x1 == x2 by {
      assert x1 == (lead + x1)[|lead|..] && x2 == (lead + x2)[|lead|..];
    }
    DigitsPrefix(a1, mid + (b1 + tail), a2, mid + (b2 + tail));
    var y1, y2 := b1 + tail, b2 + tail;
    assert y1 == y2 by {
      assert y1 == (mid + y1)[|mid|..] && y2 == (mid + y2)[|mid|..];
    }
    DigitsPrefix(b1, tail, b2, tail);
  }
}
