/** Validation of parsed CSV records against a dataset contract (`packages/pipelines/csv_validation.py`). */
module CsvValidation {
  import opened Prelude
  import opened Text

  datatype ColumnType = StringType | IntegerType | DecimalType | DateType | DateTimeType | BooleanType

  datatype Column = Column(name: string, kind: ColumnType, required: bool)

  datatype DatasetContract = DatasetContract(columns: seq<Column>, allowExtraColumns: bool)

  type Record = seq<string>

  /** Whether Python's `int`, `Decimal` or `fromisoformat` accepts a text. */
  type TypeParsers = (ColumnType, string) -> bool

  datatype ValidationIssue =
    | EmptyFile
    | DuplicateColumn(column: string)
    | MissingRequiredColumn(column: string)
    | UnexpectedColumn(column: string)
    | ColumnCountMismatch(rowNumber: nat)
    | MissingRequiredValue(column: string, rowNumber: nat)
    | InvalidValue(kind: ColumnType, column: string, rowNumber: nat)

  datatype ValidationResult = ValidationResult(header: seq<string>, rowCount: nat, issues: seq<ValidationIssue>)

  const BOOLEANS: set<string> := {"true", "false", "1", "0", "yes", "no"}

  predicate WellTyped(parsers: TypeParsers, kind: ColumnType, value: string) {
    match kind
    case StringType => true
    case BooleanType => Lower(Strip(value)) in BOOLEANS
    case _ => parsers(kind, value)
  }

  /** `contract.column_map().get(name)`: of columns with the same name the last one counts. */
  function Lookup(columns: seq<Column>, name: string): Option<Column> {
    if columns == [] then None
    else if columns[|columns| - 1].name == name then Some(columns[|columns| - 1])
    else Lookup(columns[..|columns| - 1], name)
  }

  lemma {:induction false} LookupFinds(columns: seq<Column>, name: string)
    ensures Lookup(columns, name).Some? <==> exists i :: 0 <= i < |columns| && columns[i].name == name
    ensures Lookup(columns, name).Some? ==>
              Lookup(columns, name).value in columns && Lookup(columns, name).value.name == name
    decreases |columns|
  {
    if columns != [] && columns[|columns| - 1].name != name {
      LookupFinds(columns[..|columns| - 1], name);
    }
  }

  function StrippedAll(record: Record): (r: seq<string>)
    ensures |r| == |record| && forall i :: 0 <= i < |r| ==> r[i] == Strip(record[i])
  {
    seq(|record|, i requires 0 <= i < |record| => Strip(record[i]))
  }

  predicate BlankRecord(record: Record) {
    forall i :: 0 <= i < |record| ==> Blank(record[i])
  }

  function CellAt(record: Record, i: nat): string {
    if i < |record| then Strip(record[i]) else ""
  }

  // ------------------------------------------------------------------ what each issue means

  predicate Repeated(values: seq<string>, v: string) {
    exists i, j :: 0 <= i < j < |values| && values[i] == v && values[j] == v
  }

  predicate MissesColumn(header: seq<string>, columns: seq<Column>, name: string) {
    Lookup(columns, name).Some? && Lookup(columns, name).value.required && name !in header
  }

  predicate MissesValueAt(record: Record, header: seq<string>, columns: seq<Column>, i: nat)
    requires i < |header|
  {
    Lookup(columns, header[i]).Some? && Lookup(columns, header[i]).value.required && CellAt(record, i) == ""
  }

  predicate IllTypedAt(parsers: TypeParsers, record: Record, header: seq<string>, columns: seq<Column>, i: nat)
    requires i < |header|
  {
    && Lookup(columns, header[i]).Some? && CellAt(record, i) != ""
    && !WellTyped(parsers, Lookup(columns, header[i]).value.kind, CellAt(record, i))
  }

  /** `issue` is about the record itself, which has row number `n`. */
  ghost predicate JustifiedInRow(
    parsers: TypeParsers, record: Record, header: seq<string>, columns: seq<Column>, n: nat, issue: ValidationIssue)
  {
    match issue
    case ColumnCountMismatch(m) => m == n && |record| != |header|
    case MissingRequiredValue(c, m) =>
      m == n && exists i: nat :: i < |header| && header[i] == c && MissesValueAt(record, header, columns, i)
    case InvalidValue(kind, c, m) =>
      m == n && exists i: nat :: i < |header| && header[i] == c && IllTypedAt(parsers, record, header, columns, i)
                 && Lookup(columns, c).value.kind == kind
    case _ => false
  }

  /** Exactly the issues a file deserves; `records[0]` is the header, records count from row 1. */
  ghost predicate Justified(
    parsers: TypeParsers, records: seq<Record>, contract: DatasetContract, issue: ValidationIssue)
  {
    if records == [] then issue == EmptyFile
    else
      var header := StrippedAll(records[0]);
      match issue
      case EmptyFile => false
      case DuplicateColumn(c) => Repeated(header, c)
      case MissingRequiredColumn(c) => MissesColumn(header, contract.columns, c)
      case UnexpectedColumn(c) => !contract.allowExtraColumns && c in header && Lookup(contract.columns, c).None?
      case _ =>
        exists k :: 1 <= k < |records| && !BlankRecord(records[k]) &&
          JustifiedInRow(parsers, records[k], header, contract.columns, k + 1, issue)
  }

  // ------------------------------------------------------------------ how often each issue is reported

  /** The issue of one cell, if it has one. */
  function CellIssueAt(
    parsers: TypeParsers, record: Record, header: seq<string>, columns: seq<Column>, n: nat, i: nat)
    : Option<ValidationIssue>
    requires i < |header|
  {
    if MissesValueAt(record, header, columns, i) then Some(MissingRequiredValue(header[i], n))
    else if IllTypedAt(parsers, record, header, columns, i)
    then Some(InvalidValue(Lookup(columns, header[i]).value.kind, header[i], n))
    else None
  }

  /** How many of the first `k` cells have the issue. */
  function CellTimes(
    parsers: TypeParsers, record: Record, header: seq<string>, columns: seq<Column>, n: nat, k: nat,
    issue: ValidationIssue): nat
    requires k <= |header|
  {
    if k == 0 then 0
    else
      CellTimes(parsers, record, header, columns, n, k - 1, issue) +
      Once(CellIssueAt(parsers, record, header, columns, n, k - 1) == Some(issue))
  }

  function RowTimes(
    parsers: TypeParsers, record: Record, header: seq<string>, columns: seq<Column>, n: nat,
    issue: ValidationIssue): nat
  {
    Once(issue == ColumnCountMismatch(n) && |record| != |header|) +
    CellTimes(parsers, record, header, columns, n, |header|, issue)
  }

  ghost function HeaderTimes(header: seq<string>, contract: DatasetContract, issue: ValidationIssue): nat {
    match issue
    case DuplicateColumn(c) => Once(Repeated(header, c))
    case MissingRequiredColumn(c) => Once(MissesColumn(header, contract.columns, c))
    case UnexpectedColumn(c) =>
      if !contract.allowExtraColumns && Lookup(contract.columns, c).None? then multiset(header)[c] else 0
    case _ => 0
  }

  predicate AboutRow(issue: ValidationIssue) {
    issue.ColumnCountMismatch? || issue.MissingRequiredValue? || issue.InvalidValue?
  }

  /** A header fault once, but an unexpected name as often as it occurs; a cell's issue once for that cell. */
  ghost function Times(
    parsers: TypeParsers, records: seq<Record>, contract: DatasetContract, issue: ValidationIssue): nat
  {
    if records == [] then Once(issue == EmptyFile)
    else if !AboutRow(issue) then HeaderTimes(StrippedAll(records[0]), contract, issue)
    else if 2 <= issue.rowNumber <= |records| && !BlankRecord(records[issue.rowNumber - 1])
    then RowTimes(parsers, records[issue.rowNumber - 1], StrippedAll(records[0]), contract.columns, issue.rowNumber,
      issue)
    else 0
  }

  lemma {:induction false} CellTimesPositive(
    parsers: TypeParsers, record: Record, header: seq<string>, columns: seq<Column>, n: nat, k: nat,
    issue: ValidationIssue)
    requires k <= |header|
    ensures CellTimes(parsers, record, header, columns, n, k, issue) > 0 <==>
            exists i: nat :: i < k && CellIssueAt(parsers, record, header, columns, n, i) == Some(issue)
  {
    if k == 0 {
    } else {
      CellTimesPositive(parsers, record, header, columns, n, k - 1, issue);
    }
  }

  lemma {:induction false} RowTimesPositive(
    parsers: TypeParsers, record: Record, header: seq<string>, columns: seq<Column>, n: nat, issue: ValidationIssue)
    ensures RowTimes(parsers, record, header, columns, n, issue) > 0 <==>
              JustifiedInRow(parsers, record, header, columns, n, issue)
    ensures RowTimes(parsers, record, header, columns, n, issue) > 0 ==> AboutRow(issue) && issue.rowNumber == n
  {
    CellTimesPositive(parsers, record, header, columns, n, |header|, issue);
    if i: nat :| i < |header| && CellIssueAt(parsers, record, header, columns, n, i) == Some(issue) {
      assert AboutRow(issue);
    }
    if JustifiedInRow(parsers, record, header, columns, n, issue) && !issue.ColumnCountMismatch? {
      JustifiedCell(parsers, record, header, columns, n, issue);
    }
  }

  lemma {:induction false} JustifiedCell(
    parsers: TypeParsers, record: Record, header: seq<string>, columns: seq<Column>, n: nat, issue: ValidationIssue)
    requires JustifiedInRow(parsers, record, header, columns, n, issue) && !issue.ColumnCountMismatch?
    ensures exists i: nat :: i < |header| && CellIssueAt(parsers, record, header, columns, n, i) == Some(issue)
  {
    match issue {
      case MissingRequiredValue(c, m) =>
        var i: nat :| i < |header| && header[i] == c && MissesValueAt(record, header, columns, i);
        assert CellIssueAt(parsers, record, header, columns, n, i) == Some(issue);
      case InvalidValue(kind, c, m) =>
        var i: nat :| i < |header| && header[i] == c && IllTypedAt(parsers, record, header, columns, i)
          && Lookup(columns, c).value.kind == kind;
        assert CellIssueAt(parsers, record, header, columns, n, i) == Some(issue);
      case _ =>
    }
  }

  /** What is counted is what is justified. */
  lemma {:induction false} CountedExactlyWhenJustified(
    parsers: TypeParsers, records: seq<Record>, contract: DatasetContract, issue: ValidationIssue)
    ensures Times(parsers, records, contract, issue) > 0 <==> Justified(parsers, records, contract, issue)
  {
    if records != [] && AboutRow(issue) { RowIssuesCounted(parsers, records, contract, issue); }
  }

  lemma {:induction false} RowIssuesCounted(
    parsers: TypeParsers, records: seq<Record>, contract: DatasetContract, issue: ValidationIssue)
    requires records != [] && AboutRow(issue)
    ensures Times(parsers, records, contract, issue) > 0 <==> Justified(parsers, records, contract, issue)
  {
    RowIssuesNameTheirRow(parsers, records, contract, issue);
    var m := issue.rowNumber;
    if 2 <= m <= |records| {
      RowTimesPositive(parsers, records[m - 1], StrippedAll(records[0]), contract.columns, m, issue);
    }
  }

  lemma {:induction false} RowIssuesNameTheirRow(
    parsers: TypeParsers, records: seq<Record>, contract: DatasetContract, issue: ValidationIssue)
    requires records != [] && AboutRow(issue)
    ensures Justified(parsers, records, contract, issue) <==>
            && 2 <= issue.rowNumber <= |records| && !BlankRecord(records[issue.rowNumber - 1])
            && JustifiedInRow(parsers, records[issue.rowNumber - 1], StrippedAll(records[0]), contract.columns,
              issue.rowNumber, issue)
  {
    var header, m := StrippedAll(records[0]), issue.rowNumber;
    assert Justified(parsers, records, contract, issue) <==>
           exists k :: 1 <= k < |records| && !BlankRecord(records[k])
             && JustifiedInRow(parsers, records[k], header, contract.columns, k + 1, issue);
    forall k | 1 <= k < |records| && JustifiedInRow(parsers, records[k], header, contract.columns, k + 1, issue)
      ensures k + 1 == m {}
  }

  /** What it takes to pass. */
  ghost predicate Conforms(parsers: TypeParsers, records: seq<Record>, contract: DatasetContract) {
    && records != []
    && var header := StrippedAll(records[0]);
       && Distinct(header)
       && (forall c :: c in contract.columns && Lookup(contract.columns, c.name) == Some(c) && c.required ==>
         c.name in header)
       && (contract.allowExtraColumns || forall i :: 0 <= i < |header| ==> Lookup(contract.columns, header[i]).Some?)
       && forall k :: 1 <= k < |records| && !BlankRecord(records[k]) ==>
            RowConforms(parsers, records[k], header, contract.columns)
  }

  ghost predicate RowConforms(parsers: TypeParsers, record: Record, header: seq<string>, columns: seq<Column>) {
    && |record| == |header|
    && forall i :: 0 <= i < |header| && Lookup(columns, header[i]).Some? ==>
         var column := Lookup(columns, header[i]).value;
         if Blank(record[i]) then !column.required else WellTyped(parsers, column.kind, Strip(record[i]))
  }

  function NonBlank(records: seq<Record>): seq<Record> {
    if records == [] then []
    else
      NonBlank(records[..|records| - 1]) +
      if BlankRecord(records[|records| - 1]) then [] else [records[|records| - 1]]
  }

  // ------------------------------------------------------------------ the validator

  /** `_duplicate_values`: each repeated value once. */
  method DuplicateValues(values: seq<string>) returns (duplicates: seq<string>)
    ensures Distinct(duplicates)
    ensures forall v :: v in duplicates <==> Repeated(values, v)
  {
    var seen: set<string> := {};
    duplicates := [];
    for n := 0 to |values|
      invariant forall v :: v in seen <==> v in values[..n]
      invariant Distinct(duplicates)
      invariant forall v :: v in duplicates <==> Repeated(values[..n], v)
    {
      var value := values[n];
      RepeatedGrows(values, n);
      if value in seen && value !in duplicates {
        duplicates := duplicates + [value];
      }
      seen := seen + {value};
    }
    assert values[..|values|] == values;
  }

  lemma RepeatedGrows(values: seq<string>, n: nat)
    requires n < |values|
    ensures forall v :: Repeated(values[..n + 1], v) <==>
              Repeated(values[..n], v) || (v == values[n] && v in values[..n])
  {
    forall v
      ensures Repeated(values[..n + 1], v) <==> Repeated(values[..n], v) || (v == values[n] && v in values[..n])
    {
      if Repeated(values[..n + 1], v) {
        var i, j :| 0 <= i < j < n + 1 && values[..n + 1][i] == v && values[..n + 1][j] == v;
        assert values[..n][i] == v;
        if j < n { assert values[..n][j] == v; }
      }
      if Repeated(values[..n], v) {
        var i, j :| 0 <= i < j < n && values[..n][i] == v && values[..n][j] == v;
        assert values[..n + 1][i] == v && values[..n + 1][j] == v;
      }
      if v == values[n] && v in values[..n] {
        var i :| 0 <= i < n && values[..n][i] == v;
        assert values[..n + 1][i] == v && values[..n + 1][n] == v;
      }
    }
  }

  /** The three header checks. */
  method CheckHeader(header: seq<string>, contract: DatasetContract) returns (issues: seq<ValidationIssue>)
    ensures forall issue :: multiset(issues)[issue] == HeaderTimes(header, contract, issue)
  {
    var repeated := DuplicateColumns(header);
    var missing := MissingColumns(header, contract.columns);
    var unexpected: seq<ValidationIssue> := [];
    if !contract.allowExtraColumns {
      unexpected := UnexpectedColumns(header, contract.columns);
    }
    issues := repeated + missing + unexpected;
  }

  method DuplicateColumns(header: seq<string>) returns (issues: seq<ValidationIssue>)
    ensures forall issue :: multiset(issues)[issue] == Once(issue.DuplicateColumn? && Repeated(header, issue.column))
  {
    var duplicates := DuplicateValues(header);
    issues := [];
    for n := 0 to |duplicates|
      invariant forall issue ::
                  multiset(issues)[issue] == Once(issue.DuplicateColumn? && issue.column in duplicates[..n])
    {
      issues := issues + [DuplicateColumn(duplicates[n])];
    }
    assert duplicates[..|duplicates|] == duplicates;
  }

  method MissingColumns(header: seq<string>, columns: seq<Column>) returns (issues: seq<ValidationIssue>)
    ensures forall issue :: multiset(issues)[issue] ==
              Once(issue.MissingRequiredColumn? && MissesColumn(header, columns, issue.column))
  {
    issues := [];
    var names: set<string> := {};
    for n := 0 to |columns|
      invariant forall name :: name in names <==> exists i :: 0 <= i < n && columns[i].name == name
      invariant forall issue :: multiset(issues)[issue] ==
                  Once(issue.MissingRequiredColumn? && issue.column in names
                    && MissesColumn(header, columns, issue.column))
    {
      var name := columns[n].name;
      LookupFinds(columns, name);
      if name !in names {
        var column := Lookup(columns, name).value;
        if column.required && name !in header {
          issues := issues + [MissingRequiredColumn(name)];
        }
      }
      names := names + {name};
    }
    forall name | Lookup(columns, name).Some? ensures name in names { LookupFinds(columns, name); }
  }

  method UnexpectedColumns(header: seq<string>, columns: seq<Column>) returns (issues: seq<ValidationIssue>)
    ensures forall issue :: multiset(issues)[issue] ==
              if issue.UnexpectedColumn? && Lookup(columns, issue.column).None?
                then multiset(header)[issue.column] else 0
  {
    issues := [];
    for n := 0 to |header|
      invariant forall issue :: multiset(issues)[issue] ==
                  if issue.UnexpectedColumn? && Lookup(columns, issue.column).None?
                    then multiset(header[..n])[issue.column] else 0
    {
      assert header[..n + 1] == header[..n] + [header[n]];
      if Lookup(columns, header[n]).None? {
        issues := issues + [UnexpectedColumn(header[n])];
      }
    }
    assert header[..|header|] == header;
  }

  /** The checks of one record that is not blank. */
  method CheckRow(parsers: TypeParsers, record: Record, header: seq<string>, columns: seq<Column>, n: nat)
    returns (issues: seq<ValidationIssue>)
    ensures forall issue :: multiset(issues)[issue] == RowTimes(parsers, record, header, columns, n, issue)
  {
    issues := if |record| != |header| then [ColumnCountMismatch(n)] else [];
    for k := 0 to |header|
      invariant forall issue :: multiset(issues)[issue] ==
                  Once(issue == ColumnCountMismatch(n) && |record| != |header|) +
                  CellTimes(parsers, record, header, columns, n, k, issue)
    {
      var column := Lookup(columns, header[k]);
      if column.Some? {
        var value := CellAt(record, k);
        if value == "" {
          if column.value.required { issues := issues + [MissingRequiredValue(header[k], n)]; }
        } else if !WellTyped(parsers, column.value.kind, value) {
          issues := issues + [InvalidValue(column.value.kind, header[k], n)];
        }
      }
    }
  }

  /** The row issues of the first `k` records. */
  ghost function RowTimesUpTo(
    parsers: TypeParsers, records: seq<Record>, contract: DatasetContract, k: nat, issue: ValidationIssue): nat
    requires 1 <= k <= |records|
  {
    if AboutRow(issue) && issue.rowNumber <= k then Times(parsers, records, contract, issue) else 0
  }

  lemma {:induction false} OneMoreRow(
    parsers: TypeParsers, records: seq<Record>, contract: DatasetContract, k: nat, issue: ValidationIssue)
    requires 1 <= k < |records|
    ensures RowTimesUpTo(parsers, records, contract, k + 1, issue) ==
            RowTimesUpTo(parsers, records, contract, k, issue) +
            if BlankRecord(records[k]) then 0
            else RowTimes(parsers, records[k], StrippedAll(records[0]), contract.columns, k + 1, issue)
  {
    RowTimesPositive(parsers, records[k], StrippedAll(records[0]), contract.columns, k + 1, issue);
  }

  lemma {:induction false} OneMoreRowForAll(
    parsers: TypeParsers, records: seq<Record>, contract: DatasetContract, k: nat)
    requires 1 <= k < |records|
    ensures forall issue :: RowTimesUpTo(parsers, records, contract, k + 1, issue) ==
              RowTimesUpTo(parsers, records, contract, k, issue) +
              if BlankRecord(records[k]) then 0
              else RowTimes(parsers, records[k], StrippedAll(records[0]), contract.columns, k + 1, issue)
  {
    forall issue ensures RowTimesUpTo(parsers, records, contract, k + 1, issue) ==
                           RowTimesUpTo(parsers, records, contract, k, issue) +
                           if BlankRecord(records[k]) then 0
                           else RowTimes(parsers, records[k], StrippedAll(records[0]), contract.columns, k + 1, issue)
    {
      OneMoreRow(parsers, records, contract, k, issue);
    }
  }

  /** The row issues of a file without its header, and how many records are not blank. */
  method CheckRows(parsers: TypeParsers, records: seq<Record>, contract: DatasetContract)
    returns (issues: seq<ValidationIssue>, rowCount: nat)
    requires records != []
    ensures forall issue :: multiset(issues)[issue] == RowTimesUpTo(parsers, records, contract, |records|, issue)
    ensures rowCount == |NonBlank(records[1..])|
  {
    var header := StrippedAll(records[0]);
    issues, rowCount := [], 0;
    for k := 1 to |records|
      invariant rowCount == |NonBlank(records[1..k])|
      invariant forall issue :: multiset(issues)[issue] == RowTimesUpTo(parsers, records, contract, k, issue)
    {
      assert records[1..k + 1][..k - 1] == records[1..k];
      OneMoreRowForAll(parsers, records, contract, k);
      if !BlankRecord(records[k]) {
        var found := CheckRow(parsers, records[k], header, contract.columns, k + 1);
        issues, rowCount := issues + found, rowCount + 1;
      }
    }
    assert records[1..|records|] == records[1..];
  }

  /** `validate_csv_text`: it reports exactly the justified issues and counts exactly the records that are not blank. */
  method ValidateCsv(parsers: TypeParsers, records: seq<Record>, contract: DatasetContract)
    returns (result: ValidationResult)
    ensures forall issue :: multiset(result.issues)[issue] == Times(parsers, records, contract, issue)
    ensures forall issue :: issue in result.issues <==> Justified(parsers, records, contract, issue)
    ensures records != [] ==> result.header == StrippedAll(records[0]) && result.rowCount == |NonBlank(records[1..])|
    ensures records == [] ==> result.header == [] && result.rowCount == 0
  {
    if records == [] { return ValidationResult([], 0, [EmptyFile]); }
    var header := StrippedAll(records[0]);
    var headerIssues := CheckHeader(header, contract);
    var rowIssues, rowCount := CheckRows(parsers, records, contract);
    result := ValidationResult(header, rowCount, headerIssues + rowIssues);
    ReportedExactlyWhenJustified(parsers, records, contract, result.issues);
  }

  lemma {:induction false} ReportedExactlyWhenJustified(
    parsers: TypeParsers, records: seq<Record>, contract: DatasetContract, issues: seq<ValidationIssue>)
    requires forall issue :: multiset(issues)[issue] == Times(parsers, records, contract, issue)
    ensures forall issue :: issue in issues <==> Justified(parsers, records, contract, issue)
  {
    forall issue ensures issue in issues <==> Justified(parsers, records, contract, issue) {
      assert issue in issues <==> multiset(issues)[issue] > 0;
      CountedExactlyWhenJustified(parsers, records, contract, issue);
    }
  }

  // ------------------------------------------------------------------ sound and complete

  /** No issue is justified exactly when the file conforms: validation is sound and complete. */
  lemma PassingIsConforming(parsers: TypeParsers, records: seq<Record>, contract: DatasetContract)
    ensures (forall issue :: !Justified(parsers, records, contract, issue)) <==> Conforms(parsers, records, contract)
  {
    if records == [] {
      assert Justified(parsers, records, contract, EmptyFile);
    } else if Conforms(parsers, records, contract) {
      forall issue ensures !Justified(parsers, records, contract, issue) {
        ConformingHasNoIssue(parsers, records, contract, issue);
      }
    } else if forall issue :: !Justified(parsers, records, contract, issue) {
      NoIssueConforms(parsers, records, contract);
    }
  }

  lemma ConformingHasNoIssue(
    parsers: TypeParsers, records: seq<Record>, contract: DatasetContract, issue: ValidationIssue)
    requires Conforms(parsers, records, contract)
    ensures !Justified(parsers, records, contract, issue)
  {
    match issue {
      case MissingRequiredColumn(c) => LookupFinds(contract.columns, c);
      case _ =>
    }
  }

  lemma NoIssueConforms(parsers: TypeParsers, records: seq<Record>, contract: DatasetContract)
    requires records != [] && forall issue :: !Justified(parsers, records, contract, issue)
    ensures Conforms(parsers, records, contract)
  {
    var header, columns := StrippedAll(records[0]), contract.columns;
    forall i, j | 0 <= i < j < |header| ensures header[i] != header[j] {
      assert !Justified(parsers, records, contract, DuplicateColumn(header[i]));
    }
    forall c | c in columns && Lookup(columns, c.name) == Some(c) && c.required ensures c.name in header {
      assert !Justified(parsers, records, contract, MissingRequiredColumn(c.name));
    }
    forall i | 0 <= i < |header| && !contract.allowExtraColumns ensures Lookup(columns, header[i]).Some? {
      assert !Justified(parsers, records, contract, UnexpectedColumn(header[i]));
    }
    forall k | 1 <= k < |records| && !BlankRecord(records[k])
      ensures RowConforms(parsers, records[k], header, columns)
    {
      assert !Justified(parsers, records, contract, ColumnCountMismatch(k + 1));
      assert !JustifiedInRow(parsers, records[k], header, columns, k + 1, ColumnCountMismatch(k + 1));
      forall i | 0 <= i < |header| && Lookup(columns, header[i]).Some?
        ensures var column := Lookup(columns, header[i]).value;
                if Blank(records[k][i]) then !column.required else WellTyped(parsers, column.kind, Strip(records[k][i]))
      {
        var column := Lookup(columns, header[i]).value;
        LookupFinds(columns, header[i]);
        var missing, invalid := MissingRequiredValue(header[i], k + 1), InvalidValue(column.kind, header[i], k + 1);
        assert !Justified(parsers, records, contract, missing) && !Justified(parsers, records, contract, invalid);
        assert !JustifiedInRow(parsers, records[k], header, columns, k + 1, missing);
        assert !JustifiedInRow(parsers, records[k], header, columns, k + 1, invalid);
      }
    }
  }
}
