/** Mapping of source records to contract columns (`packages/pipelines/configured_csv_ingestion.py`). */
module CsvMapping {
  import opened Prelude
  import opened Text
  import opened CsvValidation

  datatype Rule = Rule(target: string, source: Option<string>, default: Option<string>, functionKey: Option<string>)

  datatype Call = Call(
    value: string, row: map<string, string>, target: string, source: Option<string>, default: Option<string>)

  datatype HandlerResult = Returned(value: Option<string>) | Raised

  datatype RegisteredFunction = RegisteredFunction(kind: string, handler: Call -> HandlerResult)

  type FunctionRegistry = map<string, RegisteredFunction>

  const MAPPING_KIND := "column_mapping_value"

  /** `validate_function_key(key, kind="column_mapping_value")` raises nothing. */
  predicate UsableFunction(functions: FunctionRegistry, key: string) {
    key in functions && functions[key].kind == MAPPING_KIND
  }

  datatype MapError = UnknownTargets | RowTooWide | UnknownFunction(key: string) | HandlerFailed(key: string)

  /** `rules_by_target.get(target)`: of rules with the same target the last one counts. */
  function RuleFor(rules: seq<Rule>, target: string): Option<Rule> {
    if rules == [] then None
    else if rules[|rules| - 1].target == target then Some(rules[|rules| - 1])
    else RuleFor(rules[..|rules| - 1], target)
  }

  lemma {:induction false} RuleForFinds(rules: seq<Rule>, target: string)
    ensures RuleFor(rules, target).Some? ==> RuleFor(rules, target).value in rules
    ensures RuleFor(rules, target).None? <==> forall r :: r in rules ==> r.target != target
    decreases |rules|
  {
    if rules == [] {
    } else {
      var n := |rules| - 1;
      assert rules == rules[..n] + [rules[n]];
      if rules[n].target != target { RuleForFinds(rules[..n], target); }
    }
  }

  function Names(columns: seq<Column>): (names: seq<string>)
    ensures |names| == |columns| && forall i :: 0 <= i < |names| ==> names[i] == columns[i].name
  {
    seq(|columns|, i requires 0 <= i < |columns| => columns[i].name)
  }

  /** The stripped `DictReader` row: a repeated header name keeps the last cell, a short record is padded. */
  function Normalized(header: Record, record: Record): map<string, string> {
    if header == [] then map[]
    else
      var n := |header| - 1;
      Normalized(header[..n], record)[header[n] := CellAt(record, n)]
  }

  /** Position `i` is the last of its name. */
  predicate LastOfName(header: Record, i: int) {
    0 <= i < |header| && forall j :: i < j < |header| ==> header[j] != header[i]
  }

  /** Cell `v` stands under the last header cell named `k`. */
  ghost predicate CellUnder(header: Record, record: Record, k: string, v: string) {
    exists i: nat :: LastOfName(header, i) && header[i] == k && CellAt(record, i) == v
  }

  /** A row has a cell for exactly the header's names, the one under the last of each name. */
  lemma {:induction false} NormalizedCells(header: Record, record: Record)
    ensures forall k :: k in Normalized(header, record) <==> k in header
    ensures forall k :: k in Normalized(header, record) ==> CellUnder(header, record, k, Normalized(header, record)[k])
    decreases |header|
  {
    if header == [] {
    } else {
      var n := |header| - 1;
      var front, whole := Normalized(header[..n], record), Normalized(header, record);
      NormalizedCells(header[..n], record);
      assert header == header[..n] + [header[n]];
      forall k | k in whole ensures CellUnder(header, record, k, whole[k]) {
        if k != header[n] {
          assert k in front && CellUnder(header[..n], record, k, front[k]);
          var i: nat :| LastOfName(header[..n], i) && header[..n][i] == k && CellAt(record, i) == front[k];
          assert LastOfName(header, i) && header[i] == k;
        } else {
          assert LastOfName(header, n) && header[n] == k && whole[k] == CellAt(record, n);
        }
      }
    }
  }

  /** Rows without any text are skipped. */
  predicate Skipped(header: Record, record: Record) {
    record == [] || forall k :: k in Normalized(header, record) ==> Normalized(header, record)[k] == ""
  }

  lemma MappedRowsAreNotBlank(header: Record, record: Record)
    requires !Skipped(header, record)
    ensures !BlankRecord(record)
  {
    var k :| k in Normalized(header, record) && Normalized(header, record)[k] != "";
    NormalizedCells(header, record);
    assert CellUnder(header, record, k, Normalized(header, record)[k]);
    var i: nat :| LastOfName(header, i) && header[i] == k && CellAt(record, i) == Normalized(header, record)[k];
    assert i < |record| && !Blank(record[i]);
  }

  /** A record is skipped exactly when it has no text under the last cell of any name. */
  lemma SkippedExactlyWhen(header: Record, record: Record)
    ensures Skipped(header, record) <==> record == [] || forall i :: LastOfName(header, i) ==> CellAt(record, i) == ""
  {
    var row := Normalized(header, record);
    NormalizedCells(header, record);
    if forall i :: LastOfName(header, i) ==> CellAt(record, i) == "" {
      forall k | k in row ensures row[k] == "" { assert CellUnder(header, record, k, row[k]); }
    }
    if forall k :: k in row ==> row[k] == "" {
      forall i | LastOfName(header, i) ensures CellAt(record, i) == "" {
        assert header[i] in header && CellUnder(header, record, header[i], row[header[i]]);
      }
    }
  }

  /** With different names in the header that means: exactly when it is blank. */
  lemma SkippedExactlyWhenBlank(header: Record, record: Record)
    requires Distinct(header) && |record| <= |header|
    ensures Skipped(header, record) <==> BlankRecord(record)
  {
    SkippedExactlyWhen(header, record);
    forall i | 0 <= i < |header| ensures LastOfName(header, i) {}
    if Skipped(header, record) {
      forall i | 0 <= i < |record| ensures Blank(record[i]) { assert LastOfName(header, i); }
    } else {
      MappedRowsAreNotBlank(header, record);
    }
  }

  /** The records that are mapped. */
  function Kept(header: Record, body: seq<Record>): seq<Record> {
    if body == [] then []
    else
      Kept(header, body[..|body| - 1]) +
      if Skipped(header, body[|body| - 1]) then [] else [body[|body| - 1]]
  }

  /** The value of one target column. */
  function MappedValue(
    rule: Option<Rule>, target: string, row: map<string, string>, functions: FunctionRegistry)
    : Result<string, MapError>
  {
    if rule.None? then Ok("")
    else
      var r := rule.value;
      var found := if r.source.Some? && r.source.value in row then row[r.source.value] else "";
      var value := if found == "" && r.default.Some? then r.default.value else found;
      if r.functionKey.None? then Ok(value)
      else
        var key := r.functionKey.value;
        if !UsableFunction(functions, key) then Err(UnknownFunction(key))
        else match functions[key].handler(Call(value, row, target, r.source, r.default))
          case Raised => Err(HandlerFailed(key))
          case Returned(text) => Ok(if text.Some? then text.value else "")
  }

  // ------------------------------------------------------------------ what a cell holds

  /** The value a rule finds in a row: that of its source column, or else its default, or else nothing. */
  predicate Finds(rule: Rule, row: map<string, string>, value: string) {
    if rule.source.Some? && rule.source.value in row && row[rule.source.value] != ""
    then value == row[rule.source.value]
    else value == if rule.default.Some? then rule.default.value else ""
  }

  /** The cell a rule fills: what it finds, put through its function if it has one. */
  ghost predicate FilledBy(
    rule: Rule, functions: FunctionRegistry, row: map<string, string>, name: string, cell: string)
  {
    exists value :: Finds(rule, row, value) &&
      match rule.functionKey
      case None => cell == value
      case Some(key) =>
        && key in functions && functions[key].kind == "column_mapping_value"
        && var result := functions[key].handler(Call(value, row, name, rule.source, rule.default));
           result.Returned? && cell == match result.value case None => "" case Some(text) => text
  }

  /** The cell under a column: filled by the last rule for it, empty without a rule. */
  ghost predicate Fills(
    rules: seq<Rule>, functions: FunctionRegistry, row: map<string, string>, name: string, cell: string)
  {
    if forall rule :: rule in rules ==> rule.target != name then cell == ""
    else exists j :: LastRuleFor(rules, name, j) && FilledBy(rules[j], functions, row, name, cell)
  }

  predicate LastRuleFor(rules: seq<Rule>, name: string, j: int) {
    0 <= j < |rules| && rules[j].target == name && forall k :: j < k < |rules| ==> rules[k].target != name
  }

  lemma {:induction false} RuleForIsLast(rules: seq<Rule>, name: string)
    ensures RuleFor(rules, name).Some? ==>
              exists j :: LastRuleFor(rules, name, j) && rules[j] == RuleFor(rules, name).value
    decreases |rules|
  {
    if rules == [] {
    } else {
      var n := |rules| - 1;
      if rules[n].target == name {
        assert LastRuleFor(rules, name, n);
      } else if RuleFor(rules, name).Some? {
        RuleForIsLast(rules[..n], name);
        var j :| LastRuleFor(rules[..n], name, j) && rules[..n][j] == RuleFor(rules, name).value;
        assert LastRuleFor(rules, name, j) && rules[j] == RuleFor(rules, name).value;
      }
    }
  }

  /** The mapper's value is exactly the cell that the rules fill. */
  lemma {:induction false} MappedValueFills(
    rules: seq<Rule>, functions: FunctionRegistry, row: map<string, string>, name: string, cell: string)
    ensures MappedValue(RuleFor(rules, name), name, row, functions) == Ok(cell) <==>
              Fills(rules, functions, row, name, cell)
  {
    RuleForFinds(rules, name);
    RuleForIsLast(rules, name);
    if RuleFor(rules, name).Some? {
      var rule := RuleFor(rules, name).value;
      RuleFills(rule, functions, row, name, cell);
      if Fills(rules, functions, row, name, cell) {
        var j :| LastRuleFor(rules, name, j) && FilledBy(rules[j], functions, row, name, cell);
        var k :| LastRuleFor(rules, name, k) && rules[k] == rule;
        assert j == k;
      }
    }
  }

  lemma RuleFills(rule: Rule, functions: FunctionRegistry, row: map<string, string>, name: string, cell: string)
    ensures MappedValue(Some(rule), name, row, functions) == Ok(cell) <==> FilledBy(rule, functions, row, name, cell)
  {
    var found := if rule.source.Some? && rule.source.value in row then row[rule.source.value] else "";
    var value := if found == "" && rule.default.Some? then rule.default.value else found;
    assert Finds(rule, row, value);
  }

  /** `mapped` is the row's image, column by column. */
  predicate IsImage(
    columns: seq<Column>, rules: seq<Rule>, functions: FunctionRegistry, row: map<string, string>, mapped: Record)
  {
    && |mapped| == |columns|
    && forall i :: 0 <= i < |columns| ==>
         MappedValue(RuleFor(rules, columns[i].name), columns[i].name, row, functions) == Ok(mapped[i])
  }

  predicate FailsOn(
    columns: seq<Column>, rules: seq<Rule>, functions: FunctionRegistry, row: map<string, string>, error: MapError)
  {
    exists i :: 0 <= i < |columns| &&
      MappedValue(RuleFor(rules, columns[i].name), columns[i].name, row, functions) == Err(error)
  }

  /** The error is the one of the first column that fails. */
  predicate FailsFirstWith(
    columns: seq<Column>, rules: seq<Rule>, functions: FunctionRegistry, row: map<string, string>, error: MapError)
  {
    exists i :: 0 <= i < |columns|
      && MappedValue(RuleFor(rules, columns[i].name), columns[i].name, row, functions) == Err(error)
      && forall j :: 0 <= j < i ==> MappedValue(RuleFor(rules, columns[j].name), columns[j].name, row, functions).Ok?
  }

  method MapRecord(columns: seq<Column>, rules: seq<Rule>, functions: FunctionRegistry, row: map<string, string>)
    returns (r: Result<Record, MapError>)
    ensures r.Ok? ==> IsImage(columns, rules, functions, row, r.value)
    ensures r.Ok? ==> forall i :: 0 <= i < |columns| ==> Fills(rules, functions, row, columns[i].name, r.value[i])
    ensures r.Err? ==> FailsFirstWith(columns, rules, functions, row, r.error)
  {
    forall name, cell
      ensures MappedValue(RuleFor(rules, name), name, row, functions) == Ok(cell) <==>
                Fills(rules, functions, row, name, cell)
    {
      MappedValueFills(rules, functions, row, name, cell);
    }
    var mapped: Record := [];
    for i := 0 to |columns|
      invariant |mapped| == i && forall j :: 0 <= j < i ==>
                  MappedValue(RuleFor(rules, columns[j].name), columns[j].name, row, functions) == Ok(mapped[j])
    {
      var target := columns[i].name;
      var rule := RuleFor(rules, target);
      var value := "";
      if rule.Some? {
        if rule.value.source.Some? && rule.value.source.value in row { value := row[rule.value.source.value]; }
        if value == "" && rule.value.default.Some? { value := rule.value.default.value; }
        if rule.value.functionKey.Some? {
          var key := rule.value.functionKey.value;
          if !UsableFunction(functions, key) { return Err(UnknownFunction(key)); }
          var transformed := functions[key].handler(Call(value, row, target, rule.value.source, rule.value.default));
          if transformed.Raised? { return Err(HandlerFailed(key)); }
          value := if transformed.value.Some? then transformed.value.value else "";
        }
      }
      mapped := mapped + [value];
    }
    return Ok(mapped);
  }

  predicate TargetsKnown(columns: seq<Column>, rules: seq<Rule>) {
    forall i :: 0 <= i < |rules| ==> rules[i].target in Names(columns)
  }

  /** No record is wider than the header; for a wider one `DictReader` yields a list where text is expected. */
  predicate NoneTooWide(header: Record, body: seq<Record>) {
    forall i :: 0 <= i < |body| ==> |body[i]| <= |header|
  }

  predicate FailsAt(
    header: Record, record: Record, columns: seq<Column>, rules: seq<Rule>, functions: FunctionRegistry,
    error: MapError)
  {
    if |record| > |header| then error == RowTooWide
    else
      && !error.RowTooWide? && !Skipped(header, record)
      && FailsFirstWith(columns, rules, functions, Normalized(header, record), error)
  }

  /** `images[i]` is the image of `kept[i]`. */
  predicate ImagesOf(
    header: Record, kept: seq<Record>, columns: seq<Column>, rules: seq<Rule>, functions: FunctionRegistry,
    images: seq<Record>)
  {
    && |images| == |kept|
    && forall i :: 0 <= i < |images| ==> IsImage(columns, rules, functions, Normalized(header, kept[i]), images[i])
  }

  predicate IsImageOf(
    records: seq<Record>, columns: seq<Column>, rules: seq<Rule>, functions: FunctionRegistry, output: seq<Record>)
  {
    && output != []
    && if records == [] then |output| == 1
       else ImagesOf(records[0], Kept(records[0], records[1..]), columns, rules, functions, output[1..])
  }

  /** Record `k` of the body is the first that fails: the ones before it have images and none is too wide. */
  ghost predicate FirstFailure(
    header: Record, body: seq<Record>, columns: seq<Column>, rules: seq<Rule>, functions: FunctionRegistry,
    k: int, error: MapError)
  {
    && 0 <= k < |body| && FailsAt(header, body[k], columns, rules, functions, error)
    && NoneTooWide(header, body[..k])
    && exists images :: ImagesOf(header, Kept(header, body[..k]), columns, rules, functions, images)
  }

  predicate NamesUnusable(rules: seq<Rule>, functions: FunctionRegistry, key: string) {
    !UsableFunction(functions, key) && exists rule :: rule in rules && rule.functionKey == Some(key)
  }

  lemma FailuresComeFromRules(
    columns: seq<Column>, rules: seq<Rule>, functions: FunctionRegistry, row: map<string, string>, error: MapError)
    requires FailsFirstWith(columns, rules, functions, row, error)
    ensures !error.RowTooWide? && !error.UnknownTargets?
    ensures error.UnknownFunction? ==> NamesUnusable(rules, functions, error.key)
  {
    var i :| 0 <= i < |columns| &&
      MappedValue(RuleFor(rules, columns[i].name), columns[i].name, row, functions) == Err(error);
    RuleForFinds(rules, columns[i].name);
    var rule := RuleFor(rules, columns[i].name);
    assert rule.Some? && rule.value in rules;
  }

  /** The body of the loop over records: a record's image, unless it is skipped. */
  method MapRow(
    header: Record, record: Record, columns: seq<Column>, rules: seq<Rule>, functions: FunctionRegistry)
    returns (r: Result<Option<Record>, MapError>)
    ensures r.Ok? ==> |record| <= |header| && (r.value.None? <==> Skipped(header, record))
    ensures r.Ok? && r.value.Some? ==>
              IsImage(columns, rules, functions, Normalized(header, record), r.value.value)
    ensures r.Err? ==> FailsAt(header, record, columns, rules, functions, r.error)
    ensures r.Err? ==> !r.error.UnknownTargets?
    ensures r.Err? && r.error.UnknownFunction? ==> NamesUnusable(rules, functions, r.error.key)
  {
    if |record| > |header| { return Err(RowTooWide); }
    if Skipped(header, record) { return Ok(None); }
    var row := Normalized(header, record);
    var mapped := MapRecord(columns, rules, functions, row);
    if mapped.Err? {
      FailuresComeFromRules(columns, rules, functions, row, mapped.error);
      return Err(mapped.error);
    }
    return Ok(Some(mapped.value));
  }

  lemma ImagesOneMore(
    header: Record, before: seq<Record>, record: Record, columns: seq<Column>, rules: seq<Rule>,
    functions: FunctionRegistry, images: seq<Record>, image: Option<Record>)
    requires ImagesOf(header, Kept(header, before), columns, rules, functions, images)
    requires image.None? <==> Skipped(header, record)
    requires image.Some? ==> IsImage(columns, rules, functions, Normalized(header, record), image.value)
    ensures ImagesOf(header, Kept(header, before + [record]), columns, rules, functions,
                     if image.None? then images else images + [image.value])
  {
    assert (before + [record])[..|before|] == before;
  }

  /** Where nothing before it fails, a record that fails is the first to. */
  lemma FailsFirst(
    header: Record, body: seq<Record>, columns: seq<Column>, rules: seq<Rule>, functions: FunctionRegistry,
    k: nat, images: seq<Record>, error: MapError)
    requires k < |body| && FailsAt(header, body[k], columns, rules, functions, error)
    requires NoneTooWide(header, body[..k])
    requires ImagesOf(header, Kept(header, body[..k]), columns, rules, functions, images)
    ensures FirstFailure(header, body, columns, rules, functions, k, error)
  {
  }

  lemma NoneTooWideYet(header: Record, body: seq<Record>, k: nat)
    requires k < |body| && NoneTooWide(header, body[..k]) && |body[k]| <= |header|
    ensures NoneTooWide(header, body[..k + 1])
  {
    assert body[..k + 1] == body[..k] + [body[k]];
  }

  lemma ImagesOfPrefix(
    header: Record, body: seq<Record>, k: nat, columns: seq<Column>, rules: seq<Rule>,
    functions: FunctionRegistry, images: seq<Record>, image: Option<Record>)
    requires k < |body| && ImagesOf(header, Kept(header, body[..k]), columns, rules, functions, images)
    requires image.None? <==> Skipped(header, body[k])
    requires image.Some? ==> IsImage(columns, rules, functions, Normalized(header, body[k]), image.value)
    ensures ImagesOf(header, Kept(header, body[..k + 1]), columns, rules, functions,
                     if image.None? then images else images + [image.value])
  {
    ImagesOneMore(header, body[..k], body[k], columns, rules, functions, images, image);
    assert body[..k + 1] == body[..k] + [body[k]];
  }

  method MapRows(
    header: Record, body: seq<Record>, columns: seq<Column>, rules: seq<Rule>, functions: FunctionRegistry)
    returns (r: Result<seq<Record>, MapError>)
    ensures r.Err? ==> !r.error.UnknownTargets?
    ensures r.Err? ==> exists k :: FirstFailure(header, body, columns, rules, functions, k, r.error)
    ensures r.Err? && r.error.UnknownFunction? ==> NamesUnusable(rules, functions, r.error.key)
    ensures r.Ok? ==> NoneTooWide(header, body)
    ensures r.Ok? ==> ImagesOf(header, Kept(header, body), columns, rules, functions, r.value)
  {
    var output: seq<Record> := [];
    for k := 0 to |body|
      invariant ImagesOf(header, Kept(header, body[..k]), columns, rules, functions, output)
      invariant NoneTooWide(header, body[..k])
    {
      var mapped := MapRow(header, body[k], columns, rules, functions);
      if mapped.Err? {
        FailsFirst(header, body, columns, rules, functions, k, output, mapped.error);
        return Err(mapped.error);
      }
      ImagesOfPrefix(header, body, k, columns, rules, functions, output, mapped.value);
      NoneTooWideYet(header, body, k);
      if mapped.value.Some? { output := output + [mapped.value.value]; }
    }
    assert body[..|body|] == body;
    return Ok(output);
  }

  /**
   * `map_csv_columns`: the contract's names, then the image of each kept record, in order. It fails only
   * for unknown targets or at the first record that is wider than the header or that a rule fails on.
   */
  method MapColumns(records: seq<Record>, columns: seq<Column>, rules: seq<Rule>, functions: FunctionRegistry)
    returns (r: Result<seq<Record>, MapError>)
    ensures r == Err(UnknownTargets) <==> !TargetsKnown(columns, rules)
    ensures r.Err? && !r.error.UnknownTargets? ==>
              records != [] && exists k :: FirstFailure(records[0], records[1..], columns, rules, functions, k, r.error)
    ensures r.Err? && r.error.UnknownFunction? ==> NamesUnusable(rules, functions, r.error.key)
    ensures r.Ok? && records != [] ==> NoneTooWide(records[0], records[1..])
    ensures r.Ok? ==> MappedShape(r.value, columns)
    ensures r.Ok? ==> IsImageOf(records, columns, rules, functions, r.value)
  {
    if !TargetsKnown(columns, rules) { return Err(UnknownTargets); }
    var output := [Names(columns)];
    if records == [] { return Ok(output); }
    var rows := MapRows(records[0], records[1..], columns, rules, functions);
    if rows.Err? { return rows; }
    assert (output + rows.value)[1..] == rows.value;
    return Ok(output + rows.value);
  }

  /** No kept record is blank, so mapping never invents rows. */
  lemma {:induction false} KeptAreNonBlank(header: Record, body: seq<Record>)
    ensures |Kept(header, body)| <= |NonBlank(body)|
    decreases |body|
  {
    if body == [] {
    } else {
      KeptAreNonBlank(header, body[..|body| - 1]);
      if !Skipped(header, body[|body| - 1]) { MappedRowsAreNotBlank(header, body[|body| - 1]); }
    }
  }

  /** With different names in the header the records that are mapped are exactly those with text. */
  lemma {:induction false} KeptIsNonBlank(header: Record, body: seq<Record>)
    requires Distinct(header) && NoneTooWide(header, body)
    ensures Kept(header, body) == NonBlank(body)
    decreases |body|
  {
    if body == [] {
    } else {
      var n := |body| - 1;
      var few := body[..n];
      forall i | 0 <= i < |few| ensures |few[i]| <= |header| { assert few[i] == body[i]; }
      KeptIsNonBlank(header, few);
      SkippedExactlyWhenBlank(header, body[n]);
    }
  }

  // ------------------------------------------------------------------ mapped output against its own contract

  /** A mapper's output in shape: the contract's names, then records of full width. */
  predicate MappedShape(output: seq<Record>, columns: seq<Column>) {
    && output != [] && output[0] == Names(columns)
    && forall i :: 1 <= i < |output| ==> |output[i]| == |columns|
  }

  /**
   * Names that survive stripping: none collide, and those that must be found again by the validator, required
   * ones or all of a contract without extra columns, have nothing to strip.
   */
  ghost predicate NamesFit(contract: DatasetContract) {
    && Distinct(StrippedAll(Names(contract.columns)))
    && forall i :: 0 <= i < |contract.columns| && (contract.columns[i].required || !contract.allowExtraColumns) ==>
         Strip(contract.columns[i].name) == contract.columns[i].name
  }

  predicate AboutCell(issue: ValidationIssue) {
    issue.MissingRequiredValue? || issue.InvalidValue?
  }

  /** Mapped output is only ever faulted for what is in its cells, exactly when the contract's names fit. */
  lemma MappedOutputHasOnlyCellIssues(parsers: TypeParsers, output: seq<Record>, contract: DatasetContract)
    requires MappedShape(output, contract.columns)
    ensures (forall issue :: Justified(parsers, output, contract, issue) ==> AboutCell(issue)) <==> NamesFit(contract)
  {
    if NamesFit(contract) {
      forall issue | Justified(parsers, output, contract, issue) ensures AboutCell(issue) {
        FittingNamesRaiseNoHeaderIssue(parsers, output, contract, issue);
      }
    } else {
      var issue := MisfitIsReported(parsers, output, contract);
    }
  }

  lemma FittingNamesRaiseNoHeaderIssue(
    parsers: TypeParsers, output: seq<Record>, contract: DatasetContract, issue: ValidationIssue)
    requires MappedShape(output, contract.columns) && NamesFit(contract)
    requires Justified(parsers, output, contract, issue)
    ensures AboutCell(issue)
  {
    var columns := contract.columns;
    var header := StrippedAll(Names(columns));
    forall c | Lookup(columns, c).Some? && Lookup(columns, c).value.required ensures c in header {
      LookupFinds(columns, c);
      var i :| 0 <= i < |columns| && columns[i] == Lookup(columns, c).value;
      assert header[i] == c;
    }
    forall c | c in header && !contract.allowExtraColumns ensures Lookup(columns, c).Some? {
      var i :| 0 <= i < |header| && header[i] == c;
      LookupFinds(columns, c);
      assert columns[i].name == c;
    }
    assert forall c :: !Repeated(header, c);
  }

  lemma MisfitIsReported(parsers: TypeParsers, output: seq<Record>, contract: DatasetContract)
    returns (issue: ValidationIssue)
    requires MappedShape(output, contract.columns) && !NamesFit(contract)
    ensures Justified(parsers, output, contract, issue) && !AboutCell(issue)
  {
    var columns := contract.columns;
    var header := StrippedAll(Names(columns));
    if !Distinct(header) {
      var i, j :| 0 <= i < j < |header| && header[i] == header[j];
      issue := DuplicateColumn(header[i]);
    } else {
      var i :| 0 <= i < |columns| && (columns[i].required || !contract.allowExtraColumns)
        && Strip(columns[i].name) != columns[i].name;
      OnlyColumnOfItsName(columns, i);
      if columns[i].required {
        issue := MissingRequiredColumn(columns[i].name);
        forall j | 0 <= j < |header| ensures header[j] != columns[i].name { StripIsIdempotent(columns[j].name); }
      } else {
        issue := UnexpectedColumn(header[i]);
        LookupFinds(columns, header[i]);
        StripIsIdempotent(columns[i].name);
        forall j | 0 <= j < |columns| ensures columns[j].name != header[i] {
          if j != i { assert header[j] != header[i]; }
        }
        assert header[i] in header;
      }
    }
  }

  lemma {:induction false} OnlyColumnOfItsName(columns: seq<Column>, i: nat)
    requires Distinct(StrippedAll(Names(columns))) && i < |columns|
    ensures Lookup(columns, columns[i].name) == Some(columns[i])
  {
    LookupFinds(columns, columns[i].name);
    var found := Lookup(columns, columns[i].name).value;
    var header := StrippedAll(Names(columns));
    var j :| 0 <= j < |columns| && columns[j] == found;
    assert header[j] == Strip(columns[j].name) == header[i];
    assert i == j;
  }

  lemma {:induction false} NonBlankIsShorter(records: seq<Record>)
    ensures |NonBlank(records)| <= |records|
    decreases |records|
  {
    if records == [] {
    } else {
      NonBlankIsShorter(records[..|records| - 1]);
    }
  }

  function Body(records: seq<Record>): seq<Record> {
    if records == [] then [] else records[1..]
  }

  /** `output` is what mapping gives, and the result is what validation finds in it. */
  ghost predicate ValidatedAs(
    parsers: TypeParsers, records: seq<Record>, contract: DatasetContract, rules: seq<Rule>,
    functions: FunctionRegistry, output: seq<Record>, result: ValidationResult)
  {
    && MappedShape(output, contract.columns) && IsImageOf(records, contract.columns, rules, functions, output)
    && (forall issue :: issue in result.issues <==> Justified(parsers, output, contract, issue))
    && result.rowCount == |NonBlank(output[1..])|
  }

  /** The chain of ingestion and preview: map, then validate what was mapped. */
  method MapAndValidate(
    parsers: TypeParsers, records: seq<Record>, contract: DatasetContract, rules: seq<Rule>,
    functions: FunctionRegistry)
    returns (r: Result<ValidationResult, MapError>)
    ensures r.Ok? ==> ((forall issue :: issue in r.value.issues ==> AboutCell(issue)) <==> NamesFit(contract))
    ensures r.Ok? ==> r.value.rowCount <= |NonBlank(Body(records))|
    ensures r.Ok? ==> exists output :: ValidatedAs(parsers, records, contract, rules, functions, output, r.value)
  {
    var mapped := MapColumns(records, contract.columns, rules, functions);
    if mapped.Err? { return Err(mapped.error); }
    var result := ValidateCsv(parsers, mapped.value, contract);
    MappedOutputHasOnlyCellIssues(parsers, mapped.value, contract);
    NonBlankIsShorter(mapped.value[1..]);
    if records != [] { KeptAreNonBlank(records[0], records[1..]); }
    assert ValidatedAs(parsers, records, contract, rules, functions, mapped.value, result);
    return Ok(result);
  }
}
