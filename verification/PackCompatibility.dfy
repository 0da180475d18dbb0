/** Version constraints and pack compatibility (`packages/adapters/pack_compatibility.py`). */
module PackCompatibility {
  import opened Prelude
  import opened Text
  import opened Lexicographic
  import opened AdapterContracts

  type Version = seq<int>

  const BY_NUMBER: (int, int) -> bool := (x: int, y: int) => x < y

  /** Python's tuple order. */
  predicate Before(a: Version, b: Version) {
    Precedes(BY_NUMBER, a, b)
  }

  predicate AtMost(a: Version, b: Version) {
    a == b || Before(a, b)
  }

  /** The first different number decides; a version is before its own continuations. */
  lemma BeforeMeans(common: Version, a: int, b: int, restA: Version, restB: Version)
    ensures a < b ==> Before(common + [a] + restA, common + [b] + restB)
    ensures Before(common, common + [a] + restA) && !Before(common + [a] + restA, common)
    decreases |common|
  {
    if common == [] {
      assert ([] + [a] + restA)[0] == a && ([] + [b] + restB)[0] == b;
    } else {
      BeforeMeans(common[1..], a, b, restA, restB);
      assert (common + [a] + restA)[1..] == common[1..] + [a] + restA;
      assert (common + [b] + restB)[1..] == common[1..] + [b] + restB;
    }
  }

  // ------------------------------------------------------------------ parsing

  function Component(part: string): int {
    match ParseInt(part)
    case Some(n) => n
    case None => 0
  }

  function Components(parts: seq<string>): Version {
    if parts == [] then [] else [Component(parts[0])] + Components(parts[1..])
  }

  function ReleaseSegment(version: string): string {
    Strip(Split(Split(version, '+')[0], '-')[0])
  }

  /** The numeric release segment; what is not a number counts as zero. */
  function Release(version: string): Version {
    if ReleaseSegment(version) == "" then [0] else Components(Split(ReleaseSegment(version), '.'))
  }

  lemma {:induction false} ComponentsGrow(parts: seq<string>, part: string)
    ensures Components(parts + [part]) == Components(parts) + [Component(part)]
  {
    if parts == [] {
    } else {
      ComponentsGrow(parts[1..], part);
      assert (parts + [part])[1..] == parts[1..] + [part];
    }
  }

  lemma {:induction false} ComponentsAre(parts: seq<string>)
    ensures |Components(parts)| == |parts|
    ensures forall i :: 0 <= i < |parts| ==>
              Components(parts)[i] == match ParseInt(parts[i]) case Some(n) => n case None => 0
    decreases |parts|
  {
    if parts == [] {
    } else {
      ComponentsAre(parts[1..]);
    }
  }

  /** Build metadata and pre-release suffixes do not matter. */
  lemma SuffixesDoNotMatter(version: string, suffix: string)
    requires '+' !in version
    ensures ReleaseSegment(version + ['+'] + suffix) == ReleaseSegment(version)
    ensures '-' !in version ==> ReleaseSegment(version) == Strip(version)
    ensures '-' !in version && '+' !in suffix ==> ReleaseSegment(version + ['-'] + suffix) == Strip(version)
  {
    SplitJoins(version, '+', suffix);
    SplitWithoutSeparator(version, '+');
    if '-' !in version {
      SplitWithoutSeparator(version, '-');
      if '+' !in suffix {
        SplitWithoutSeparator(version + ['-'] + suffix, '+');
        SplitJoins(version, '-', suffix);
      }
    }
  }

  /** `_parse_version`. */
  method ParseVersion(version: string) returns (parsed: Version)
    ensures parsed == Release(version)
    ensures ReleaseSegment(version) == "" ==> parsed == [0]
    ensures ReleaseSegment(version) != "" ==>
              var parts := Split(ReleaseSegment(version), '.');
              |parsed| == |parts| && forall i :: 0 <= i < |parts| ==>
                parsed[i] == match ParseInt(parts[i]) case Some(n) => n case None => 0
  {
    ComponentsAre(Split(ReleaseSegment(version), '.'));
    var core := ReleaseSegment(version);
    if core == "" { return [0]; }
    var parts := Split(core, '.');
    parsed := [];
    for i := 0 to |parts|
      invariant parsed == Components(parts[..i])
    {
      var number := ParseInt(parts[i]);
      parsed := parsed + [if number.Some? then number.value else 0];
      ComponentsGrow(parts[..i], parts[i]);
      assert parts[..i + 1] == parts[..i] + [parts[i]];
    }
    assert parts[..|parts|] == parts;
  }

  // ------------------------------------------------------------------ constraints

  const COMPARATORS: seq<string> := [">=", "<=", "==", ">", "<"]

  /** Position in COMPARATORS of the first one `text` starts with; their number when there is none. */
  function LeadingComparator(text: string): (i: nat)
    ensures i <= |COMPARATORS|
    ensures i < |COMPARATORS| ==> COMPARATORS[i] <= text
    ensures forall j :: 0 <= j < i ==> !(COMPARATORS[j] <= text)
  {
    if ">=" <= text then 0 else if "<=" <= text then 1 else if "==" <= text then 2
    else if ">" <= text then 3 else if "<" <= text then 4 else 5
  }

  /** One clause, whitespace around it stripped; without a comparator it asks for equality. */
  predicate ClauseAccepts(v: Version, clause: string) {
    var op := LeadingComparator(clause);
    var target := Release(if op < |COMPARATORS| then Strip(clause[|COMPARATORS[op]|..]) else clause);
    match op
    case 0 => AtMost(target, v)
    case 1 => AtMost(v, target)
    case 3 => Before(target, v)
    case 4 => Before(v, target)
    case _ => v == target
  }

  predicate ClauseHolds(v: Version, rawClause: string) {
    Blank(rawClause) || ClauseAccepts(v, Strip(rawClause))
  }

  /** A blank constraint accepts everything; otherwise every comma-separated clause that is not blank must hold. */
  predicate Satisfies(version: string, constraint: string) {
    Blank(constraint) || AllHold(Release(version), Split(constraint, ','))
  }

  predicate AllHold(v: Version, rawClauses: seq<string>) {
    || rawClauses == []
    || (AllHold(v, rawClauses[..|rawClauses| - 1]) && ClauseHolds(v, rawClauses[|rawClauses| - 1]))
  }

  lemma LeadIs(op: nat, text: string)
    requires op < |COMPARATORS| && text != "" && text[0] !in {'<', '>', '='}
    ensures LeadingComparator(COMPARATORS[op] + text) == op
    ensures (COMPARATORS[op] + text)[|COMPARATORS[op]|..] == text
  {
    var word, clause := COMPARATORS[op], COMPARATORS[op] + text;
    assert clause[..|word|] == word && clause[|word|] == text[0];
    assert word == [">=", "<=", "==", ">", "<"][op];
    assert clause[0] == word[0] && clause[1] == if op < 3 then '=' else text[0];
    forall j | 0 <= j < op ensures !(COMPARATORS[j] <= clause) {
      assert COMPARATORS[j][0] != clause[0] || (|COMPARATORS[j]| == 2 && COMPARATORS[j][1] != clause[1]);
    }
  }

  /** What each comparator asks for. */
  lemma ClauseMeans(v: Version, op: nat, text: string)
    requires op < |COMPARATORS| && Trimmed(text) && text != "" && text[0] !in {'<', '>', '='}
    ensures ClauseAccepts(v, COMPARATORS[op] + text) <==>
              match COMPARATORS[op]
              case ">=" => !Before(v, Release(text))
              case "<=" => !Before(Release(text), v)
              case "==" => v == Release(text)
              case ">" => Before(Release(text), v)
              case _ => Before(v, Release(text))
  {
    LeadIs(op, text);
    TrimmedIsStripped(text);
    OrderIsTrichotomous(v, Release(text));
    OrderIsTrichotomous(Release(text), v);
  }

  /** Without a comparator a clause asks for that very version. */
  lemma BareClauseMeans(v: Version, text: string)
    requires text != "" && text[0] !in {'<', '>', '='}
    ensures ClauseAccepts(v, text) <==> v == Release(text)
  {
    assert LeadingComparator(text) == 5;
  }

  lemma OrderIsTrichotomous(a: Version, b: Version)
    ensures a == b || Before(a, b) || Before(b, a)
    ensures Before(a, b) ==> a != b && !Before(b, a)
  {
    PrecedesIsTotal(BY_NUMBER, a, b);
    PrecedesIsIrreflexive(BY_NUMBER, a);
    if Before(a, b) && Before(b, a) { PrecedesIsTransitive(BY_NUMBER, a, b, a); }
  }

  /** The comparator search and the refusals of one stripped clause. */
  method MeetsClause(v: Version, clause: string) returns (met: bool)
    ensures met <==> ClauseAccepts(v, clause)
  {
    var op := 0;
    while op < |COMPARATORS| && !(COMPARATORS[op] <= clause)
      invariant op <= |COMPARATORS| && forall j :: 0 <= j < op ==> !(COMPARATORS[j] <= clause)
    {
      op := op + 1;
    }
    assert op == LeadingComparator(clause);
    var t := ParseVersion(if op < |COMPARATORS| then Strip(clause[|COMPARATORS[op]|..]) else clause);
    OrderIsTrichotomous(v, t);
    OrderIsTrichotomous(t, v);
    if op == 0 { return !Before(v, t); }
    if op == 1 { return !Before(t, v); }
    if op == 3 { return !AtMost(v, t); }
    if op == 4 { return !AtMost(t, v); }
    return v == t;
  }

  lemma {:induction false} OneClauseFails(v: Version, rawClauses: seq<string>, i: nat)
    requires i < |rawClauses| && !ClauseHolds(v, rawClauses[i])
    ensures !AllHold(v, rawClauses)
    decreases |rawClauses|
  {
    if i < |rawClauses| - 1 { OneClauseFails(v, rawClauses[..|rawClauses| - 1], i); }
  }

  /** `satisfies_constraint`. */
  method SatisfiesConstraint(version: string, constraint: string) returns (accepted: bool)
    ensures accepted <==> Satisfies(version, constraint)
  {
    if constraint == "" || Strip(constraint) == "" { return true; }
    var v := ParseVersion(version);
    var clauses := Split(constraint, ',');
    for i := 0 to |clauses|
      invariant AllHold(v, clauses[..i])
    {
      assert clauses[..i + 1][..i] == clauses[..i];
      var clause := Strip(clauses[i]);
      if clause != "" {
        var met := MeetsClause(v, clause);
        if !met {
          OneClauseFails(v, clauses, i);
          return false;
        }
      }
    }
    assert clauses[..|clauses|] == clauses;
    return true;
  }

  // ------------------------------------------------------------------ the laws of constraints

  lemma ClausesAreConvex(a: Version, b: Version, c: Version, clause: string)
    requires AtMost(a, b) && AtMost(b, c) && ClauseAccepts(a, clause) && ClauseAccepts(c, clause)
    ensures ClauseAccepts(b, clause)
  {
    if a != b && b != c {
      var op := LeadingComparator(clause);
      var t := Release(if op < |COMPARATORS| then Strip(clause[|COMPARATORS[op]|..]) else clause);
      if op == 0 || op == 3 {
        if t != a { PrecedesIsTransitive(BY_NUMBER, t, a, b); }
      } else if op == 1 || op == 4 {
        if c != t { PrecedesIsTransitive(BY_NUMBER, b, c, t); }
      } else {
        PrecedesIsTransitive(BY_NUMBER, a, b, c);
        PrecedesIsIrreflexive(BY_NUMBER, a);
      }
    }
  }

  /** Whatever lies between two accepted versions is accepted. */
  lemma AcceptedVersionsAreConvex(constraint: string, low: string, mid: string, high: string)
    requires AtMost(Release(low), Release(mid)) && AtMost(Release(mid), Release(high))
    requires Satisfies(low, constraint) && Satisfies(high, constraint)
    ensures Satisfies(mid, constraint)
  {
    SatisfiesIsAllClauses(low, constraint);
    SatisfiesIsAllClauses(mid, constraint);
    SatisfiesIsAllClauses(high, constraint);
    ConjunctionsAreConvex(Release(low), Release(mid), Release(high), Split(constraint, ','));
  }

  lemma {:induction false} ConjunctionsAreConvex(a: Version, b: Version, c: Version, clauses: seq<string>)
    requires AtMost(a, b) && AtMost(b, c) && AllHold(a, clauses) && AllHold(c, clauses)
    ensures AllHold(b, clauses)
    decreases |clauses|
  {
    if clauses == [] {
    } else {
      var n := |clauses| - 1;
      ConjunctionsAreConvex(a, b, c, clauses[..n]);
      if !Blank(clauses[n]) { ClausesAreConvex(a, b, c, Strip(clauses[n])); }
    }
  }

  /** All clauses hold, blank constraints included: the blank test is no special case. */
  lemma SatisfiesIsAllClauses(version: string, constraint: string)
    ensures Satisfies(version, constraint) <==> AllHold(Release(version), Split(constraint, ','))
  {
    if Blank(constraint) {
      BlankIsOnePart(constraint, ',');
      assert [constraint][..0] == [];
    }
  }

  /** Joining two constraints with a comma is their conjunction, blank ones included. */
  lemma CommaIsConjunction(version: string, a: string, b: string)
    ensures Satisfies(version, a + "," + b) <==> Satisfies(version, a) && Satisfies(version, b)
  {
    SatisfiesIsAllClauses(version, a + "," + b);
    SatisfiesIsAllClauses(version, a);
    SatisfiesIsAllClauses(version, b);
    assert a + "," + b == a + [','] + b;
    SplitJoins(a, ',', b);
    AllHoldJoins(Release(version), Split(a, ','), Split(b, ','));
  }

  lemma {:induction false} AllHoldJoins(v: Version, left: seq<string>, right: seq<string>)
    ensures AllHold(v, left + right) <==> AllHold(v, left) && AllHold(v, right)
    decreases |right|
  {
    if right == [] {
      assert left + right == left;
    } else {
      AllHoldJoins(v, left, right[..|right| - 1]);
      assert (left + right)[..|left + right| - 1] == left + right[..|right| - 1];
    }
  }

  // ------------------------------------------------------------------ dependencies

  /** `text.find(op)`. */
  function Find(text: string, op: string): (i: int)
    ensures -1 <= i <= |text|
    ensures i >= 0 ==> op <= text[i..] && forall j :: 0 <= j < i ==> !(op <= text[j..])
    ensures i < 0 ==> forall j :: 0 <= j <= |text| ==> !(op <= text[j..])
  {
    FindFrom(text, op, 0)
  }

  function FindFrom(text: string, op: string, start: nat): (i: int)
    requires start <= |text|
    ensures -1 <= i <= |text|
    ensures i >= 0 ==> start <= i && op <= text[i..] && forall j :: start <= j < i ==> !(op <= text[j..])
    ensures i < 0 ==> forall j :: start <= j <= |text| ==> !(op <= text[j..])
    decreases |text| - start
  {
    if op <= text[start..] then start
    else if start == |text| then -1
    else FindFrom(text, op, start + 1)
  }

  /** `_split_dependency`: operators are tried in list order, not by where they stand. */
  function SplitDependency(dep: string): (string, string) {
    var text := Strip(dep);
    SplitAtFirst(text, 0)
  }

  function SplitAtFirst(text: string, op: nat): (string, string)
    requires op <= |COMPARATORS|
    decreases |COMPARATORS| - op
  {
    if op == |COMPARATORS| then (text, "")
    else
      var i := Find(text, COMPARATORS[op]);
      if i > 0 then (Strip(text[..i]), Strip(text[i..])) else SplitAtFirst(text, op + 1)
  }

  predicate OperatorChar(c: char) {
    c == '<' || c == '>' || c == '='
  }

  /** A pack key: not blank, nothing to strip, no comparator characters. */
  predicate PlainKey(key: string) {
    key != "" && Trimmed(key) && forall c :: c in key ==> !OperatorChar(c)
  }

  lemma OperatorsStartAfterKey(key: string, constraint: string, op: nat)
    requires PlainKey(key) && op < |COMPARATORS|
    ensures var i, j := Find(key + constraint, COMPARATORS[op]), Find(constraint, COMPARATORS[op]);
            i == if j < 0 then -1 else |key| + j
  {
    var text := key + constraint;
    var word := COMPARATORS[op];
    assert OperatorChar(word[0]);
    forall m | 0 <= m <= |text|
      ensures word <= text[m..] <==> m >= |key| && word <= constraint[m - |key|..]
    {
      if m < |key| {
        assert text[m..][0] == key[m];
      } else {
        assert text[m..] == constraint[m - |key|..];
      }
    }
    var j := Find(constraint, word);
    if j >= 0 {
      assert text[|key| + j..] == constraint[j..];
      assert word <= text[|key| + j..];
    }
  }

  /**
   * Splitting `key` from the constraint written behind it works exactly when no comparator that comes
   * earlier in the list than the constraint's own occurs anywhere in the constraint.
   */
  lemma DependencySplitsExactlyWhen(key: string, constraint: string)
    requires PlainKey(key) && Trimmed(constraint) && LeadingComparator(constraint) < |COMPARATORS|
    ensures SplitDependency(key + constraint) == (key, constraint) <==>
            forall op :: 0 <= op < LeadingComparator(constraint) ==> Find(constraint, COMPARATORS[op]) < 0
  {
    var text := key + constraint;
    assert OperatorChar(constraint[0]);
    assert Trimmed(text);
    TrimmedIsStripped(text);
    TrimmedIsStripped(key);
    TrimmedIsStripped(constraint);
    if forall op :: 0 <= op < LeadingComparator(constraint) ==> Find(constraint, COMPARATORS[op]) < 0 {
      ScanReachesLead(key, constraint, 0);
    } else {
      var op :| 0 <= op < LeadingComparator(constraint) && Find(constraint, COMPARATORS[op]) >= 0;
      ScanStopsEarly(key, constraint, 0, op);
    }
  }

  /** A dependency with two clauses that is split in the wrong place. */
  lemma TwoClausesSplitLate()
    ensures SplitDependency("a" + ">1.0,<=2.0") != ("a", ">1.0,<=2.0")
    ensures Find(">1.0,<=2.0", "<=") == 5 && LeadingComparator(">1.0,<=2.0") == 3
  {
    var constraint := ">1.0,<=2.0";
    assert constraint[5..] == "<=2.0" && "<=" <= "<=2.0";
    forall j | 0 <= j < 5 ensures !("<=" <= constraint[j..]) { assert constraint[j..][0] == constraint[j] != '<'; }
    assert !(">=" <= constraint) by { assert constraint[1] == '1'; }
    DependencySplitsExactlyWhen("a", constraint);
    assert Find(constraint, COMPARATORS[1]) >= 0;
  }

  lemma {:induction false} ScanReachesLead(key: string, constraint: string, op: nat)
    requires PlainKey(key) && op <= LeadingComparator(constraint) < |COMPARATORS|
    requires Strip(key) == key && Strip(constraint) == constraint
    requires forall i :: op <= i < LeadingComparator(constraint) ==> Find(constraint, COMPARATORS[i]) < 0
    ensures SplitAtFirst(key + constraint, op) == (key, constraint)
    decreases |COMPARATORS| - op
  {
    if op == LeadingComparator(constraint) {
      SplitsAtLead(key, constraint, op);
    } else {
      OperatorsStartAfterKey(key, constraint, op);
      ScanReachesLead(key, constraint, op + 1);
    }
  }

  lemma {:induction false} ScanStopsEarly(key: string, constraint: string, op: nat, early: nat)
    requires PlainKey(key) && op <= early < LeadingComparator(constraint) < |COMPARATORS|
    requires Find(constraint, COMPARATORS[early]) >= 0
    ensures SplitAtFirst(key + constraint, op).0 != key
    decreases |COMPARATORS| - op
  {
    if Find(constraint, COMPARATORS[op]) >= 0 {
      SplitsTooLate(key, constraint, op);
    } else {
      OperatorsStartAfterKey(key, constraint, op);
      ScanStopsEarly(key, constraint, op + 1, early);
    }
  }

  lemma SplitsTooLate(key: string, constraint: string, op: nat)
    requires PlainKey(key) && op < LeadingComparator(constraint) < |COMPARATORS|
    requires Find(constraint, COMPARATORS[op]) >= 0
    ensures SplitAtFirst(key + constraint, op).0 != key
  {
    OperatorsStartAfterKey(key, constraint, op);
    var lead := COMPARATORS[LeadingComparator(constraint)];
    assert OperatorChar(lead[0]) && constraint[0] == lead[0];
    assert constraint[0..] == constraint;
    LongerKeyDiffers(key, constraint, |key| + Find(constraint, COMPARATORS[op]));
  }

  lemma SplitsAtLead(key: string, constraint: string, op: nat)
    requires PlainKey(key) && op == LeadingComparator(constraint) < |COMPARATORS|
    requires Strip(key) == key && Strip(constraint) == constraint
    ensures SplitAtFirst(key + constraint, op) == (key, constraint)
  {
    var text := key + constraint;
    OperatorsStartAfterKey(key, constraint, op);
    assert constraint[0..] == constraint;
    assert Find(constraint, COMPARATORS[op]) == 0;
    assert text[..|key|] == key && text[|key|..] == constraint;
  }

  lemma LongerKeyDiffers(key: string, constraint: string, i: nat)
    requires PlainKey(key) && constraint != "" && OperatorChar(constraint[0])
    requires |key| < i <= |key + constraint|
    ensures Strip((key + constraint)[..i]) != key
  {
    var text := (key + constraint)[..i];
    assert text[|key|] == constraint[0];
    assert text[0] == key[0];
    StripRightStops(text, |key|);
  }

  lemma {:induction false} StripRightStops(s: string, k: nat)
    requires k < |s| && !IsSpace(s[k])
    ensures |StripRight(s)| > k
    decreases |s|
  {
    if IsSpace(s[|s| - 1]) {
      StripRightStops(s[..|s| - 1], k);
    }
  }

  lemma ComparatorIsInFront(op: string, text: string, n: nat)
    requires op in COMPARATORS && n < |COMPARATORS| && text != "" && forall c :: c in text ==> !OperatorChar(c)
    ensures Find(op + text, COMPARATORS[n]) <= 0
  {
    var whole, word := op + text, COMPARATORS[n];
    assert OperatorChar(word[0]) && OperatorChar(word[|word| - 1]);
    forall i | 0 < i <= |whole| - |word| ensures !(word <= whole[i..]) {
      assert whole[i..][0] == whole[i] && whole[i..][|word| - 1] == whole[i + |word| - 1];
      if i >= |op| { assert whole[i] == text[i - |op|]; }
      if i + |word| > |op| { assert whole[i + |word| - 1] == text[i + |word| - 1 - |op|]; }
    }
  }

  /** Without a key before it a comparator does not split. */
  lemma NothingBeforeTheComparator(op: string, text: string)
    requires op in COMPARATORS && Trimmed(text) && text != "" && forall c :: c in text ==> !OperatorChar(c)
    ensures SplitDependency(op + text) == (op + text, "")
  {
    var whole := op + text;
    assert Trimmed(whole);
    TrimmedIsStripped(whole);
    forall n | 0 <= n < |COMPARATORS| ensures Find(whole, COMPARATORS[n]) <= 0 {
      ComparatorIsInFront(op, text, n);
    }
    NoSplitFrom(whole, 0);
  }

  lemma {:induction false} NoSplitFrom(text: string, op: nat)
    requires op <= |COMPARATORS| && forall n :: op <= n < |COMPARATORS| ==> Find(text, COMPARATORS[n]) <= 0
    ensures SplitAtFirst(text, op) == (text, "")
    decreases |COMPARATORS| - op
  {
    if op < |COMPARATORS| { NoSplitFrom(text, op + 1); }
  }

  // ------------------------------------------------------------------ the checker

  datatype Checker = Checker(
    platformVersion: string,
    installedPacks: map<string, AdapterPack>,
    knownPublications: set<string>)
  {
    predicate PlatformOk(pack: AdapterPack) {
      pack.requiresPlatformVersion == "" || Satisfies(platformVersion, pack.requiresPlatformVersion)
    }

    predicate DependencyOk(dep: string) {
      var (key, constraint) := SplitDependency(dep);
      key == "" || (key in installedPacks && (constraint == "" || Satisfies(installedPacks[key].version, constraint)))
    }

    predicate DependenciesOk(deps: seq<string>) {
      deps == [] || (DependenciesOk(deps[..|deps| - 1]) && DependencyOk(deps[|deps| - 1]))
    }

    /** Why a pack is refused: the platform, or a dependency that is missing or has another version. */
    ghost predicate Explains(pack: AdapterPack, issue: Issue) {
      || (&& pack.requiresPlatformVersion != "" && !Satisfies(platformVersion, pack.requiresPlatformVersion)
          && issue == PlatformMismatch(pack.requiresPlatformVersion, platformVersion))
      || exists dep :: dep in pack.dependencies && ExplainsDependency(dep, issue)
    }

    predicate ExplainsDependency(dep: string, issue: Issue) {
      var (key, constraint) := SplitDependency(dep);
      && key != ""
      && (|| (key !in installedPacks && issue == MissingDependency(key))
          || (&& key in installedPacks && constraint != "" && !Satisfies(installedPacks[key].version, constraint)
              && issue == UnsatisfiedDependency(key, installedPacks[key].version, constraint)))
    }

    /** `PackCompatibilityChecker.check`. A pack passes exactly when the platform and every dependency satisfy it. */
    method Check(pack: AdapterPack) returns (check: CompatibilityCheck)
      ensures check.isCompatible <==> Compatible(pack)
      ensures check.isCompatible <==> check.issues == []
      ensures forall issue :: issue in check.issues <==> Explains(pack, issue)
      ensures forall key :: key in check.unknownPublications <==>
                key in pack.publicationRelations && knownPublications != {} && key !in knownPublications
    {
      var platform := CheckPlatform(pack);
      var dependencies := CheckDependencies(pack.dependencies);
      var unknown := UnknownPublications(pack.publicationRelations);
      var issues := platform + dependencies;
      assert |issues| == |platform| + |dependencies|;
      return CompatibilityCheck(issues == [], issues, unknown);
    }

    method CheckPlatform(pack: AdapterPack) returns (issues: seq<Issue>)
      ensures |issues| == 0 <==> PlatformOk(pack)
      ensures forall issue :: issue in issues <==>
                && pack.requiresPlatformVersion != "" && !Satisfies(platformVersion, pack.requiresPlatformVersion)
                && issue == PlatformMismatch(pack.requiresPlatformVersion, platformVersion)
    {
      if pack.requiresPlatformVersion != "" {
        var ok := SatisfiesConstraint(platformVersion, pack.requiresPlatformVersion);
        if !ok { return [PlatformMismatch(pack.requiresPlatformVersion, platformVersion)]; }
      }
      return [];
    }

    method CheckDependencies(deps: seq<string>) returns (issues: seq<Issue>)
      ensures |issues| == 0 <==> DependenciesOk(deps)
      ensures forall issue :: issue in issues <==> exists dep :: dep in deps && ExplainsDependency(dep, issue)
    {
      issues := [];
      for i := 0 to |deps|
        invariant |issues| == 0 <==> DependenciesOk(deps[..i])
        invariant forall issue :: issue in issues <==>
                    exists dep :: dep in deps[..i] && ExplainsDependency(dep, issue)
      {
        assert deps[..i + 1][..i] == deps[..i];
        assert deps[..i + 1] == deps[..i] + [deps[i]];
        var found := CheckDependency(deps[i]);
        issues := issues + found;
      }
      assert deps[..|deps|] == deps;
    }

    method CheckDependency(dep: string) returns (issues: seq<Issue>)
      ensures |issues| == 0 <==> DependencyOk(dep)
      ensures forall issue :: issue in issues <==> ExplainsDependency(dep, issue)
    {
      var (key, constraint) := SplitDependency(dep);
      if key == "" { return []; }
      if key !in installedPacks { return [MissingDependency(key)]; }
      if constraint != "" {
        var ok := SatisfiesConstraint(installedPacks[key].version, constraint);
        if !ok { return [UnsatisfiedDependency(key, installedPacks[key].version, constraint)]; }
      }
      return [];
    }

    method UnknownPublications(keys: seq<string>) returns (unknown: seq<string>)
      ensures forall key :: key in unknown <==> key in keys && knownPublications != {} && key !in knownPublications
    {
      unknown := [];
      for i := 0 to |keys|
        invariant forall key :: key in unknown <==>
                    key in keys[..i] && knownPublications != {} && key !in knownPublications
      {
        if knownPublications != {} && keys[i] !in knownPublications {
          unknown := unknown + [keys[i]];
        }
      }
      assert keys[..|keys|] == keys;
    }

    predicate Compatible(pack: AdapterPack) {
      PlatformOk(pack) && DependenciesOk(pack.dependencies)
    }
  }
}
