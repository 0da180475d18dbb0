/** The as-of snapshot table with retention (`packages/pipelines/reporting_snapshots.py`). */
module ReportingSnapshots {
  import opened Prelude
  import opened Text
  import opened SortedKeys
  import opened Sorting
  import opened SnapshotRetention
  import opened ReferenceMonths

  // ------------------------------------------------------------------ rows and their JSON payload

  /** A cell of a published row; `Other` is a value `_json_default` refuses. */
  datatype Cell =
    | Null | Bool(b: bool) | Int(n: int) | Str(text: string)
    | Decimal(text: string) | Moment(iso: string) | Member(value: Cell) | Other

  datatype Json = JNull | JBool(b: bool) | JInt(n: int) | JStr(text: string)

  type Row = map<string, Cell>
  type JsonRow = map<string, Json>

  function EncodeCell(c: Cell): Option<Json> {
    match c
    case Null => Some(JNull)
    case Bool(b) => Some(JBool(b))
    case Int(n) => Some(JInt(n))
    case Str(text) => Some(JStr(text))
    case Decimal(text) => Some(JStr(text))
    case Moment(iso) => Some(JStr(iso))
    case Member(value) => EncodeCell(value)
    case Other => None
  }

  predicate Encodable(rows: seq<Row>) {
    forall i :: 0 <= i < |rows| ==> forall k :: k in rows[i] ==> EncodeCell(rows[i][k]).Some?
  }

  /** `json.dumps(rows, default=_json_default)`. */
  function Encode(rows: seq<Row>): (r: seq<JsonRow>)
    requires Encodable(rows)
    ensures |r| == |rows|
  {
    seq(|rows|, i requires 0 <= i < |rows| => map k | k in rows[i] :: EncodeCell(rows[i][k]).value)
  }

  function CellOf(j: Json): Cell {
    match j case JNull => Null case JBool(b) => Bool(b) case JInt(n) => Int(n) case JStr(text) => Str(text)
  }

  /** The rows an as-of read hands out. */
  function Decode(rows: seq<JsonRow>): (r: seq<Row>)
    ensures |r| == |rows|
  {
    seq(|rows|, i requires 0 <= i < |rows| => map k | k in rows[i] :: CellOf(rows[i][k]))
  }

  /** Writing back what was read stores the same payload. */
  lemma DecodedRowsEncodeBack(rows: seq<JsonRow>)
    ensures Encodable(Decode(rows)) && Encode(Decode(rows)) == rows
  {
    forall i | 0 <= i < |rows| ensures forall k :: k in rows[i] ==> EncodeCell(Decode(rows)[i][k]) == Some(rows[i][k]) {
      assert Decode(rows)[i] == map k | k in rows[i] :: CellOf(rows[i][k]);
    }
    var back := Encode(Decode(rows));
    forall i | 0 <= i < |rows| ensures back[i] == rows[i] {
      assert back[i] == map k | k in Decode(rows)[i] :: EncodeCell(Decode(rows)[i][k]).value;
    }
  }

  datatype Snapshot = Snapshot(
    publicationKey: string, referenceMonth: string, capturedAt: string, runId: Option<string>, rows: seq<Row>)

  datatype StoredRow = StoredRow(
    publicationKey: string, referenceMonth: string, capturedAt: string, runId: Option<string>,
    rowCount: nat, rowsJson: seq<JsonRow>)

  function Stored(s: Snapshot): StoredRow
    requires Encodable(s.rows)
  {
    StoredRow(s.publicationKey, s.referenceMonth, s.capturedAt, s.runId, |s.rows|, Encode(s.rows))
  }

  function Loaded(r: StoredRow): Snapshot {
    Snapshot(r.publicationKey, r.referenceMonth, r.capturedAt, r.runId, Decode(r.rowsJson))
  }

  // ------------------------------------------------------------------ what a reader is shown

  /** How a cell reads once it has been through JSON: a decimal or a moment as its text, a member as its value. */
  predicate ReadsAs(c: Cell, shown: Cell) {
    match c
    case Decimal(text) => shown == Str(text)
    case Moment(iso) => shown == Str(iso)
    case Member(value) => ReadsAs(value, shown)
    case Other => false
    case _ => shown == c
  }

  ghost predicate RowReadsAs(row: Row, shown: Row) {
    shown.Keys == row.Keys && forall k :: k in row ==> ReadsAs(row[k], shown[k])
  }

  /** `shown` is what a reader of the snapshot `s` should get. */
  ghost predicate Shows(s: Snapshot, shown: Snapshot) {
    && shown.publicationKey == s.publicationKey && shown.referenceMonth == s.referenceMonth
    && shown.capturedAt == s.capturedAt && shown.runId == s.runId
    && |shown.rows| == |s.rows| && forall i :: 0 <= i < |s.rows| ==> RowReadsAs(s.rows[i], shown.rows[i])
  }

  /** A value of another type, plain or as the value of an enum member. */
  predicate HasOther(c: Cell) {
    c.Other? || (c.Member? && HasOther(c.value))
  }

  ghost predicate Refused(rows: seq<Row>) {
    exists i, k :: 0 <= i < |rows| && k in rows[i] && HasOther(rows[i][k])
  }

  lemma {:induction false} CellsRead(c: Cell)
    ensures EncodeCell(c).None? <==> HasOther(c)
    ensures EncodeCell(c).Some? ==> ReadsAs(c, CellOf(EncodeCell(c).value))
    decreases c
  {
    match c {
      case Member(value) => CellsRead(value);
      case _ =>
    }
  }

  lemma RefusedExactlyWhenNotEncodable(rows: seq<Row>)
    ensures Refused(rows) <==> !Encodable(rows)
  {
    forall i, k | 0 <= i < |rows| && k in rows[i] ensures EncodeCell(rows[i][k]).None? <==> HasOther(rows[i][k]) {
      CellsRead(rows[i][k]);
    }
  }

  /** A stored row is as good as the snapshot it was made from. */
  ghost predicate Keeps(row: StoredRow, s: Snapshot) {
    && row.publicationKey == s.publicationKey && row.referenceMonth == s.referenceMonth
    && row.rowCount == |s.rows| && Shows(s, Loaded(row))
  }

  lemma StoredKeeps(s: Snapshot)
    requires Encodable(s.rows)
    ensures Keeps(Stored(s), s)
  {
    var shown := Decode(Encode(s.rows));
    forall i | 0 <= i < |s.rows| ensures RowReadsAs(s.rows[i], shown[i]) {
      assert Encode(s.rows)[i] == map k | k in s.rows[i] :: EncodeCell(s.rows[i][k]).value;
      forall k | k in s.rows[i] ensures ReadsAs(s.rows[i][k], shown[i][k]) { CellsRead(s.rows[i][k]); }
    }
  }

  // ------------------------------------------------------------------ the SQL table

  predicate SameKey(a: StoredRow, b: StoredRow) {
    a.publicationKey == b.publicationKey && a.referenceMonth == b.referenceMonth
  }

  /** One row per publication and month: without it LIMIT would count rows, not months. */
  ghost predicate Unique(table: seq<StoredRow>) {
    forall i, j :: 0 <= i < j < |table| ==> !SameKey(table[i], table[j])
  }

  /** What a publication has on the shelf: month to row. */
  function Shelf(table: seq<StoredRow>, publication: string): map<string, StoredRow> {
    if table == [] then map[]
    else
      var last := table[|table| - 1];
      var rest := Shelf(table[..|table| - 1], publication);
      if last.publicationKey == publication then rest[last.referenceMonth := last] else rest
  }

  lemma {:induction false} ShelfIsFromTable(table: seq<StoredRow>, publication: string)
    ensures forall m :: m in Shelf(table, publication) ==>
              var r := Shelf(table, publication)[m];
              r in table && r.publicationKey == publication && r.referenceMonth == m
    decreases |table|
  {
    if table == [] {
    } else {
      ShelfIsFromTable(table[..|table| - 1], publication);
    }
  }

  lemma {:induction false} ShelfHasAll(table: seq<StoredRow>, publication: string, r: StoredRow)
    requires Unique(table) && r in table && r.publicationKey == publication
    ensures r.referenceMonth in Shelf(table, publication) && Shelf(table, publication)[r.referenceMonth] == r
    decreases |table|
  {
    var n := |table| - 1;
    if r != table[n] {
      var i :| 0 <= i <= n && table[i] == r;
      assert table[..n][i] == r && !SameKey(table[i], table[n]);
      ShelfHasAll(table[..n], publication, r);
    }
  }

  lemma ShelfHolds(table: seq<StoredRow>, publication: string)
    requires Unique(table)
    ensures forall r :: r in table && r.publicationKey == publication ==>
              r.referenceMonth in Shelf(table, publication) && Shelf(table, publication)[r.referenceMonth] == r
    ensures forall m :: m in Shelf(table, publication) ==>
              var r := Shelf(table, publication)[m];
              r in table && r.publicationKey == publication && r.referenceMonth == m
  {
    ShelfIsFromTable(table, publication);
    forall r | r in table && r.publicationKey == publication
      ensures r.referenceMonth in Shelf(table, publication) && Shelf(table, publication)[r.referenceMonth] == r
    {
      ShelfHasAll(table, publication, r);
    }
  }

  /** A shelf is determined by the rows in the table. */
  lemma ShelvesAgree(a: seq<StoredRow>, publication: string, shelf: map<string, StoredRow>)
    requires Unique(a)
    requires forall r :: r in a && r.publicationKey == publication ==>
               r.referenceMonth in shelf && shelf[r.referenceMonth] == r
    requires forall m :: m in shelf ==>
               shelf[m] in a && shelf[m].publicationKey == publication && shelf[m].referenceMonth == m
    ensures Shelf(a, publication) == shelf
  {
    ShelfHolds(a, publication);
  }

  function Where(table: seq<StoredRow>, keep: StoredRow -> bool): seq<StoredRow> {
    if table == [] then []
    else Where(table[..|table| - 1], keep) + if keep(table[|table| - 1]) then [table[|table| - 1]] else []
  }

  lemma {:induction false} WhereFilters(table: seq<StoredRow>, keep: StoredRow -> bool)
    requires Unique(table)
    ensures Unique(Where(table, keep))
    ensures forall r :: r in Where(table, keep) <==> r in table && keep(r)
    decreases |table|
  {
    if table == [] {
    } else {
      var n := |table| - 1;
      WhereFilters(table[..n], keep);
      assert table == table[..n] + [table[n]];
      var rest := Where(table[..n], keep);
      forall i | 0 <= i < |rest| ensures !SameKey(rest[i], table[n]) {
        assert rest[i] in rest;
        var j :| 0 <= j < n && table[j] == rest[i];
      }
    }
  }

  function MonthsOf(table: seq<StoredRow>, publication: string): seq<string> {
    if table == [] then []
    else
      MonthsOf(table[..|table| - 1], publication) +
      if table[|table| - 1].publicationKey == publication then [table[|table| - 1].referenceMonth] else []
  }

  lemma {:induction false} MonthsAreDistinct(table: seq<StoredRow>, publication: string)
    requires Unique(table)
    ensures Distinct(MonthsOf(table, publication))
    ensures forall m :: m in MonthsOf(table, publication) <==> m in Shelf(table, publication)
    decreases |table|
  {
    if table == [] {
    } else {
      var n := |table| - 1;
      MonthsAreDistinct(table[..n], publication);
      ShelfHolds(table[..n], publication);
      forall m | m in Shelf(table[..n], publication)
        ensures !(table[n].publicationKey == publication && table[n].referenceMonth == m)
      {
        var i :| 0 <= i < n && table[i] == Shelf(table[..n], publication)[m];
        assert !SameKey(table[i], table[n]);
      }
      var months := MonthsOf(table[..n], publication);
      forall i | 0 <= i < |months| && table[n].publicationKey == publication
        ensures months[i] != table[n].referenceMonth
      {
        assert months[i] in months;
      }
    }
  }

  function Descending(): (string, string) -> bool {
    (a: string, b: string) => Leq(b, a)
  }

  lemma DescendingIsTotalPreorder()
    ensures TotalPreorder(Descending())
  {
    forall a: string, b: string ensures Descending()(a, b) || Descending()(b, a) { LessIsTotal(a, b); }
    forall a: string, b: string, c: string | Descending()(a, b) && Descending()(b, c) ensures Descending()(a, c) {
      if a != b && b != c { LessIsTransitive(c, b, a); }
    }
  }

  /** `SELECT reference_month ... ORDER BY reference_month DESC LIMIT n`. */
  function Limited(months: seq<string>, n: nat): seq<string> {
    var sorted := Sort(months, Descending());
    sorted[..if n < |sorted| then n else |sorted|]
  }

  ghost function Prefix(s: seq<string>, i: nat): set<string>
    requires i <= |s|
  {
    set k | 0 <= k < i :: s[k]
  }

  lemma {:induction false} PrefixSize(s: seq<string>, i: nat)
    requires i <= |s| && Distinct(s)
    ensures |Prefix(s, i)| == i
  {
    if i == 0 {
    } else {
      PrefixSize(s, i - 1);
      assert Prefix(s, i) == Prefix(s, i - 1) + {s[i - 1]};
    }
  }

  /** With one row per month the first n rows in descending order are the n newest months. */
  lemma LimitIsNewest(months: seq<string>, n: nat)
    requires Distinct(months)
    ensures forall m :: m in Limited(months, n) <==> m in Newest((set x | x in months), n)
  {
    var sorted, all := Sort(months, Descending()), (set x | x in months);
    DescendingIsTotalPreorder();
    SortSorts(months, Descending());
    SortKeepsMembers(months, Descending());
    SortKeepsDistinct(months, Descending());
    forall i | 0 <= i < |sorted| ensures |NewerThan(all, sorted[i])| == i {
      NewerAreBefore(sorted, all, i);
      PrefixSize(sorted, i);
    }
    forall m ensures m in Limited(months, n) <==> m in Newest(all, n) {
      if m in all {
        var i :| 0 <= i < |sorted| && sorted[i] == m;
        if i < n { assert Limited(months, n)[i] == m; }
        if m in Limited(months, n) {
          var j :| 0 <= j < |Limited(months, n)| && Limited(months, n)[j] == m;
          assert sorted[j] == m;
        }
      }
    }
  }

  lemma NewerAreBefore(sorted: seq<string>, all: set<string>, i: nat)
    requires Distinct(sorted) && Sorted(sorted, Descending()) && i < |sorted|
    requires forall m :: m in all <==> m in sorted
    ensures NewerThan(all, sorted[i]) == Prefix(sorted, i)
  {
    forall x ensures x in NewerThan(all, sorted[i]) <==> x in Prefix(sorted, i) {
      if x in all {
        var j :| 0 <= j < |sorted| && sorted[j] == x;
        if j < i {
          assert Descending()(sorted[j], sorted[i]);
        } else if j == i {
          LessIsIrreflexive(x);
        } else {
          assert Descending()(sorted[i], sorted[j]);
          LessIsAsymmetric(sorted[j], sorted[i]);
        }
      }
    }
  }

  // ------------------------------------------------------------------ one write

  /** Retention on one shelf; a retention of zero or less keeps everything. */
  function Retained<V>(shelf: map<string, V>, retention: int): map<string, V> {
    if retention <= 0 then shelf else map m | m in Newest(shelf.Keys, retention) :: shelf[m]
  }

  /** The shelf of one publication after something was put on it. */
  function Shelved<V>(shelf: map<string, V>, month: string, value: V, retention: int): map<string, V> {
    Retained(shelf[month := value], retention)
  }

  datatype WriteError = TypeError

  datatype Written = Written(snapshot: Snapshot, retention: int)

  /** The snapshots a publication should show after a history of successful writes. */
  function ShelfAfter(history: seq<Written>, publication: string): map<string, Snapshot> {
    if history == [] then map[]
    else
      var last := history[|history| - 1];
      var before := ShelfAfter(history[..|history| - 1], publication);
      if last.snapshot.publicationKey != publication then before
      else Shelved(before, last.snapshot.referenceMonth, last.snapshot, last.retention)
  }

  /** The rows on one shelf keep the snapshots that should be there, and there are no others. */
  ghost predicate ShelfKeeps(rows: map<string, StoredRow>, snapshots: map<string, Snapshot>) {
    rows.Keys == snapshots.Keys && forall m :: m in rows ==> Keeps(rows[m], snapshots[m])
  }

  ghost predicate Agrees(table: seq<StoredRow>, history: seq<Written>) {
    forall p {:trigger Shelf(table, p)} :: ShelfKeeps(Shelf(table, p), ShelfAfter(history, p))
  }

  lemma ShelvedKeeps(
    rows: map<string, StoredRow>, snapshots: map<string, Snapshot>, row: StoredRow, s: Snapshot, retention: int)
    requires ShelfKeeps(rows, snapshots) && Keeps(row, s)
    ensures ShelfKeeps(Shelved(rows, row.referenceMonth, row, retention),
                       Shelved(snapshots, s.referenceMonth, s, retention))
  {
    var m := s.referenceMonth;
    assert rows[m := row].Keys == snapshots[m := s].Keys;
  }

  lemma {:induction false} AgreesAfterWrite(
    before: seq<StoredRow>, history: seq<Written>, after: seq<StoredRow>, row: StoredRow, s: Snapshot, retention: int)
    requires Agrees(before, history) && Keeps(row, s)
    requires Shelf(after, row.publicationKey) ==
               Shelved(Shelf(before, row.publicationKey), row.referenceMonth, row, retention)
    requires forall q :: q != row.publicationKey ==> Shelf(after, q) == Shelf(before, q)
    ensures Agrees(after, history + [Written(s, retention)])
  {
    var p := row.publicationKey;
    assert (history + [Written(s, retention)])[..|history|] == history;
    ShelvedKeeps(Shelf(before, p), ShelfAfter(history, p), row, s, retention);
    forall q ensures ShelfKeeps(Shelf(after, q), ShelfAfter(history + [Written(s, retention)], q)) {
      assert ShelfKeeps(Shelf(before, q), ShelfAfter(history, q));
    }
  }

  class PublicationSnapshotStore {
    var created: bool
    var table: seq<StoredRow>

    /** Every successful write so far; `Valid` ties the table to it. */
    ghost var history: seq<Written>

    ghost predicate Valid() reads this {
      Unique(table) && (!created ==> table == []) && Agrees(table, history)
    }

    constructor ()
      ensures Valid() && table == [] && !created && history == []
    {
      created, table, history := false, [], [];
    }

    /**
     * Delete, insert and prune in one transaction. The written publication's shelf gains the month and
     * is cut back to the newest ones, every other shelf stays as it is, and a cell that has no JSON
     * form fails before anything is written.
     */
    method Write(snapshot: Snapshot, retention: int) returns (r: Result<(), WriteError>)
      requires Valid()
      modifies this
      ensures Valid() && (r.Err? <==> Refused(snapshot.rows))
      ensures r.Err? ==> table == old(table) && history == old(history)
      ensures r.Ok? ==> history == old(history) + [Written(snapshot, retention)]
      ensures r.Ok? && Encodable(snapshot.rows) ==>
                Shelf(table, snapshot.publicationKey) ==
                Shelved(Shelf(old(table), snapshot.publicationKey), snapshot.referenceMonth, Stored(snapshot),
                        retention)
      ensures r.Ok? ==> forall q :: q != snapshot.publicationKey ==> Shelf(table, q) == Shelf(old(table), q)
    {
      created := true;
      RefusedExactlyWhenNotEncodable(snapshot.rows);
      if !Encodable(snapshot.rows) { return Err(TypeError); }
      var row := Stored(snapshot);
      var p, m := row.publicationKey, row.referenceMonth;
      var deleted := Where(table, (r: StoredRow) => !(r.publicationKey == p && r.referenceMonth == m));
      WhereFilters(table, (r: StoredRow) => !(r.publicationKey == p && r.referenceMonth == m));
      var inserted := deleted + [row];
      InsertedShelves(table, deleted, inserted, row);
      if retention > 0 {
        var newest := Limited(MonthsOf(inserted, p), retention);
        var pruned := Where(inserted, (r: StoredRow) => r.publicationKey != p || r.referenceMonth in newest);
        WhereFilters(inserted, (r: StoredRow) => r.publicationKey != p || r.referenceMonth in newest);
        PrunedShelves(inserted, pruned, p, retention);
        table := pruned;
      } else {
        table := inserted;
      }
      StoredKeeps(snapshot);
      AgreesAfterWrite(old(table), history, table, row, snapshot, retention);
      history := history + [Written(snapshot, retention)];
      return Ok(());
    }

    /** The row stored for a month, decoded: it shows the snapshot last written. `None` when nothing is held. */
    method Read(publication: string, month: string) returns (found: Option<Snapshot>)
      requires Valid()
      ensures found.Some? <==> month in ShelfAfter(history, publication)
      ensures found.Some? ==>
                exists i :: LastWrite(history, publication, month, i) && Shows(history[i].snapshot, found.value)
      ensures found == if month in Shelf(table, publication)
                       then Some(Loaded(Shelf(table, publication)[month])) else None
    {
      ShelfHolds(table, publication);
      assert ShelfKeeps(Shelf(table, publication), ShelfAfter(history, publication));
      if month in ShelfAfter(history, publication) {
        ghost var n := HeldMonthWasWritten(history, publication, month);
      }
      for i := 0 to |table|
        invariant forall j :: 0 <= j < i ==>
                    !(table[j].publicationKey == publication && table[j].referenceMonth == month)
      {
        if table[i].publicationKey == publication && table[i].referenceMonth == month {
          return Some(Loaded(table[i]));
        }
      }
      return None;
    }

    /** The months held, ascending. */
    method Months(publication: string) returns (months: seq<string>)
      requires Valid()
      ensures Ascending(months) && forall m :: m in months <==> m in Shelf(table, publication)
      ensures forall m :: m in months <==> m in ShelfAfter(history, publication)
    {
      assert ShelfKeeps(Shelf(table, publication), ShelfAfter(history, publication));
      MonthsAreDistinct(table, publication);
      months := Ordered(set m | m in MonthsOf(table, publication));
    }
  }

  lemma InsertedShelves(table: seq<StoredRow>, deleted: seq<StoredRow>, inserted: seq<StoredRow>, row: StoredRow)
    requires Unique(table) && Unique(deleted) && inserted == deleted + [row]
    requires forall r :: r in deleted <==> r in table && !SameKey(r, row)
    ensures Unique(inserted)
    ensures Shelf(inserted, row.publicationKey) == Shelf(table, row.publicationKey)[row.referenceMonth := row]
    ensures forall q :: q != row.publicationKey ==> Shelf(inserted, q) == Shelf(table, q)
  {
    forall i | 0 <= i < |deleted| ensures !SameKey(deleted[i], row) { assert deleted[i] in deleted; }
    ShelfHolds(table, row.publicationKey);
    ShelvesAgree(inserted, row.publicationKey, Shelf(table, row.publicationKey)[row.referenceMonth := row]);
    forall q | q != row.publicationKey ensures Shelf(inserted, q) == Shelf(table, q) {
      ShelfHolds(table, q);
      ShelvesAgree(inserted, q, Shelf(table, q));
    }
  }

  lemma PrunedShelves(inserted: seq<StoredRow>, pruned: seq<StoredRow>, p: string, retention: int)
    requires Unique(inserted) && Unique(pruned) && retention > 0
    requires forall r :: r in pruned <==>
               r in inserted && (r.publicationKey != p || r.referenceMonth in Limited(MonthsOf(inserted, p), retention))
    ensures Shelf(pruned, p) == Retained(Shelf(inserted, p), retention)
    ensures forall q :: q != p ==> Shelf(pruned, q) == Shelf(inserted, q)
  {
    ShelfHolds(inserted, p);
    MonthsAreDistinct(inserted, p);
    LimitIsNewest(MonthsOf(inserted, p), retention);
    assert (set x | x in MonthsOf(inserted, p)) == Shelf(inserted, p).Keys;
    ShelvesAgree(pruned, p, Retained(Shelf(inserted, p), retention));
    forall q | q != p ensures Shelf(pruned, q) == Shelf(inserted, q) {
      ShelfHolds(inserted, q);
      ShelvesAgree(pruned, q, Shelf(inserted, q));
    }
  }

  // ------------------------------------------------------------------ any history of writes

  /** All writes to `publication` used the same retention. */
  predicate SteadyRetention(history: seq<Written>, publication: string, retention: int) {
    forall i :: 0 <= i < |history| && history[i].snapshot.publicationKey == publication ==>
      history[i].retention == retention
  }

  function MonthsWritten(history: seq<Written>, publication: string): set<string> {
    set i | 0 <= i < |history| && history[i].snapshot.publicationKey == publication ::
      history[i].snapshot.referenceMonth
  }

  /** `i` is the last write of this publication and month. */
  ghost predicate LastWrite(history: seq<Written>, publication: string, month: string, i: int) {
    && 0 <= i < |history|
    && history[i].snapshot.publicationKey == publication && history[i].snapshot.referenceMonth == month
    && forall j :: i < j < |history| && history[j].snapshot.publicationKey == publication ==>
      history[j].snapshot.referenceMonth != month
  }

  /** The months held are exactly the newest ones ever written, however often the table was pruned. */
  lemma {:induction false} HeldMonthsAreNewestWritten(history: seq<Written>, publication: string, retention: int)
    requires retention > 0 && SteadyRetention(history, publication, retention)
    ensures ShelfAfter(history, publication).Keys == Newest(MonthsWritten(history, publication), retention)
    decreases |history|
  {
    if history == [] {
      assert MonthsWritten(history, publication) == {};
    } else {
      var n := |history| - 1;
      var before, last := history[..n], history[n].snapshot;
      HeldMonthsAreNewestWritten(before, publication, retention);
      if last.publicationKey == publication {
        PruningEarlyIsHarmless(MonthsWritten(before, publication), last.referenceMonth, retention);
        assert MonthsWritten(history, publication) == MonthsWritten(before, publication) + {last.referenceMonth} by {
          WrittenMonthsGrow(history, publication);
        }
        assert ShelfAfter(before, publication)[last.referenceMonth := last].Keys
            == ShelfAfter(before, publication).Keys + {last.referenceMonth};
      } else {
        WrittenMonthsGrow(history, publication);
        assert MonthsWritten(history, publication) == MonthsWritten(before, publication);
      }
    }
  }

  lemma WrittenMonthsGrow(history: seq<Written>, publication: string)
    requires history != []
    ensures var n := |history| - 1;
            MonthsWritten(history, publication) == MonthsWritten(history[..n], publication) +
              if history[n].snapshot.publicationKey == publication then {history[n].snapshot.referenceMonth} else {}
  {
    var n := |history| - 1;
    forall m | m in MonthsWritten(history[..n], publication) ensures m in MonthsWritten(history, publication) {
      var i :| 0 <= i < n && history[..n][i].snapshot.publicationKey == publication
        && history[..n][i].snapshot.referenceMonth == m;
      assert history[i].snapshot.referenceMonth == m;
    }
    forall m | m in MonthsWritten(history, publication)
      ensures m in MonthsWritten(history[..n], publication)
              || (history[n].snapshot.publicationKey == publication && m == history[n].snapshot.referenceMonth)
    {
      var i :| 0 <= i < |history| && history[i].snapshot.publicationKey == publication
               && history[i].snapshot.referenceMonth == m;
      if i < n { assert history[..n][i].snapshot.referenceMonth == m; }
    }
  }

  /** The written months the calendar puts behind `month`. */
  function CalendarNewer(u: Unicode, months: set<string>, month: string): set<string>
    requires Dated(u, month)
  {
    set x | x in months && Dated(u, x) && Calendar(u, x) > Calendar(u, month)
  }

  /** On the months the warehouse produces, newest means newest by the calendar. */
  lemma {:induction false} HeldMonthsAreCalendarNewest(
    u: Unicode, history: seq<Written>, publication: string, retention: int, month: string)
    requires retention > 0 && SteadyRetention(history, publication, retention)
    requires forall m :: m in MonthsWritten(history, publication) ==> Dated(u, m) && Ascii(m)
    ensures month in ShelfAfter(history, publication) <==>
            month in MonthsWritten(history, publication)
            && |CalendarNewer(u, MonthsWritten(history, publication), month)| < retention
  {
    var months := MonthsWritten(history, publication);
    HeldMonthsAreNewestWritten(history, publication, retention);
    if month in months {
      forall x | x in months ensures Less(month, x) <==> Calendar(u, month) < Calendar(u, x) {
        AsciiOrderIsCalendarOrder(u, month, x);
      }
      assert NewerThan(months, month) == CalendarNewer(u, months, month);
    }
  }

  /** Each month held shows the last rows written for it. */
  lemma {:induction false} HeldMonthsShowLastWrite(history: seq<Written>, publication: string, month: string, i: int)
    requires month in ShelfAfter(history, publication) && LastWrite(history, publication, month, i)
    ensures ShelfAfter(history, publication)[month] == history[i].snapshot
    decreases |history|
  {
    var n := |history| - 1;
    if i == n {
    } else {
      HeldMonthsShowLastWrite(history[..n], publication, month, i);
    }
  }

  /** A held month was written, and there is a last time. */
  lemma {:induction false} HeldMonthWasWritten(history: seq<Written>, publication: string, month: string)
    returns (i: int)
    requires month in ShelfAfter(history, publication)
    ensures LastWrite(history, publication, month, i)
    ensures ShelfAfter(history, publication)[month] == history[i].snapshot
    decreases |history|
  {
    var n := |history| - 1;
    if history[n].snapshot.publicationKey == publication && history[n].snapshot.referenceMonth == month {
      i := n;
    } else {
      i := HeldMonthWasWritten(history[..n], publication, month);
    }
  }

  /** With retention switched off every month ever written is held. */
  lemma {:induction false} WithoutRetentionAllMonthsAreHeld(history: seq<Written>, publication: string, retention: int)
    requires retention <= 0 && SteadyRetention(history, publication, retention)
    ensures ShelfAfter(history, publication).Keys == MonthsWritten(history, publication)
    decreases |history|
  {
    if history == [] {
      assert MonthsWritten(history, publication) == {};
    } else {
      WithoutRetentionAllMonthsAreHeld(history[..|history| - 1], publication, retention);
      WrittenMonthsGrow(history, publication);
    }
  }
}
