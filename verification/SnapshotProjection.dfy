/** Fitting stored snapshot rows to a publication's current columns (`project_snapshot_rows`). */
module SnapshotProjection {
  import opened Text
  import opened SortedKeys
  import opened ReportingSnapshots

  datatype Projection = Projection(rows: seq<JsonRow>, missing: seq<string>, dropped: seq<string>)

  function ProjectRow(row: JsonRow, names: seq<string>): JsonRow {
    map name | name in names :: if name in row then row[name] else JNull
  }

  predicate LackedBySome(rows: seq<JsonRow>, name: string) {
    exists row :: row in rows && name !in row
  }

  predicate HeldBySome(rows: seq<JsonRow>, name: string) {
    exists row :: row in rows && name in row
  }

  /** The columns some row lacks, in column order. */
  function Lacking(rows: seq<JsonRow>, names: seq<string>): seq<string> {
    if names == [] then []
    else
      var last := names[|names| - 1];
      Lacking(rows, names[..|names| - 1]) + if LackedBySome(rows, last) then [last] else []
  }

  /** The rows fitted one by one, the columns some row lacks, and those that are no longer wanted. */
  method ProjectSnapshotRows(rows: seq<JsonRow>, names: seq<string>) returns (p: Projection)
    ensures |p.rows| == |rows| && forall i :: 0 <= i < |rows| ==> p.rows[i] == ProjectRow(rows[i], names)
    ensures p.missing == Lacking(rows, names)
    ensures forall name :: name in p.missing <==> name in names && LackedBySome(rows, name)
    ensures Ascending(p.dropped) && forall name :: name in p.dropped <==> name !in names && HeldBySome(rows, name)
    ensures p.rows == rows <==> p.missing == [] && p.dropped == []
  {
    var missing: seq<string> := [];
    for n := 0 to |names|
      invariant missing == Lacking(rows, names[..n])
      invariant forall name :: name in missing <==> name in names[..n] && LackedBySome(rows, name)
    {
      assert names[..n + 1][..n] == names[..n];
      if LackedBySome(rows, names[n]) { missing := missing + [names[n]]; }
    }
    assert names[..|names|] == names;
    var held := set i, name | 0 <= i < |rows| && name in rows[i] && name !in names :: name;
    var dropped := Ordered(held);
    forall name ensures name in dropped <==> name !in names && HeldBySome(rows, name) {
      if name !in names && HeldBySome(rows, name) {
        var row :| row in rows && name in row;
        var i :| 0 <= i < |rows| && rows[i] == row;
        assert name in held;
      }
    }
    p := Projection(seq(|rows|, i requires 0 <= i < |rows| => ProjectRow(rows[i], names)), missing, dropped);
    UnchangedExactlyWhenNothingDiffers(rows, names, p);
  }

  predicate Fits(row: JsonRow, names: seq<string>) {
    row.Keys == set name | name in names
  }

  lemma UnchangedExactlyWhenFitting(row: JsonRow, names: seq<string>)
    ensures ProjectRow(row, names) == row <==> Fits(row, names)
  {
    assert ProjectRow(row, names).Keys == set name | name in names;
  }

  lemma FittingExactlyWhenNothingDiffers(rows: seq<JsonRow>, names: seq<string>)
    ensures (forall row :: row in rows ==> Fits(row, names)) <==>
            && (forall name :: name in names ==> !LackedBySome(rows, name))
            && (forall name :: name !in names ==> !HeldBySome(rows, name))
  {
    if (forall name :: name in names ==> !LackedBySome(rows, name))
       && forall name :: name !in names ==> !HeldBySome(rows, name)
    {
      forall row | row in rows ensures Fits(row, names) {
        forall name ensures name in row <==> name in names {
          assert name in names ==> !LackedBySome(rows, name);
          assert name !in names ==> !HeldBySome(rows, name);
        }
      }
    }
  }

  /** The projection changes the rows exactly when it reports a missing or a dropped column. */
  lemma UnchangedExactlyWhenNothingDiffers(rows: seq<JsonRow>, names: seq<string>, p: Projection)
    requires |p.rows| == |rows| && forall i :: 0 <= i < |rows| ==> p.rows[i] == ProjectRow(rows[i], names)
    requires forall name :: name in p.missing <==> name in names && LackedBySome(rows, name)
    requires forall name :: name in p.dropped <==> name !in names && HeldBySome(rows, name)
    ensures p.rows == rows <==> p.missing == [] && p.dropped == []
  {
    forall i | 0 <= i < |rows| ensures p.rows[i] == rows[i] <==> Fits(rows[i], names) {
      UnchangedExactlyWhenFitting(rows[i], names);
    }
    assert p.rows == rows <==> forall i :: 0 <= i < |rows| ==> Fits(rows[i], names);
    assert p.missing == [] <==> forall name :: name !in p.missing by {
      if p.missing != [] { assert p.missing[0] in p.missing; }
    }
    assert p.dropped == [] <==> forall name :: name !in p.dropped by {
      if p.dropped != [] { assert p.dropped[0] in p.dropped; }
    }
    FittingExactlyWhenNothingDiffers(rows, names);
  }

  /** Fitted rows fit: projecting again onto the same columns changes nothing and reports nothing. */
  lemma ProjectionIsIdempotent(row: JsonRow, names: seq<string>)
    ensures ProjectRow(ProjectRow(row, names), names) == ProjectRow(row, names)
    ensures forall name :: name in names <==> name in ProjectRow(row, names)
  {
  }
}
