/** The what-if simulator: a list of hypothetical courses (credits and a
    letter grade, both as typed text) and the GPA projected from them. */
module WhatIfSimulator {
  import opened Common
  import opened Grades
  import opened Lists

  datatype SimRow = SimRow(credits: string, grade: string)

  datatype Field = CreditsField | GradeField

  /** A new row: three credits, no grade chosen. */
  function BlankRow(): SimRow { SimRow("3", "") }

  /** The rows the simulator starts with. */
  function InitialRows(): (rows: seq<SimRow>)
    ensures |rows| == 1 && rows[0] == BlankRow()
  {
    [BlankRow()]
  }

  /** `addRow`: a blank row goes on the end. */
  function AddRow(rows: seq<SimRow>): (r: seq<SimRow>)
    ensures |r| == |rows| + 1 && r[..|rows|] == rows && r[|rows|] == BlankRow()
  {
    rows + [BlankRow()]
  }

  function WithField(row: SimRow, field: Field, value: string): SimRow {
    match field
    case CreditsField => row.(credits := value)
    case GradeField => row.(grade := value)
  }

  /** `updateRow`: row `idx` gets `value` in `field`; every other row and
      the other field of row `idx` stay as they were. */
  function UpdateRow(rows: seq<SimRow>, idx: int, field: Field, value: string): (r: seq<SimRow>)
    ensures |r| == |rows|
    ensures forall i | 0 <= i < |rows| && i != idx :: r[i] == rows[i]
    ensures 0 <= idx < |rows| ==>
              (field == CreditsField ==> r[idx].credits == value && r[idx].grade == rows[idx].grade)
              && (field == GradeField ==> r[idx].grade == value && r[idx].credits == rows[idx].credits)
  {
    seq(|rows|, i requires 0 <= i < |rows| => if i == idx then WithField(rows[i], field, value) else rows[i])
  }

  // ---------------------------------------------------------------------
  // Projection
  // ---------------------------------------------------------------------

  /** A row counts when its credits parse to a positive number and its
      grade is a `GRADE_SCALE` key. `parse` stands for `parseFloat`,
      `None` for NaN. */
  predicate Contributes(parse: string -> Option<real>, row: SimRow) {
    parse(row.credits).Some? && parse(row.credits).value > 0.0 && GradePoint(row.grade).Some?
  }

  function RowCredits(parse: string -> Option<real>, row: SimRow): (c: real)
    ensures c >= 0.0 && (c > 0.0 <==> Contributes(parse, row))
  {
    if Contributes(parse, row) then parse(row.credits).value else 0.0
  }

  /** `gp * cr`: a grade point weighted by its credits. */
  function Weighted(gp: real, cr: real): real { gp * cr }

  function RowGP(parse: string -> Option<real>, row: SimRow): (gp: real)
    ensures 0.0 <= gp <= 4.0 * RowCredits(parse, row)
  {
    if Contributes(parse, row) then
      GradePointsInRange(row.grade);
      Weighted(GradePoint(row.grade).value, parse(row.credits).value)
    else 0.0
  }

  /** The credits of the counted rows. */
  function AddedCredits(parse: string -> Option<real>, rows: seq<SimRow>): (c: real)
    ensures c >= 0.0
  {
    if rows == [] then 0.0
    else AddedCredits(parse, rows[..|rows| - 1]) + RowCredits(parse, rows[|rows| - 1])
  }

  /** The grade points (point times credits) of the counted rows. */
  function AddedGP(parse: string -> Option<real>, rows: seq<SimRow>): (gp: real)
    ensures 0.0 <= gp <= 4.0 * AddedCredits(parse, rows)
  {
    if rows == [] then 0.0
    else AddedGP(parse, rows[..|rows| - 1]) + RowGP(parse, rows[|rows| - 1])
  }

  predicate NoneContributes(parse: string -> Option<real>, rows: seq<SimRow>) {
    forall i :: 0 <= i < |rows| ==> !Contributes(parse, rows[i])
  }

  /** Nothing is added exactly when no row counts. */
  lemma {:induction false} AddedCreditsZero(parse: string -> Option<real>, rows: seq<SimRow>)
    ensures AddedCredits(parse, rows) == 0.0 <==> NoneContributes(parse, rows)
    ensures NoneContributes(parse, rows) ==> AddedGP(parse, rows) == 0.0
  {
    if rows != [] {
      var init := rows[..|rows| - 1];
      AddedCreditsZero(parse, init);
      assert forall i :: 0 <= i < |init| ==> init[i] == rows[i];
    }
  }

  datatype Projection = Projection(gpa: real, addedCredits: real, addedGP: real, totalCredits: real)

  /** `projected`: add up the counted rows, then divide the combined grade
      points by the combined credits; nothing when those credits are 0. */
  method Project(parse: string -> Option<real>, rows: seq<SimRow>, currentCredits: real, currentGP: real)
    returns (p: Option<Projection>)
    ensures p.None? <==> currentCredits + AddedCredits(parse, rows) == 0.0
    ensures p.Some? ==>
      && p.value.addedCredits == AddedCredits(parse, rows)
      && p.value.addedGP == AddedGP(parse, rows)
      && p.value.totalCredits == currentCredits + AddedCredits(parse, rows)
      && p.value.gpa * p.value.totalCredits == currentGP + AddedGP(parse, rows)
  {
    var addedCredits := 0.0;
    var addedGP := 0.0;
    var i := 0;
    while i < |rows|
      invariant 0 <= i <= |rows|
      invariant addedCredits == AddedCredits(parse, rows[..i])
      invariant addedGP == AddedGP(parse, rows[..i])
    {
      var row := rows[i];
      var cr := parse(row.credits);
      var gp := GradePoint(row.grade);
      AddedStep(parse, rows, i);
      RowStep(parse, row);
      if cr.Some? && cr.value > 0.0 && gp.Some? {
        addedCredits := addedCredits + cr.value;
        addedGP := addedGP + Weighted(gp.value, cr.value);
      }
      i := i + 1;
    }
    assert rows[..i] == rows;
    var total := currentCredits + addedCredits;
    if total == 0.0 {
      return None;
    }
    var gpa := (currentGP + addedGP) / total;
    QuotientTimesDivisor(currentGP + addedGP, total);
    return Some(Projection(gpa, addedCredits, addedGP, total));
  }

  /** One more row adds its own credits and points to the sums. */
  lemma AddedStep(parse: string -> Option<real>, rows: seq<SimRow>, i: nat)
    requires i < |rows|
    ensures AddedCredits(parse, rows[..i + 1]) == AddedCredits(parse, rows[..i]) + RowCredits(parse, rows[i])
    ensures AddedGP(parse, rows[..i + 1]) == AddedGP(parse, rows[..i]) + RowGP(parse, rows[i])
  {
    assert rows[..i + 1][..i] == rows[..i];
  }

  /** What one row adds, in the terms the loop computes it in. */
  lemma RowStep(parse: string -> Option<real>, row: SimRow)
    ensures var cr := parse(row.credits);
            var gp := GradePoint(row.grade);
            && RowCredits(parse, row) == (if cr.Some? && cr.value > 0.0 && gp.Some? then cr.value else 0.0)
            && RowGP(parse, row) == (if cr.Some? && cr.value > 0.0 && gp.Some? then Weighted(gp.value, cr.value) else 0.0)
  {
  }

  lemma QuotientTimesDivisor(n: real, t: real)
    requires t != 0.0
    ensures n / t * t == n
  {
  }

  /** The GPA shown for the student's own record. */
  function CurrentGpa(currentCredits: real, currentGP: real): (g: real)
    ensures currentCredits > 0.0 ==> g * currentCredits == currentGP
    ensures currentCredits <= 0.0 ==> g == 0.0
  {
    if currentCredits > 0.0 then currentGP / currentCredits else 0.0
  }

  /** When no row counts, the projection is the current GPA. */
  lemma ProjectionWithoutRows(parse: string -> Option<real>, rows: seq<SimRow>, currentCredits: real, currentGP: real, gpa: real)
    requires NoneContributes(parse, rows) && currentCredits > 0.0
    requires gpa * (currentCredits + AddedCredits(parse, rows)) == currentGP + AddedGP(parse, rows)
    ensures gpa == CurrentGpa(currentCredits, currentGP)
  {
    AddedCreditsZero(parse, rows);
    assert (gpa - CurrentGpa(currentCredits, currentGP)) * currentCredits == 0.0;
  }

  lemma RatioInRange(num: real, den: real, g: real)
    requires den > 0.0 && 0.0 <= num <= 4.0 * den && g * den == num
    ensures 0.0 <= g <= 4.0
  {
  }

  /** Adding credits at points in [0, 4] to a record with points in
      [0, 4] keeps the combined ratio in [0, 4]. */
  lemma CombinedInRange(currentCredits: real, currentGP: real, ac: real, agp: real, gpa: real)
    requires currentCredits >= 0.0 && 0.0 <= currentGP <= 4.0 * currentCredits
    requires 0.0 <= agp <= 4.0 * ac
    requires currentCredits + ac > 0.0
    requires gpa * (currentCredits + ac) == currentGP + agp
    ensures 0.0 <= gpa <= 4.0
  {
    RatioInRange(currentGP + agp, currentCredits + ac, gpa);
  }

  /** A record whose GPA lies in [0, 4] projects to a GPA in [0, 4]. */
  lemma ProjectionInRange(parse: string -> Option<real>, rows: seq<SimRow>, currentCredits: real, currentGP: real, gpa: real)
    requires currentCredits >= 0.0 && 0.0 <= currentGP <= 4.0 * currentCredits
    requires currentCredits + AddedCredits(parse, rows) > 0.0
    requires gpa * (currentCredits + AddedCredits(parse, rows)) == currentGP + AddedGP(parse, rows)
    ensures 0.0 <= gpa <= 4.0
  {
    CombinedInRange(currentCredits, currentGP, AddedCredits(parse, rows), AddedGP(parse, rows), gpa);
  }

  /** The blank row's empty grade is not a `GRADE_SCALE` key. */
  lemma BlankRowIgnored(parse: string -> Option<real>)
    ensures !Contributes(parse, BlankRow())
  {
    EmptyGradeUnknown();
  }

  /** A blank row counts for nothing, so adding one leaves the projection
      where it was. */
  lemma AddRowKeepsTotals(parse: string -> Option<real>, rows: seq<SimRow>)
    ensures AddedCredits(parse, AddRow(rows)) == AddedCredits(parse, rows)
    ensures AddedGP(parse, AddRow(rows)) == AddedGP(parse, rows)
  {
    var r := AddRow(rows);
    BlankRowIgnored(parse);
    assert r[..|r| - 1] == rows && r[|r| - 1] == BlankRow();
  }
}
