/** The GPA target planner: the average grade point the remaining
    credits need for a target GPA, and the letter grade closest to it. */
module GpaTargetPlanner {
  import opened Common
  import opened Grades

  function Abs(x: real): (r: real)
    ensures r >= 0.0 && (r == x || r == -x)
  {
    if x < 0.0 then -x else x
  }

  function Max(a: real, b: real): (r: real)
    ensures r >= a && r >= b && (r == a || r == b)
  {
    if a < b then b else a
  }

  // ---------------------------------------------------------------------
  // Closest grade
  // ---------------------------------------------------------------------

  /** `es[k]` is a graded (non-`MC`) entry whose point is nearest to `gp`
      among the graded entries, and every graded entry before it is
      strictly farther away: the one a scan with a strict `<` keeps. */
  ghost predicate IsClosest(es: seq<GradeEntry>, gp: real, k: int) {
    && 0 <= k < |es| && es[k].grade != "MC"
    && (forall j | 0 <= j < |es| && es[j].grade != "MC" :: Abs(es[k].point - gp) <= Abs(es[j].point - gp))
    && (forall j | 0 <= j < k && es[j].grade != "MC" :: Abs(es[k].point - gp) < Abs(es[j].point - gp))
  }

  /** Only one entry can be the closest one. */
  lemma ClosestUnique(es: seq<GradeEntry>, gp: real, k1: int, k2: int)
    requires IsClosest(es, gp, k1) && IsClosest(es, gp, k2)
    ensures k1 == k2
  {
  }

  /** `closestGrade`'s loop over a table: scan it in order, skipping
      `MC`, keeping the first grade with the smallest distance seen so
      far; "A+" when every entry is `MC`. */
  method ClosestIn(es: seq<GradeEntry>, gp: real) returns (g: string)
    ensures (exists j :: 0 <= j < |es| && es[j].grade != "MC") ==>
              exists k :: IsClosest(es, gp, k) && g == es[k].grade
    ensures (forall j :: 0 <= j < |es| ==> es[j].grade == "MC") ==> g == "A+"
  {
    g := "A+";
    // `minDiff` starts at Infinity, modelled by `found == false`.
    var found := false;
    var minDiff := 0.0;
    ghost var k := 0;
    var i := 0;
    while i < |es|
      invariant 0 <= i <= |es|
      invariant !found ==> g == "A+" && forall j :: 0 <= j < i ==> es[j].grade == "MC"
      invariant found ==> 0 <= k < i && es[k].grade != "MC" && g == es[k].grade
                          && minDiff == Abs(es[k].point - gp)
      invariant found ==> forall j | 0 <= j < i && es[j].grade != "MC" :: minDiff <= Abs(es[j].point - gp)
      invariant found ==> forall j | 0 <= j < k && es[j].grade != "MC" :: minDiff < Abs(es[j].point - gp)
    {
      var e := es[i];
      if e.grade != "MC" {
        var diff := Abs(e.point - gp);
        if !found || diff < minDiff {
          minDiff := diff;
          g := e.grade;
          k := i;
          found := true;
        }
      }
      i := i + 1;
    }
    if found {
      assert IsClosest(es, gp, k);
    }
  }

  /** `closestGrade` over `GRADE_SCALE`, whose first entry is graded. */
  method ClosestGrade(gp: real) returns (g: string)
    ensures exists k :: IsClosest(GradeScale(), gp, k) && g == GradeScale()[k].grade
  {
    var es := GradeScale();
    assert es[0].grade != "MC";
    g := ClosestIn(es, gp);
  }

  /** A point of 4.0 is closest to A+, which ties with A but comes first. */
  lemma ClosestToTop(k: int)
    requires IsClosest(GradeScale(), 4.0, k)
    ensures GradeScale()[k].grade == "A+"
  {
    assert IsClosest(GradeScale(), 4.0, 0);
    ClosestUnique(GradeScale(), 4.0, k, 0);
  }

  /** A point of 0 is closest to E, the first of the zero-point grades. */
  lemma ClosestToZero(k: int)
    requires IsClosest(GradeScale(), 0.0, k)
    ensures GradeScale()[k].grade == "E"
  {
    var es := GradeScale();
    assert forall j | 0 <= j < 11 :: es[j].point > 0.0;
    assert IsClosest(es, 0.0, 11);
    ClosestUnique(es, 0.0, k, 11);
  }

  // ---------------------------------------------------------------------
  // Required average
  // ---------------------------------------------------------------------

  /** `requiredAvg`: the average point over the remaining credits that
      brings the GPA over all credits exactly to `target`. */
  function RequiredAvg(target: real, currentCredits: real, currentGP: real, remaining: real): (avg: real)
    requires remaining > 0.0
    ensures currentGP + avg * remaining == target * (currentCredits + remaining)
  {
    var needed := target * (currentCredits + remaining) - currentGP;
    assert needed / remaining * remaining == needed;
    needed / remaining
  }

  /** The required average is the only one reaching the target, and it
      is unreachable exactly when even straight A+ grades fall short. */
  lemma RequiredAvgUnique(target: real, currentCredits: real, currentGP: real, remaining: real, avg: real)
    requires remaining > 0.0
    ensures currentGP + avg * remaining == target * (currentCredits + remaining)
            <==> avg == RequiredAvg(target, currentCredits, currentGP, remaining)
    ensures RequiredAvg(target, currentCredits, currentGP, remaining) > 4.0
            <==> currentGP + 4.0 * remaining < target * (currentCredits + remaining)
    ensures RequiredAvg(target, currentCredits, currentGP, remaining) < 0.0
            <==> currentGP > target * (currentCredits + remaining)
  {
    var r := RequiredAvg(target, currentCredits, currentGP, remaining);
    if currentGP + avg * remaining == target * (currentCredits + remaining) {
      assert (avg - r) * remaining == 0.0;
    }
    assert (r - 4.0) * remaining == target * (currentCredits + remaining) - currentGP - 4.0 * remaining;
    assert r * remaining == target * (currentCredits + remaining) - currentGP;
  }

  /** A higher target never needs a lower average. */
  lemma RequiredAvgMonotone(t1: real, t2: real, currentCredits: real, currentGP: real, remaining: real)
    requires remaining > 0.0 && currentCredits >= 0.0 && t1 <= t2
    ensures RequiredAvg(t1, currentCredits, currentGP, remaining) <= RequiredAvg(t2, currentCredits, currentGP, remaining)
  {
    var r1 := RequiredAvg(t1, currentCredits, currentGP, remaining);
    var r2 := RequiredAvg(t2, currentCredits, currentGP, remaining);
    assert (r2 - r1) * remaining == (t2 - t1) * (currentCredits + remaining);
    assert (t2 - t1) * (currentCredits + remaining) >= 0.0;
  }

  /** The planner's result object; a missing `alreadyAchieved` or
      `impossible` field reads as false. */
  datatype Outcome = Outcome(impossible: bool, alreadyAchieved: bool, requiredAvg: real, grade: string)

  /** `remainingCredits = max(degreeCredits - currentCredits, 0)`. */
  function RemainingCredits(degreeCredits: real, currentCredits: real): (r: real)
    ensures r >= 0.0 && r >= degreeCredits - currentCredits
    ensures r > 0.0 <==> currentCredits < degreeCredits
  {
    Max(degreeCredits - currentCredits, 0.0)
  }

  /** The memoised result: nothing for an unparsable target (`None`) or
      when no credits remain; otherwise impossible above 4.0, already
      achieved (reported as 0) below 0, and else the required average
      with its closest letter grade. */
  method Plan(target: Option<real>, currentCredits: real, currentGP: real, degreeCredits: real)
    returns (r: Option<Outcome>)
    ensures var rem := RemainingCredits(degreeCredits, currentCredits);
            r.None? <==> target.None? || rem <= 0.0
    ensures r.Some? ==>
      var avg := RequiredAvg(target.value, currentCredits, currentGP, RemainingCredits(degreeCredits, currentCredits));
      && (r.value.impossible <==> avg > 4.0)
      && (r.value.alreadyAchieved <==> avg < 0.0)
      && (r.value.impossible ==> r.value.requiredAvg == avg && r.value.grade == "A+")
      && (r.value.alreadyAchieved ==> r.value.requiredAvg == 0.0 && r.value.grade == "")
      && (!r.value.impossible && !r.value.alreadyAchieved ==>
            && r.value.requiredAvg == avg && 0.0 <= avg <= 4.0
            && exists k :: IsClosest(GradeScale(), avg, k) && r.value.grade == GradeScale()[k].grade)
  {
    var remaining := RemainingCredits(degreeCredits, currentCredits);
    if target.None? || remaining <= 0.0 {
      return None;
    }
    var avg := RequiredAvg(target.value, currentCredits, currentGP, remaining);
    if avg > 4.0 {
      return Some(Outcome(true, false, avg, "A+"));
    }
    if avg < 0.0 {
      return Some(Outcome(false, true, 0.0, ""));
    }
    var g := ClosestGrade(avg);
    return Some(Outcome(false, false, avg, g));
  }

  /** The component renders nothing when `totalCredits ?? 0` is 0, and the
      planner's result otherwise. */
  method PlannerView(totalCredits: Option<real>, totalGradePoints: Option<real>, target: Option<real>, degreeCredits: real)
    returns (v: Option<Option<Outcome>>)
    ensures v.None? <==> totalCredits.GetOr(0.0) == 0.0
    ensures v.Some? ==> (v.value.None? <==> target.None? || totalCredits.GetOr(0.0) >= degreeCredits)
  {
    var currentCredits := totalCredits.GetOr(0.0);
    var r := Plan(target, currentCredits, totalGradePoints.GetOr(0.0), degreeCredits);
    if currentCredits == 0.0 {
      return None;
    }
    return Some(r);
  }
}
