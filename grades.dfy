/** The letter-grade table (`GRADE_SCALE`), its key list in declaration
    order (`GRADE_OPTIONS`) and the GPA label table (`GPA_LABELS`). */
module Grades {
  import opened Common

  datatype GradeEntry = GradeEntry(grade: string, point: real)

  /** `GRADE_SCALE`, in declaration order (none of its keys looks like an
      array index, so `Object.keys` and `Object.entries` keep this order). */
  function GradeScale(): seq<GradeEntry> {
    [ GradeEntry("A+", 4.0), GradeEntry("A", 4.0), GradeEntry("A-", 3.7),
      GradeEntry("B+", 3.3), GradeEntry("B", 3.0), GradeEntry("B-", 2.7),
      GradeEntry("C+", 2.3), GradeEntry("C", 2.0), GradeEntry("C-", 1.7),
      GradeEntry("D+", 1.3), GradeEntry("D", 1.0),
      GradeEntry("E", 0.0), GradeEntry("E*", 0.0), GradeEntry("E+", 0.0),
      GradeEntry("E-", 0.0), GradeEntry("F", 0.0), GradeEntry("MC", 0.0) ]
  }

  /** The point of the first entry named `g`, or `None` (JavaScript's
      `undefined` for a missing key). */
  function Lookup(es: seq<GradeEntry>, g: string): Option<real> {
    if es == [] then None
    else if es[0].grade == g then Some(es[0].point)
    else Lookup(es[1..], g)
  }

  /** `GRADE_SCALE[g]`. */
  function GradePoint(g: string): Option<real> {
    Lookup(GradeScale(), g)
  }

  function Keys(es: seq<GradeEntry>): (r: seq<string>)
    ensures |r| == |es| && forall i :: 0 <= i < |es| ==> r[i] == es[i].grade
  {
    seq(|es|, i requires 0 <= i < |es| => es[i].grade)
  }

  /** `GRADE_OPTIONS = Object.keys(GRADE_SCALE)`. */
  function GradeOptions(): seq<string> {
    Keys(GradeScale())
  }

  predicate DistinctKeys(es: seq<GradeEntry>) {
    forall i, j :: 0 <= i < j < |es| ==> es[i].grade != es[j].grade
  }

  // ---------------------------------------------------------------------
  // Lookup against membership
  // ---------------------------------------------------------------------

  /** A lookup finds a value exactly when some entry carries that key, and
      the value it finds is that entry's. */
  lemma {:induction false} LookupFindsEntry(es: seq<GradeEntry>, g: string)
    ensures Lookup(es, g).None? <==> g !in Keys(es)
    ensures Lookup(es, g).Some? ==> GradeEntry(g, Lookup(es, g).value) in es
  {
    if es != [] {
      LookupFindsEntry(es[1..], g);
      assert Keys(es) == [es[0].grade] + Keys(es[1..]);
    }
  }

  /** A key no entry carries is not found. */
  lemma {:induction false} LookupMissing(es: seq<GradeEntry>, g: string)
    requires forall e | e in es :: e.grade != g
    ensures Lookup(es, g) == None
  {
    if es != [] {
      assert es[0] in es;
      assert forall e | e in es[1..] :: e in es;
      LookupMissing(es[1..], g);
    }
  }

  /** With distinct keys, the lookup is exactly table membership. */
  lemma {:induction false} LookupIffEntry(es: seq<GradeEntry>, g: string, p: real)
    requires DistinctKeys(es)
    ensures Lookup(es, g) == Some(p) <==> GradeEntry(g, p) in es
  {
    if es != [] {
      assert DistinctKeys(es[1..]) by {
        forall i, j | 0 <= i < j < |es| - 1
          ensures es[1..][i].grade != es[1..][j].grade
        {
          assert es[1..][i] == es[i + 1] && es[1..][j] == es[j + 1];
        }
      }
      LookupIffEntry(es[1..], g, p);
    }
  }

  // ---------------------------------------------------------------------
  // Facts about the table
  // ---------------------------------------------------------------------

  /** The grades from A+ to C- are distinct. */
  lemma UpperGradesDistinct()
    ensures forall i, j | 0 <= i < j < 9 :: GradeScale()[i].grade != GradeScale()[j].grade
  {
    var es := GradeScale();
    assert forall i | 0 <= i < 9 :: |es[i].grade| > 0;
  }

  /** The grades from D+ to MC are distinct. */
  lemma LowerGradesDistinct()
    ensures forall i, j | 9 <= i < j < 17 :: GradeScale()[i].grade != GradeScale()[j].grade
  {
    var es := GradeScale();
    assert forall i | 9 <= i < 17 :: |es[i].grade| > 0;
  }

  /** The two halves start with different letters. */
  lemma HalvesDistinct()
    ensures forall i, j | 0 <= i < 9 <= j < 17 :: GradeScale()[i].grade != GradeScale()[j].grade
  {
    var es := GradeScale();
    assert forall i | 0 <= i < 9 :: |es[i].grade| > 0 && 'A' <= es[i].grade[0] <= 'C';
    assert forall j | 9 <= j < 17 :: |es[j].grade| > 0 && 'D' <= es[j].grade[0];
  }

  lemma GradeScaleDistinct()
    ensures DistinctKeys(GradeScale())
  {
    UpperGradesDistinct();
    LowerGradesDistinct();
    HalvesDistinct();
  }

  /** `GRADE_SCALE[g] === p` holds exactly for the table's entries. */
  lemma GradePointIffEntry(g: string, p: real)
    ensures GradePoint(g) == Some(p) <==> GradeEntry(g, p) in GradeScale()
  {
    GradeScaleDistinct();
    LookupIffEntry(GradeScale(), g, p);
  }

  /** Every grade point lies in [0, 4]. */
  lemma GradePointsInRange(g: string)
    ensures GradePoint(g).Some? ==> 0.0 <= GradePoint(g).value <= 4.0
  {
    var es := GradeScale();
    assert forall i | 0 <= i < |es| :: 0.0 <= es[i].point <= 4.0;
    LookupFindsEntry(es, g);
  }

  /** `GRADE_OPTIONS` holds exactly the grades `GRADE_SCALE` defines, each
      once, in declaration order. */
  lemma GradeOptionsAreKeys(g: string)
    ensures g in GradeOptions() <==> GradePoint(g).Some?
    ensures |GradeOptions()| == 17
  {
    LookupFindsEntry(GradeScale(), g);
  }

  /** No grade is spelled with the empty string, so an unselected grade
      has no point. */
  lemma EmptyGradeUnknown()
    ensures GradePoint("") == None
  {
    assert forall e | e in GradeScale() :: |e.grade| > 0;
    LookupMissing(GradeScale(), "");
  }

  /** The top of the table and the pass mark. */
  lemma SampleGradePoints()
    ensures GradePoint("A+") == Some(4.0) && GradePoint("A") == Some(4.0)
    ensures GradePoint("B+") == Some(3.3) && GradePoint("C") == Some(2.0)
  {
    GradePointIffEntry("A+", 4.0);
    GradePointIffEntry("A", 4.0);
    GradePointIffEntry("B+", 3.3);
    GradePointIffEntry("C", 2.0);
  }

  /** Fail grades, every E variant and the medical `MC` count as 0. */
  lemma ZeroGradePoints()
    ensures GradePoint("F") == Some(0.0) && GradePoint("MC") == Some(0.0)
    ensures GradePoint("E") == Some(0.0) && GradePoint("E*") == Some(0.0)
    ensures GradePoint("E+") == Some(0.0) && GradePoint("E-") == Some(0.0)
  {
    GradePointIffEntry("F", 0.0);
    GradePointIffEntry("MC", 0.0);
    GradePointIffEntry("E", 0.0);
    GradePointIffEntry("E*", 0.0);
    GradePointIffEntry("E+", 0.0);
    GradePointIffEntry("E-", 0.0);
  }

  /** The main grades in strictly descending order of points, A+ tying
      with A at the top. */
  lemma MainGradesDescending()
    ensures GradePoint("A+").GetOr(0.0) >= GradePoint("A").GetOr(0.0) > GradePoint("A-").GetOr(0.0)
    ensures GradePoint("A-").GetOr(0.0) > GradePoint("B+").GetOr(0.0) > GradePoint("B").GetOr(0.0)
    ensures GradePoint("B").GetOr(0.0) > GradePoint("B-").GetOr(0.0) > GradePoint("C+").GetOr(0.0)
    ensures GradePoint("C+").GetOr(0.0) > GradePoint("C").GetOr(0.0) > GradePoint("C-").GetOr(0.0)
    ensures GradePoint("C-").GetOr(0.0) > GradePoint("D+").GetOr(0.0) > GradePoint("D").GetOr(0.0)
    ensures GradePoint("D").GetOr(0.0) > GradePoint("F").GetOr(0.0)
  {
    SampleGradePoints();
    GradePointIffEntry("A-", 3.7);
    GradePointIffEntry("B", 3.0);
    GradePointIffEntry("B-", 2.7);
    GradePointIffEntry("C+", 2.3);
    GradePointIffEntry("C-", 1.7);
    GradePointIffEntry("D+", 1.3);
    GradePointIffEntry("D", 1.0);
    GradePointIffEntry("F", 0.0);
  }

  // ---------------------------------------------------------------------
  // GPA labels
  // ---------------------------------------------------------------------

  datatype Label = Label(key: string, text: string)

  /** `GPA_LABELS`, in declaration order. */
  function GpaLabels(): seq<Label> {
    [ Label("gpa", "Overall GPA"), Label("mathGpa", "Math GPA"),
      Label("cheGpa", "Chemistry GPA"), Label("phyGpa", "Physics GPA"),
      Label("zooGpa", "Zoology GPA"), Label("botGpa", "Botany GPA"),
      Label("csGpa", "Computer Science GPA") ]
  }

  /** `GPA_LABELS[key]`. */
  function GpaLabel(key: string): Option<string> {
    LabelLookup(GpaLabels(), key)
  }

  function LabelLookup(ls: seq<Label>, key: string): Option<string> {
    if ls == [] then None
    else if ls[0].key == key then Some(ls[0].text)
    else LabelLookup(ls[1..], key)
  }

  /** Seven distinct GPA kinds have labels, among them the overall and the
      computer-science GPA. */
  lemma GpaLabelFacts()
    ensures |GpaLabels()| == 7
    ensures forall i, j :: 0 <= i < j < |GpaLabels()| ==> GpaLabels()[i].key != GpaLabels()[j].key
    ensures GpaLabel("gpa") == Some("Overall GPA")
    ensures GpaLabel("csGpa") == Some("Computer Science GPA")
  {
  }
}
