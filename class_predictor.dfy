/** The dashboard's class predictor: the degree class a GPA is on track
    for and how far it is below the next class up. */
module ClassPredictor {
  import opened Common
  import opened Lists

  /** One entry of `CLASS_CUTOFFS`: its lower GPA bound, name and colour.
      The list itself is not part of this model and is a parameter. */
  datatype Cutoff = Cutoff(min: real, name: string, color: string)

  predicate Reaches(gpa: real, c: Cutoff) { gpa >= c.min }

  /** `CLASS_CUTOFFS.find(c => gpa >= c.min)`. */
  function CurrentClass(cutoffs: seq<Cutoff>, gpa: real): Option<Cutoff> {
    Find(cutoffs, c => Reaches(gpa, c))
  }

  /** `indexOf`: the first position holding `x`, or the length. */
  function IndexOf<T(==)>(s: seq<T>, x: T): (i: nat)
    ensures i <= |s| && (i < |s| <==> x in s)
    ensures i < |s| ==> s[i] == x && forall j :: 0 <= j < i ==> s[j] != x
  {
    if s == [] then 0
    else if s[0] == x then 0
    else 1 + IndexOf(s[1..], x)
  }

  /** `currentIdx`: the position of the current class, or the length of
      the list when the GPA reaches no cutoff. */
  function CurrentIdx(cutoffs: seq<Cutoff>, gpa: real): nat {
    match CurrentClass(cutoffs, gpa)
    case Some(c) => IndexOf(cutoffs, c)
    case None => |cutoffs|
  }

  /** The current index is the first cutoff the GPA reaches: every
      cutoff before it is above the GPA. */
  lemma CurrentIdxIsFirstReached(cutoffs: seq<Cutoff>, gpa: real)
    ensures CurrentIdx(cutoffs, gpa) <= |cutoffs|
    ensures CurrentIdx(cutoffs, gpa) < |cutoffs| ==> Reaches(gpa, cutoffs[CurrentIdx(cutoffs, gpa)])
    ensures forall j :: 0 <= j < CurrentIdx(cutoffs, gpa) ==> gpa < cutoffs[j].min
  {
    var p := c => Reaches(gpa, c);
    FindFirst(cutoffs, p);
    var cur := CurrentClass(cutoffs, gpa);
    if cur.Some? {
      var i :| 0 <= i < |cutoffs| && cutoffs[i] == cur.value && p(cutoffs[i])
               && forall j :: 0 <= j < i ==> !p(cutoffs[j]);
      var k := IndexOf(cutoffs, cur.value);
      assert k == i;
    } else {
      assert forall j :: 0 <= j < |cutoffs| ==> !p(cutoffs[j]);
    }
  }

  /** `nextClass`: the cutoff listed just before the current one. */
  function NextClass(cutoffs: seq<Cutoff>, gpa: real): Option<Cutoff> {
    var idx := CurrentIdx(cutoffs, gpa);
    if 0 < idx <= |cutoffs| then Some(cutoffs[idx - 1]) else None
  }

  /** There is a next class exactly when the current index is positive,
      and its bound is strictly above the GPA, so the gap is positive
      whatever order the cutoffs are listed in. */
  lemma GapPositive(cutoffs: seq<Cutoff>, gpa: real)
    ensures NextClass(cutoffs, gpa).Some? <==> CurrentIdx(cutoffs, gpa) > 0
    ensures NextClass(cutoffs, gpa).Some? ==> NextClass(cutoffs, gpa).value.min - gpa > 0.0
  {
    CurrentIdxIsFirstReached(cutoffs, gpa);
  }

  /** What the card shows: the name and colour of the current class, and
      the next class with the GPA's distance to it. */
  datatype View = View(name: string, color: string, next: Option<Cutoff>, gap: real)

  /** The card: nothing for an unparsable GPA (`None`); else the current
      class, or "Below Pass" in gray when no cutoff is reached. */
  function Predict(cutoffs: seq<Cutoff>, gpa: Option<real>): (v: Option<View>)
    ensures v.None? <==> gpa.None?
    ensures v.Some? && CurrentClass(cutoffs, gpa.value).None? ==>
              v.value.name == "Below Pass" && v.value.color == "gray"
    ensures v.Some? && CurrentClass(cutoffs, gpa.value).Some? ==>
              v.value.name == CurrentClass(cutoffs, gpa.value).value.name
              && v.value.color == CurrentClass(cutoffs, gpa.value).value.color
    ensures v.Some? ==> v.value.next == NextClass(cutoffs, gpa.value)
    ensures v.Some? && v.value.next.Some? ==>
              v.value.gap == v.value.next.value.min - gpa.value && v.value.gap > 0.0
  {
    if gpa.None? then None
    else
      var g := gpa.value;
      var cur := CurrentClass(cutoffs, g);
      var next := NextClass(cutoffs, g);
      GapPositive(cutoffs, g);
      var gap := if next.Some? then next.value.min - g else 0.0;
      match cur
      case Some(c) => Some(View(c.name, c.color, next, gap))
      case None => Some(View("Below Pass", "gray", next, gap))
  }

  /** GPA below every cutoff: "Below Pass", and the next class is the
      last (lowest) cutoff, when there is one. */
  lemma BelowEveryCutoff(cutoffs: seq<Cutoff>, gpa: real)
    requires forall j :: 0 <= j < |cutoffs| ==> gpa < cutoffs[j].min
    ensures CurrentIdx(cutoffs, gpa) == |cutoffs|
    ensures |cutoffs| > 0 ==> NextClass(cutoffs, gpa) == Some(cutoffs[|cutoffs| - 1])
  {
    FindFirst(cutoffs, c => Reaches(gpa, c));
  }
}
