/** The course-classification registry of `src/data/courseClassifications.ts`:
    the code normaliser, the master map filled by `reg` (last write wins)
    and the read-only lookups over it.  The registered data itself is in
    `course_registry.dfy`. */
module CourseClassifications {
  import opened Common
  import opened Text

  datatype CourseType = Core | Optional

  datatype CourseNature = Theory | Practical | Combined | Project

  /** The value stored per normalised code. */
  datatype Classification = Classification(courseType: CourseType, nature: CourseNature)

  /** One `reg(code, type, nature)` call. */
  datatype Registration = Registration(code: string, courseType: CourseType, nature: CourseNature)
  {
    function Value(): Classification {
      Classification(courseType, nature)
    }
  }

  /** The small Greek letters α, β, δ, ε that credit suffixes use. */
  predicate IsGreekCredit(c: char) {
    c == '\U{03b1}' || c == '\U{03b2}' || c == '\U{03b4}' || c == '\U{03b5}'
  }

  /** The code lower-cased with white space removed, before the Greek
      letters are replaced. */
  function Folded(code: string): string {
    RemoveSpaces(Lower(code))
  }

  /** `n(code)`: lower-case, drop white space, then replace the FIRST
      occurrence of each of α, β, δ, ε by a, b, d, e. */
  function Normalize(code: string): (r: string)
    ensures |r| == |Folded(code)| <= |code|
  {
    ReplaceGreek(Folded(code))
  }

  /** The four single replacements, in the order `n` applies them. */
  function ReplaceGreek(f: string): string {
    ReplaceFirst(ReplaceFirst(ReplaceFirst(ReplaceFirst(f, '\U{03b1}', 'a'), '\U{03b2}', 'b'), '\U{03b4}', 'd'), '\U{03b5}', 'e')
  }

  // ---------------------------------------------------------------------
  // The master map and `reg`
  // ---------------------------------------------------------------------

  /** `COURSE_MAP`: normalised code to classification, filled in place. */
  class CourseMap {
    var entries: map<string, Classification>

    constructor()
      ensures entries == map[]
    {
      entries := map[];
    }

    /** `reg(code, type, nature)`: set (or overwrite) the entry of `n(code)`. */
    method Reg(code: string, courseType: CourseType, nature: CourseNature)
      modifies this
      ensures entries == old(entries)[Normalize(code) := Classification(courseType, nature)]
    {
      entries := entries[Normalize(code) := Classification(courseType, nature)];
    }
  }

  /** The map after the calls `regs`, in order. */
  function Registered(regs: seq<Registration>): map<string, Classification> {
    if regs == [] then map[]
    else
      var last := regs[|regs| - 1];
      Registered(regs[..|regs| - 1])[Normalize(last.code) := last.Value()]
  }

  /** Running the `reg` calls `regs` one after another on an empty map. */
  method BuildCourseMap(regs: seq<Registration>) returns (courseMap: CourseMap)
    ensures fresh(courseMap)
    ensures courseMap.entries == Registered(regs)
  {
    courseMap := new CourseMap();
    var i := 0;
    while i < |regs|
      invariant 0 <= i <= |regs|
      invariant courseMap.entries == Registered(regs[..i])
    {
      assert regs[..i + 1][..i] == regs[..i];
      courseMap.Reg(regs[i].code, regs[i].courseType, regs[i].nature);
      i := i + 1;
    }
    assert regs[..|regs|] == regs;
  }

  // ---------------------------------------------------------------------
  // Public lookups (over the contents of the map)
  // ---------------------------------------------------------------------

  /** `getCourseClassification(code)`. */
  function GetCourseClassification(courseMap: map<string, Classification>, code: string): (r: Option<Classification>)
    ensures r.Some? <==> Normalize(code) in courseMap
    ensures r.Some? ==> r.value == courseMap[Normalize(code)]
  {
    var k := Normalize(code);
    if k in courseMap then Some(courseMap[k]) else None
  }

  predicate IsCoreCourse(courseMap: map<string, Classification>, code: string) {
    var c := GetCourseClassification(courseMap, code);
    c.Some? && c.value.courseType == Core
  }

  predicate IsOptionalCourse(courseMap: map<string, Classification>, code: string) {
    var c := GetCourseClassification(courseMap, code);
    c.Some? && c.value.courseType == Optional
  }

  predicate IsTheoryCourse(courseMap: map<string, Classification>, code: string) {
    var c := GetCourseClassification(courseMap, code);
    c.Some? && c.value.nature == Theory
  }

  predicate IsPracticalCourse(courseMap: map<string, Classification>, code: string) {
    var c := GetCourseClassification(courseMap, code);
    c.Some? && c.value.nature == Practical
  }

  predicate IsCombinedCourse(courseMap: map<string, Classification>, code: string) {
    var c := GetCourseClassification(courseMap, code);
    c.Some? && c.value.nature == Combined
  }

  predicate IsProjectCourse(courseMap: map<string, Classification>, code: string) {
    var c := GetCourseClassification(courseMap, code);
    c.Some? && c.value.nature == Project
  }

  predicate IsKnownCourse(courseMap: map<string, Classification>, code: string) {
    Normalize(code) in courseMap
  }

  /** Theory component: pure theory or combined. */
  predicate HasTheoryComponent(courseMap: map<string, Classification>, code: string) {
    var c := GetCourseClassification(courseMap, code);
    c.Some? && (c.value.nature == Theory || c.value.nature == Combined)
  }

  /** Practical component: practical, combined or project. */
  predicate HasPracticalComponent(courseMap: map<string, Classification>, code: string) {
    var c := GetCourseClassification(courseMap, code);
    c.Some? && (c.value.nature == Practical || c.value.nature == Combined || c.value.nature == Project)
  }

  /** `TOTAL_CLASSIFIED_COURSES`: the size of the map. */
  function TotalClassifiedCourses(courseMap: map<string, Classification>): nat {
    |courseMap|
  }

  // ---------------------------------------------------------------------
  // Properties of the normaliser
  // ---------------------------------------------------------------------

  /** Case and white space do not matter: a code, its lower-case form, its
      upper-case form and the code with white space removed share one key. */
  lemma NormalizeIgnoresCaseAndSpace(code: string)
    ensures Normalize(Lower(code)) == Normalize(code)
    ensures Normalize(Upper(code)) == Normalize(code)
    ensures Normalize(RemoveSpaces(code)) == Normalize(code)
  {
    LowerIdempotent(code);
    LowerOfUpper(code);
    LowerRemoveSpacesCommute(code);
    RemoveSpacesIdempotent(Lower(code));
  }

  /** After the replacements, a Greek credit letter is left exactly when
      it occurred more than once in the folded code. */
  lemma ReplaceGreekCounts(f: string, g: char)
    requires IsGreekCredit(g)
    ensures Count(ReplaceGreek(f), g) == if Count(f, g) == 0 then 0 else Count(f, g) - 1
  {
    var f1 := ReplaceFirst(f, '\U{03b1}', 'a');
    var f2 := ReplaceFirst(f1, '\U{03b2}', 'b');
    var f3 := ReplaceFirst(f2, '\U{03b4}', 'd');
    ReplaceFirstCount(f, '\U{03b1}', 'a', g);
    ReplaceFirstCount(f1, '\U{03b2}', 'b', g);
    ReplaceFirstCount(f2, '\U{03b4}', 'd', g);
    ReplaceFirstCount(f3, '\U{03b5}', 'e', g);
  }

  /** A string without Greek credit letters is left alone by the replacements. */
  lemma ReplaceGreekOfPlain(f: string)
    requires forall g :: IsGreekCredit(g) ==> g !in f
    ensures ReplaceGreek(f) == f
  {
    ReplaceFirstAbsent(f, '\U{03b1}', 'a');
    ReplaceFirstAbsent(f, '\U{03b2}', 'b');
    ReplaceFirstAbsent(f, '\U{03b4}', 'd');
    ReplaceFirstAbsent(f, '\U{03b5}', 'e');
  }

  /** Holds no white space and no upper-case letter. */
  predicate IsFoldedText(s: string) {
    forall i :: 0 <= i < |s| ==> !IsSpace(s[i]) && !IsUpperCase(s[i])
  }

  /** Replacing by a small ASCII letter keeps a folded string folded. */
  lemma ReplaceKeepsFolded(s: string, a: char, b: char)
    requires IsFoldedText(s) && 'a' <= b <= 'z'
    ensures IsFoldedText(ReplaceFirst(s, a, b))
  {
    ReplaceFirstChars(s, a, b);
  }

  /** A normalised key holds no white space and no upper-case letter. */
  lemma NormalizedIsFolded(code: string)
    ensures IsFoldedText(Normalize(code))
  {
    var l := Lower(code);
    var f := Folded(code);
    RemoveSpacesChars(l);
    assert forall i :: 0 <= i < |f| ==> f[i] in l;
    var f1 := ReplaceFirst(f, '\U{03b1}', 'a');
    var f2 := ReplaceFirst(f1, '\U{03b2}', 'b');
    var f3 := ReplaceFirst(f2, '\U{03b4}', 'd');
    ReplaceKeepsFolded(f, '\U{03b1}', 'a');
    ReplaceKeepsFolded(f1, '\U{03b2}', 'b');
    ReplaceKeepsFolded(f2, '\U{03b4}', 'd');
    ReplaceKeepsFolded(f3, '\U{03b5}', 'e');
  }

  /** A normalised key is already folded: folding it again changes nothing. */
  lemma FoldedOfNormalized(code: string)
    ensures Folded(Normalize(code)) == Normalize(code)
  {
    NormalizedIsFolded(code);
    var r := Normalize(code);
    LowerOfLowered(r);
    RemoveSpacesOfSpaceless(r);
  }

  /** `replace` with a string pattern is not global, so `n` is idempotent
      on a code exactly when each of α, β, δ, ε occurs at most once in it
      (counting capital and small forms, ignoring white space). */
  lemma NormalizeIdempotentIff(code: string)
    ensures Normalize(Normalize(code)) == Normalize(code)
        <==> forall g :: IsGreekCredit(g) ==> Count(Folded(code), g) <= 1
  {
    var f := Folded(code);
    var r := Normalize(code);
    FoldedOfNormalized(code);
    assert Normalize(r) == ReplaceGreek(r);
    if forall g :: IsGreekCredit(g) ==> Count(f, g) <= 1 {
      forall g | IsGreekCredit(g)
        ensures g !in r
      {
        ReplaceGreekCounts(f, g);
        CountPositiveIffIn(r, g);
      }
      ReplaceGreekOfPlain(r);
    } else {
      var g :| IsGreekCredit(g) && Count(f, g) > 1;
      ReplaceGreekCounts(f, g);
      ReplaceGreekCounts(r, g);
      assert Count(ReplaceGreek(r), g) < Count(r, g);
    }
  }

  /** For a code that starts with an ASCII letter-and-digit prefix `p`, the
      key starts with `p` lower-cased. */
  lemma NormalizeKeepsPrefix(code: string, p: string)
    requires StartsWith(code, p)
    requires forall i :: 0 <= i < |p| ==> IsAsciiLetter(p[i]) || IsDigit(p[i])
    ensures StartsWith(Normalize(code), Lower(p))
  {
    var lp := Lower(p);
    LowerKeepsPrefix(code, p);
    RemoveSpacesKeepsPrefix(Lower(code), lp);
    var f := Folded(code);
    assert forall g :: IsGreekCredit(g) ==> g !in lp;
    ReplaceFirstKeepsPrefix(f, lp, '\U{03b1}', 'a');
    var f1 := ReplaceFirst(f, '\U{03b1}', 'a');
    ReplaceFirstKeepsPrefix(f1, lp, '\U{03b2}', 'b');
    var f2 := ReplaceFirst(f1, '\U{03b2}', 'b');
    ReplaceFirstKeepsPrefix(f2, lp, '\U{03b4}', 'd');
    var f3 := ReplaceFirst(f2, '\U{03b4}', 'd');
    ReplaceFirstKeepsPrefix(f3, lp, '\U{03b5}', 'e');
  }

  /** A code with an ASCII prefix `p` cannot have a key that differs from
      `p` lower-cased at some position `at` of the prefix. */
  lemma NotKeyByPrefix(code: string, p: string, key: string, at: nat)
    requires StartsWith(code, p)
    requires forall i :: 0 <= i < |p| ==> IsAsciiLetter(p[i]) || IsDigit(p[i])
    requires at < |p| && at < |key| && key[at] != LowerChar(p[at])
    ensures Normalize(code) != key
  {
    NormalizeKeepsPrefix(code, p);
    assert Normalize(code)[..|p|][at] == Lower(p)[at];
  }

  /** `n("MAT313β")`, worked out one replacement at a time. */
  lemma Mat313bGreekKey()
    ensures Normalize("MAT313\U{03b2}") == "mat313b"
  {
    Mat313bFolded();
    Mat313bReplaced();
  }

  lemma Mat313bFolded()
    ensures Folded("MAT313\U{03b2}") == "mat313\U{03b2}"
  {
    assert Lower("MAT313\U{03b2}") == "mat313\U{03b2}";
    Mat313bSpaceless();
  }

  lemma Mat313bSpaceless()
    ensures RemoveSpaces("mat313\U{03b2}") == "mat313\U{03b2}"
  {
    RemoveSpacesOfSpaceless("mat313\U{03b2}");
  }

  lemma Mat313bReplaced()
    ensures ReplaceGreek("mat313\U{03b2}") == "mat313b"
  {
    ReplaceFirstAbsent("mat313\U{03b2}", '\U{03b1}', 'a');
    Mat313bBeta();
    ReplaceFirstAbsent("mat313b", '\U{03b4}', 'd');
    ReplaceFirstAbsent("mat313b", '\U{03b5}', 'e');
  }

  lemma Mat313bBeta()
    ensures ReplaceFirst("mat313\U{03b2}", '\U{03b2}', 'b') == "mat313b"
  {
  }

  /** `n("MAT313B")`: the Latin spelling needs no replacement. */
  lemma Mat313bLatinKey()
    ensures Normalize("MAT313B") == "mat313b"
  {
    Mat313bLatinFolded();
    Mat313bLatinReplaced();
  }

  lemma Mat313bLatinFolded()
    ensures Folded("MAT313B") == "mat313b"
  {
    assert Lower("MAT313B") == "mat313b";
    RemoveSpacesOfSpaceless("mat313b");
  }

  lemma Mat313bLatinReplaced()
    ensures ReplaceGreek("mat313b") == "mat313b"
  {
    ReplaceFirstAbsent("mat313b", '\U{03b1}', 'a');
    ReplaceFirstAbsent("mat313b", '\U{03b2}', 'b');
    ReplaceFirstAbsent("mat313b", '\U{03b4}', 'd');
    ReplaceFirstAbsent("mat313b", '\U{03b5}', 'e');
  }

  /** `n("mat313β")`: already lower case. */
  lemma Mat313bLowerKey()
    ensures Normalize("mat313\U{03b2}") == "mat313b"
  {
    Mat313bLowerFolded();
    Mat313bReplaced();
  }

  lemma Mat313bLowerFolded()
    ensures Folded("mat313\U{03b2}") == "mat313\U{03b2}"
  {
    assert forall c | c in "mat313\U{03b2}" :: !IsUpperCase(c);
    LowerOfLowered("mat313\U{03b2}");
    Mat313bSpaceless();
  }

  /** The spellings `MAT313β`, `mat313β` and `MAT313B` share one key. */
  lemma Mat313bSpellings()
    ensures Normalize("MAT313\U{03b2}") == "mat313b"
    ensures Normalize("mat313\U{03b2}") == "mat313b"
    ensures Normalize("MAT313B") == "mat313b"
  {
    Mat313bGreekKey();
    Mat313bLowerKey();
    Mat313bLatinKey();
  }

  // ---------------------------------------------------------------------
  // Properties of registration
  // ---------------------------------------------------------------------

  /** Last write wins: a key is mapped to the classification of the LAST
      call that registered it. */
  lemma {:induction false} LastRegistrationWins(regs: seq<Registration>, i: nat)
    requires i < |regs|
    requires forall j :: i < j < |regs| ==> Normalize(regs[j].code) != Normalize(regs[i].code)
    ensures Normalize(regs[i].code) in Registered(regs)
    ensures Registered(regs)[Normalize(regs[i].code)] == regs[i].Value()
  {
    if i < |regs| - 1 {
      var prefix := regs[..|regs| - 1];
      assert forall j :: i < j < |prefix| ==> prefix[j] == regs[j];
      LastRegistrationWins(prefix, i);
    }
  }

  /** Calls that never register `key` leave its entry as it was. */
  lemma {:induction false} RegisteredAppendAbsent(before: seq<Registration>, after: seq<Registration>, key: string)
    requires forall r :: r in after ==> Normalize(r.code) != key
    ensures key in Registered(before + after) <==> key in Registered(before)
    ensures key in Registered(before) ==> Registered(before + after)[key] == Registered(before)[key]
    decreases |after|
  {
    if after == [] {
      assert before + after == before;
    } else {
      var shorter := after[..|after| - 1];
      assert (before + after)[..|before + after| - 1] == before + shorter;
      RegisteredAppendAbsent(before, shorter, key);
    }
  }

  /** Calls that DO register `key` hide whatever came before them. */
  lemma {:induction false} RegisteredSuffixWins(before: seq<Registration>, after: seq<Registration>, key: string)
    requires key in Registered(after)
    ensures key in Registered(before + after)
    ensures Registered(before + after)[key] == Registered(after)[key]
    decreases |after|
  {
    var shorter := after[..|after| - 1];
    assert (before + after)[..|before + after| - 1] == before + shorter;
    if Normalize(after[|after| - 1].code) != key {
      RegisteredSuffixWins(before, shorter, key);
    }
  }

  /** The keys are exactly the normalised codes that were registered. */
  lemma {:induction false} RegisteredKeys(regs: seq<Registration>)
    ensures Registered(regs).Keys == set r | r in regs :: Normalize(r.code)
  {
    if regs != [] {
      var prefix := regs[..|regs| - 1];
      RegisteredKeys(prefix);
      assert regs == prefix + [regs[|regs| - 1]];
    }
  }

  /** There are never more keys than calls. */
  lemma {:induction false} RegisteredSizeBound(regs: seq<Registration>)
    ensures |Registered(regs)| <= |regs|
  {
    if regs != [] {
      RegisteredSizeBound(regs[..|regs| - 1]);
      var m := Registered(regs[..|regs| - 1]);
      assert Registered(regs).Keys == m.Keys + {Normalize(regs[|regs| - 1].code)};
    }
  }

  /** Two calls registering the same key make the map strictly smaller
      than the number of calls. */
  lemma {:induction false} RegisteredSizeBelowCalls(regs: seq<Registration>, i: nat, j: nat)
    requires i < j < |regs|
    requires Normalize(regs[i].code) == Normalize(regs[j].code)
    ensures |Registered(regs)| < |regs|
  {
    var prefix := regs[..|regs| - 1];
    var m := Registered(prefix);
    var k := Normalize(regs[|regs| - 1].code);
    assert Registered(regs).Keys == m.Keys + {k};
    if j == |regs| - 1 {
      assert regs[i] in prefix;
      RegisteredKeys(prefix);
      assert Registered(regs).Keys == m.Keys;
      RegisteredSizeBound(prefix);
    } else {
      assert prefix[i] == regs[i] && prefix[j] == regs[j];
      RegisteredSizeBelowCalls(prefix, i, j);
    }
  }

  /** The position of the first occurrence of `x` in `regs`. */
  function IndexOf(regs: seq<Registration>, x: Registration): (i: nat)
    requires x in regs
    ensures i < |regs| && regs[i] == x
  {
    if regs[0] == x then 0 else 1 + IndexOf(regs[1..], x)
  }

  /** The same bound, stated with two differing calls that share a key. */
  lemma RegisteredSizeBelowCallsOnClash(regs: seq<Registration>, x: Registration, y: Registration)
    requires x in regs && y in regs && x != y
    requires Normalize(x.code) == Normalize(y.code)
    ensures |Registered(regs)| < |regs|
  {
    var i := IndexOf(regs, x);
    var j := IndexOf(regs, y);
    assert i != j;
    if i < j {
      RegisteredSizeBelowCalls(regs, i, j);
    } else {
      RegisteredSizeBelowCalls(regs, j, i);
    }
  }

  // ---------------------------------------------------------------------
  // Properties of the lookups
  // ---------------------------------------------------------------------

  /** An unregistered code: no classification and every predicate false. */
  lemma UnknownCourse(courseMap: map<string, Classification>, code: string)
    requires !IsKnownCourse(courseMap, code)
    ensures GetCourseClassification(courseMap, code) == None
    ensures !IsCoreCourse(courseMap, code) && !IsOptionalCourse(courseMap, code)
    ensures !IsTheoryCourse(courseMap, code) && !IsPracticalCourse(courseMap, code)
    ensures !IsCombinedCourse(courseMap, code) && !IsProjectCourse(courseMap, code)
    ensures !HasTheoryComponent(courseMap, code) && !HasPracticalComponent(courseMap, code)
  {
  }

  /** `isKnownCourse` holds exactly when the lookup is defined. */
  lemma KnownIffDefined(courseMap: map<string, Classification>, code: string)
    ensures IsKnownCourse(courseMap, code) <==> GetCourseClassification(courseMap, code).Some?
  {
  }

  /** A known code is exactly one of core and optional. */
  lemma TypeExclusive(courseMap: map<string, Classification>, code: string)
    ensures IsKnownCourse(courseMap, code) <==> (IsCoreCourse(courseMap, code) || IsOptionalCourse(courseMap, code))
    ensures !(IsCoreCourse(courseMap, code) && IsOptionalCourse(courseMap, code))
  {
  }

  /** A known code has exactly one of the four natures. */
  lemma NatureExclusive(courseMap: map<string, Classification>, code: string)
    ensures IsKnownCourse(courseMap, code) <==>
      (IsTheoryCourse(courseMap, code) || IsPracticalCourse(courseMap, code)
       || IsCombinedCourse(courseMap, code) || IsProjectCourse(courseMap, code))
    ensures IsTheoryCourse(courseMap, code) ==>
      !IsPracticalCourse(courseMap, code) && !IsCombinedCourse(courseMap, code) && !IsProjectCourse(courseMap, code)
    ensures IsPracticalCourse(courseMap, code) ==> !IsCombinedCourse(courseMap, code) && !IsProjectCourse(courseMap, code)
    ensures IsCombinedCourse(courseMap, code) ==> !IsProjectCourse(courseMap, code)
  {
  }

  /** Every known code has a theory or a practical component; only a
      combined course has both; a project counts as practical only. */
  lemma Components(courseMap: map<string, Classification>, code: string)
    ensures IsKnownCourse(courseMap, code) <==>
      (HasTheoryComponent(courseMap, code) || HasPracticalComponent(courseMap, code))
    ensures (HasTheoryComponent(courseMap, code) && HasPracticalComponent(courseMap, code))
        <==> IsCombinedCourse(courseMap, code)
    ensures HasTheoryComponent(courseMap, code) <==> IsTheoryCourse(courseMap, code) || IsCombinedCourse(courseMap, code)
    ensures HasPracticalComponent(courseMap, code) <==>
      IsPracticalCourse(courseMap, code) || IsCombinedCourse(courseMap, code) || IsProjectCourse(courseMap, code)
    ensures IsProjectCourse(courseMap, code) ==> !HasTheoryComponent(courseMap, code)
  {
  }

  /** Every lookup sees case and white-space variants of a code alike. */
  lemma LookupIgnoresCaseAndSpace(courseMap: map<string, Classification>, code: string)
    ensures GetCourseClassification(courseMap, Upper(code)) == GetCourseClassification(courseMap, code)
    ensures GetCourseClassification(courseMap, Lower(code)) == GetCourseClassification(courseMap, code)
    ensures GetCourseClassification(courseMap, RemoveSpaces(code)) == GetCourseClassification(courseMap, code)
  {
    NormalizeIgnoresCaseAndSpace(code);
  }
}
