/** The course-registration page: the study year and the credit value
    read off a course code, the registered courses grouped by year, the
    case-insensitive non-degree marking, and the degree credit bar. */
module CourseRegistration {
  import opened Common
  import opened Text
  import opened Lists
  import CreditProgress

  datatype RegisteredCourse = RegisteredCourse(code: string, name: string, confirmation: string)

  // ---------------------------------------------------------------------
  // Year of a code
  // ---------------------------------------------------------------------

  /** `extractYear`: the digit after the leading letters, or 0 when that
      character is missing or not a digit (`parseInt` gives NaN, and
      `NaN || 0` is 0). */
  function ExtractYear(code: string): (y: nat)
    ensures y <= 9
  {
    var digits := StripLeadingLetters(code);
    if |digits| > 0 && IsDigit(digits[0]) then digits[0] as int - '0' as int else 0
  }

  /** A code made of letters, a digit and anything after it is in the
      year that digit names. */
  lemma ExtractYearOfCode(letters: string, d: char, rest: string)
    requires forall i :: 0 <= i < |letters| ==> IsAsciiLetter(letters[i])
    requires IsDigit(d)
    ensures ExtractYear(letters + [d] + rest) == d as int - '0' as int
  {
    assert letters + [d] + rest == letters + ([d] + rest);
    StripLetterRun(letters, [d] + rest);
  }

  /** A code whose letters are followed by a non-digit, or by nothing, is
      put in year 0. */
  lemma ExtractYearWithoutDigit(letters: string, rest: string)
    requires forall i :: 0 <= i < |letters| ==> IsAsciiLetter(letters[i])
    requires rest == [] || (!IsAsciiLetter(rest[0]) && !IsDigit(rest[0]))
    ensures ExtractYear(letters + rest) == 0
  {
    StripLetterRun(letters, rest);
  }

  lemma ExtractYearExamples()
    ensures ExtractYear("CSC1113") == 1
    ensures ExtractYear("MAT313\U{03b2}") == 3
  {
    ExtractYearOfCode("CSC", '1', "113");
    assert "CSC1113" == "CSC" + ['1'] + "113";
    ExtractYearOfCode("MAT", '3', "13\U{03b2}");
    assert "MAT313\U{03b2}" == "MAT" + ['3'] + "13\U{03b2}";
  }

  // ---------------------------------------------------------------------
  // Grouping by year
  // ---------------------------------------------------------------------

  datatype YearGroup = YearGroup(year: nat, courses: seq<RegisteredCourse>)

  predicate InYear(y: nat, c: RegisteredCourse) { ExtractYear(c.code) == y }

  /** The courses of year `y`, in input order. */
  function CoursesOfYear(courses: seq<RegisteredCourse>, y: nat): seq<RegisteredCourse> {
    Filter(courses, c => InYear(y, c))
  }

  /** The non-empty groups of years `y..9`, in ascending year order. */
  function GroupsFrom(courses: seq<RegisteredCourse>, y: nat): seq<YearGroup>
    decreases 10 - y
  {
    if y > 9 then []
    else
      var g := CoursesOfYear(courses, y);
      (if g == [] then [] else [YearGroup(y, g)]) + GroupsFrom(courses, y + 1)
  }

  /** What `groupByYear` returns. */
  function YearGroups(courses: seq<RegisteredCourse>): seq<YearGroup> {
    GroupsFrom(courses, 0)
  }

  /** `Object.entries(map)` sorted by year: the record's keys are years
      0..9, so this lists them in ascending order. */
  function SortedEntries(m: map<nat, seq<RegisteredCourse>>, y: nat): seq<YearGroup>
    decreases 10 - y
  {
    if y > 9 then [] else (if y in m then [YearGroup(y, m[y])] else []) + SortedEntries(m, y + 1)
  }

  /** `groupByYear`: push every course onto its year's list, then list
      the years in ascending order. */
  method GroupByYear(courses: seq<RegisteredCourse>) returns (groups: seq<YearGroup>)
    ensures groups == YearGroups(courses)
  {
    var m: map<nat, seq<RegisteredCourse>> := map[];
    var i := 0;
    while i < |courses|
      invariant 0 <= i <= |courses|
      invariant forall y: nat :: y in m <==> CoursesOfYear(courses[..i], y) != []
      invariant forall y: nat | y in m :: m[y] == CoursesOfYear(courses[..i], y)
    {
      var c := courses[i];
      var yr := ExtractYear(c.code);
      assert courses[..i + 1] == courses[..i] + [c];
      forall y: nat
        ensures CoursesOfYear(courses[..i + 1], y)
             == CoursesOfYear(courses[..i], y) + (if InYear(y, c) then [c] else [])
      {
        FilterSnoc(courses[..i], c, c' => InYear(y, c'));
      }
      if yr !in m {
        m := m[yr := []];
      }
      m := m[yr := m[yr] + [c]];
      i := i + 1;
    }
    assert courses[..i] == courses;
    EntriesAreGroups(m, courses, 0);
    groups := SortedEntries(m, 0);
  }

  lemma {:induction false} EntriesAreGroups(m: map<nat, seq<RegisteredCourse>>, courses: seq<RegisteredCourse>, y: nat)
    requires forall y: nat :: y in m <==> CoursesOfYear(courses, y) != []
    requires forall y: nat | y in m :: m[y] == CoursesOfYear(courses, y)
    ensures SortedEntries(m, y) == GroupsFrom(courses, y)
    decreases 10 - y
  {
    if y <= 9 {
      EntriesAreGroups(m, courses, y + 1);
    }
  }

  /** A group is non-empty and holds exactly the courses of its year, in
      input order. */
  predicate GroupOf(courses: seq<RegisteredCourse>, g: YearGroup) {
    g.courses != [] && g.courses == CoursesOfYear(courses, g.year)
  }

  predicate Ascending(gs: seq<YearGroup>) {
    forall k, l | 0 <= k < l < |gs| :: gs[k].year < gs[l].year
  }

  /** Every group lies in years `y..9` and is the group of its year. */
  lemma {:induction false} GroupsFromGroups(courses: seq<RegisteredCourse>, y: nat)
    ensures forall g | g in GroupsFrom(courses, y) :: y <= g.year <= 9 && GroupOf(courses, g)
    decreases 10 - y
  {
    if y <= 9 {
      var c := CoursesOfYear(courses, y);
      var head := if c == [] then [] else [YearGroup(y, c)];
      GroupsFromGroups(courses, y + 1);
      assert GroupsFrom(courses, y) == head + GroupsFrom(courses, y + 1);
    }
  }

  /** Every group lies in years `y..9`. */
  lemma {:induction false} GroupsFromYears(courses: seq<RegisteredCourse>, y: nat)
    ensures forall g | g in GroupsFrom(courses, y) :: y <= g.year
    decreases 10 - y
  {
    if y <= 9 {
      var c := CoursesOfYear(courses, y);
      var head := if c == [] then [] else [YearGroup(y, c)];
      GroupsFromYears(courses, y + 1);
      assert GroupsFrom(courses, y) == head + GroupsFrom(courses, y + 1);
    }
  }

  lemma PrependAscending(g: YearGroup, rest: seq<YearGroup>)
    requires Ascending(rest)
    requires forall x | x in rest :: g.year < x.year
    ensures Ascending([g] + rest)
  {
    var gs := [g] + rest;
    forall k, l | 0 <= k < l < |gs|
      ensures gs[k].year < gs[l].year
    {
      assert gs[l] == rest[l - 1];
      if k > 0 {
        assert gs[k] == rest[k - 1];
      }
    }
  }

  /** The years of the groups strictly ascend. */
  lemma {:induction false} GroupsFromAscending(courses: seq<RegisteredCourse>, y: nat)
    ensures Ascending(GroupsFrom(courses, y))
    decreases 10 - y
  {
    if y <= 9 {
      var c := CoursesOfYear(courses, y);
      var rest := GroupsFrom(courses, y + 1);
      GroupsFromAscending(courses, y + 1);
      GroupsFromYears(courses, y + 1);
      if c == [] {
        assert GroupsFrom(courses, y) == rest;
      } else {
        assert GroupsFrom(courses, y) == [YearGroup(y, c)] + rest;
        PrependAscending(YearGroup(y, c), rest);
      }
    }
  }

  /** Every non-empty year in `y..9` has its group. */
  lemma {:induction false} GroupsFromComplete(courses: seq<RegisteredCourse>, y: nat, yr: nat)
    requires y <= yr <= 9 && CoursesOfYear(courses, yr) != []
    ensures YearGroup(yr, CoursesOfYear(courses, yr)) in GroupsFrom(courses, y)
    decreases 10 - y
  {
    if y < yr {
      GroupsFromComplete(courses, y + 1, yr);
    }
  }

  /** The groups are non-empty, in strictly ascending year order, and
      keep input order within each year. */
  lemma YearGroupsWellFormed(courses: seq<RegisteredCourse>)
    ensures forall g | g in YearGroups(courses) :: GroupOf(courses, g)
    ensures Ascending(YearGroups(courses))
  {
    GroupsFromGroups(courses, 0);
    GroupsFromAscending(courses, 0);
  }

  /** Every course is in exactly one group: the group of its own year. */
  lemma CourseInExactlyOneGroup(courses: seq<RegisteredCourse>, c: RegisteredCourse)
    requires c in courses
    ensures var gs := YearGroups(courses);
            exists k :: 0 <= k < |gs| && c in gs[k].courses
    ensures var gs := YearGroups(courses);
            forall k | 0 <= k < |gs| && c in gs[k].courses :: gs[k].year == ExtractYear(c.code)
  {
    var gs := YearGroups(courses);
    var yr := ExtractYear(c.code);
    FilterMember(courses, c' => InYear(yr, c'), c);
    GroupsFromComplete(courses, 0, yr);
    var k :| 0 <= k < |gs| && gs[k] == YearGroup(yr, CoursesOfYear(courses, yr));
    assert c in gs[k].courses;
    GroupsFromGroups(courses, 0);
    forall k | 0 <= k < |gs| && c in gs[k].courses
      ensures gs[k].year == yr
    {
      assert gs[k] in gs;
      FilterMember(courses, c' => InYear(gs[k].year, c'), c);
    }
  }

  // ---------------------------------------------------------------------
  // Expanded years
  // ---------------------------------------------------------------------

  /** Once data loads every year that has a course is expanded. */
  function InitialOpenYears(courses: seq<RegisteredCourse>): set<nat> {
    set c | c in courses :: ExtractYear(c.code)
  }

  /** `toggleYear`: collapse an expanded year, expand a collapsed one. */
  function ToggleYear(open: set<nat>, yr: nat): (r: set<nat>)
    ensures yr in r <==> yr !in open
    ensures forall y | y != yr :: y in r <==> y in open
  {
    if yr in open then open - {yr} else open + {yr}
  }

  lemma ToggleTwice(open: set<nat>, yr: nat)
    ensures ToggleYear(ToggleYear(open, yr), yr) == open
  {
  }

  /** Initially exactly the years of the displayed groups are expanded. */
  lemma InitialOpenYearsAreGroupYears(courses: seq<RegisteredCourse>)
    ensures InitialOpenYears(courses) == set g | g in YearGroups(courses) :: g.year
  {
    GroupsFromGroups(courses, 0);
    var gys := set g | g in YearGroups(courses) :: g.year;
    forall y | y in InitialOpenYears(courses)
      ensures y in gys
    {
      var c :| c in courses && ExtractYear(c.code) == y;
      var gs := YearGroups(courses);
      CourseInExactlyOneGroup(courses, c);
      var k :| 0 <= k < |gs| && c in gs[k].courses;
      assert gs[k] in gs;
    }
    forall y | y in gys
      ensures y in InitialOpenYears(courses)
    {
      var g :| g in YearGroups(courses) && g.year == y;
      var c := g.courses[0];
      FilterMember(courses, c' => InYear(y, c'), c);
    }
  }

  // ---------------------------------------------------------------------
  // Credit value of a code
  // ---------------------------------------------------------------------

  /** `CREDIT_MAP`: digits 0-6, and the Greek and Latin fraction suffixes. */
  function CreditMap(): map<char, real> {
    map['0' := 0.0, '1' := 1.0, '2' := 2.0, '3' := 3.0, '4' := 4.0, '5' := 5.0, '6' := 6.0,
        '\U{03b1}' := 1.5, '\U{03b2}' := 2.5, '\U{03b4}' := 1.25,
        'a' := 1.5, 'b' := 2.5, 'd' := 1.25]
  }

  /** `getCreditFromCode`: the credit named by the last character, 0 for
      any other character or an empty code. */
  function CreditFromCode(code: string): real {
    if code != [] && code[|code| - 1] in CreditMap() then CreditMap()[code[|code| - 1]] else 0.0
  }

  /** Credits lie in [0, 6], and only the last character matters. */
  lemma CreditFromCodeRange(code: string, prefix: string)
    ensures 0.0 <= CreditFromCode(code) <= 6.0
    ensures code != [] ==> CreditFromCode(prefix + [code[|code| - 1]]) == CreditFromCode(code)
  {
    var m := CreditMap();
    assert forall k | k in m :: 0.0 <= m[k] <= 6.0;
  }

  /** The Greek suffixes and their Latin spellings give the same credit. */
  lemma GreekAndLatinAgree(prefix: string)
    ensures CreditFromCode(prefix + ['\U{03b1}']) == CreditFromCode(prefix + ['a']) == 1.5
    ensures CreditFromCode(prefix + ['\U{03b2}']) == CreditFromCode(prefix + ['b']) == 2.5
    ensures CreditFromCode(prefix + ['\U{03b4}']) == CreditFromCode(prefix + ['d']) == 1.25
  {
  }

  /** A final digit 0-6 is the credit itself; 7-9 and other letters give 0. */
  lemma DigitSuffixCredit(prefix: string, d: char)
    requires IsDigit(d)
    ensures CreditFromCode(prefix + [d]) == if d <= '6' then (d as int - '0' as int) as real else 0.0
  {
  }

  // ---------------------------------------------------------------------
  // Non-degree marking and the credit bar
  // ---------------------------------------------------------------------

  /** `nonDegreeSet.has(code.toUpperCase())`, the set holding the
      upper-cased non-degree codes. */
  predicate IsNonDegree(nonDegreeSubjects: seq<string>, code: string) {
    Upper(code) in (set s | s in nonDegreeSubjects :: Upper(s))
  }

  /** Marking ignores case on both sides: any spelling of a listed code,
      and only those, is marked. */
  lemma NonDegreeIgnoresCase(nonDegreeSubjects: seq<string>, code: string)
    ensures IsNonDegree(nonDegreeSubjects, code) <==> exists s | s in nonDegreeSubjects :: Upper(s) == Upper(code)
    ensures IsNonDegree(nonDegreeSubjects, code) == IsNonDegree(nonDegreeSubjects, Lower(code))
    ensures IsNonDegree(nonDegreeSubjects, code) == IsNonDegree(nonDegreeSubjects, Upper(code))
  {
    UpperOfLower(code);
    UpperIdempotent(code);
  }

  /** The degree credit bar of the page, for a positive target. */
  function RegistrationProgress(confirmedCredits: real, target: real): (p: CreditProgress.Progress)
    requires target > 0.0
    ensures p.pct <= 100.0 && p.remaining >= 0.0
    ensures p.remaining == 0.0 <==> confirmedCredits >= target
  {
    var pct := CreditProgress.Pct(confirmedCredits, target);
    CreditProgress.Progress(pct, CreditProgress.Remaining(confirmedCredits, target), CreditProgress.BarColorOf(pct))
  }

  /** The "completed all required credits" message shows exactly when
      nothing remains, which is exactly when the bar is full. */
  predicate ShowsCompleted(confirmedCredits: real, target: real)
    requires target > 0.0
  {
    !(RegistrationProgress(confirmedCredits, target).remaining > 0.0)
  }

  lemma CompletedIffFull(confirmedCredits: real, target: real)
    requires target > 0.0
    ensures ShowsCompleted(confirmedCredits, target) <==> RegistrationProgress(confirmedCredits, target).pct == 100.0
    ensures ShowsCompleted(confirmedCredits, target) <==> confirmedCredits >= target
  {
  }
}
