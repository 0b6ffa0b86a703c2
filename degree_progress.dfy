/** The degree-progress engine of the academic guide: from a student's
    transcript rows, overall GPA and confirmed credits it builds, for one of
    six degree programmes, the ordered list of graduation requirements,
    each either computable (with current value, target and a met flag) or
    marked unavailable; three honours tiers always close the list. Also
    the BCS/BSc stream heuristic, the programme reset when the stream
    changes, and the met/unavailable summary. */
module DegreeProgress {
  import opened Common
  import opened Text
  import opened Lists

  // ---------------------------------------------------------------------
  // Data
  // ---------------------------------------------------------------------

  /** One transcript row: `credit` and `gradeScale` (the grade point) are
      numbers; a row with `credit <= 0` is a non-credit course. */
  datatype SubjectRow = SubjectRow(subjectCode: string, subjectName: string, grade: string,
                                   credit: real, gradeScale: real)

  datatype DegreeType =
    | BscGeneral | BscSpecialSelection | BscSpecialCompletion
    | BcsGeneral | BcsSpecialSelection | BcsSpecialCompletion

  datatype Family = Bsc | Bcs

  /** The programme's identifier string. */
  function Id(d: DegreeType): string {
    match d
    case BscGeneral => "bsc-general"
    case BscSpecialSelection => "bsc-special-selection"
    case BscSpecialCompletion => "bsc-special-completion"
    case BcsGeneral => "bcs-general"
    case BcsSpecialSelection => "bcs-special-selection"
    case BcsSpecialCompletion => "bcs-special-completion"
  }

  function FamilyOf(d: DegreeType): Family {
    if d.BscGeneral? || d.BscSpecialSelection? || d.BscSpecialCompletion? then Bsc else Bcs
  }

  function FamilyName(f: Family): string {
    match f
    case Bsc => "bsc"
    case Bcs => "bcs"
  }

  /** `DEGREE_PROGRAMS`, in order. */
  function DegreePrograms(): seq<DegreeType> {
    [BscGeneral, BscSpecialSelection, BscSpecialCompletion,
     BcsGeneral, BcsSpecialSelection, BcsSpecialCompletion]
  }

  /** Why a requirement cannot be computed (the reason texts themselves
      are display strings). */
  datatype Reason =
    | CoreOptional                 // core and optional units are not told apart
    | SpecialisingSubject          // the specialising subject is unknown
    | CoreOptionalTheoryPractical  // ... and theory and practical units neither
    | SpecialisingTheoryPractical

  /** The label of a requirement; `NameText` gives the text shown. */
  datatype Name =
    | CreditsAtLeast90
    | CreditsAtLeast60
    | CreditsAtLeast120
    | CoreTheoryWithC
    | OptionalWithDPlus
    | CorePracticalsWithCMinus
    | GpaAtLeast2
    | GpaAtLeast25
    | EnglishOneTwo
    | EnglishOneTwoThree
    | RelevantTheoryWithC
    | SpecialisingPracticalsWithCMinus
    | OtherPracticals
    | SpecialisingWithBMinus
    | SpecialisingCredits52
    | SpecialisationTheoryWithC
    | SpecialisationPracticalsWithCMinus
    | ResearchProjectWithC
    | FourthYearWithC
    | ComputerLiteracy
    | CsCoreWithC
    | MathsCoreWithC
    | OptionalWithC
    | IndustryPlacementWithC
    | CsWithBMinus
    | MathsWithC
    | FirstClass
    | SecondUpper
    | SecondLower

  // Long labels are written as two concatenated literals: the proofs
  // about their first characters then look at the short first part only.
  function NameText(n: Name): string {
    match n
    case CreditsAtLeast90 => "Credits Registered (\U{2265} 90)"
    case CreditsAtLeast60 => "Credits Registered (\U{2265} 60)"
    case CreditsAtLeast120 => "Credits Registered (\U{2265} 120, " + "30 in 4th yr)"
    case CoreTheoryWithC => "60% of Core Courses " + "(Theory) with C grade"
    case OptionalWithDPlus => "60% of Optional Course " + "Units with D+ grade"
    case CorePracticalsWithCMinus => "All Core Course " + "Unit Practicals with C-"
    case GpaAtLeast2 => "Overall GPA (\U{2265} 2.00)"
    case GpaAtLeast25 => "Overall GPA (\U{2265} 2.50)"
    case EnglishOneTwo => "English Level I & II"
    case EnglishOneTwoThree => "English Level I, II & III"
    case RelevantTheoryWithC => "60% of Credits in the " + "relevant subjects with C (Theory)"
    case SpecialisingPracticalsWithCMinus => "All Practical Course Units " + "of specializing subject with C-"
    case OtherPracticals => "Other Practicals: D+ " + "(Optional), C- (Core)"
    case SpecialisingWithBMinus => "80% of specializing subject with B-"
    case SpecialisingCredits52 => "52 Credits in specializing subject"
    case SpecialisationTheoryWithC => "60% of specialization " + "Theory credits with C"
    case SpecialisationPracticalsWithCMinus => "All Practicals of " + "specialization with C-"
    case ResearchProjectWithC => "Research Project with C"
    case FourthYearWithC => "4th Year Courses with C (\U{2265} 70%)"
    case ComputerLiteracy => "CLC (Computer Literacy Certificate)"
    case CsCoreWithC => "CS Core with C grade (\U{2265} 60%)"
    case MathsCoreWithC => "Maths Core with C grade (\U{2265} 60%)"
    case OptionalWithC => "Optional with C grade (\U{2265} 60%)"
    case IndustryPlacementWithC => "Industry Placement with C"
    case CsWithBMinus => "CS Courses with B- (\U{2265} 80%)"
    case MathsWithC => "Maths Courses with C (\U{2265} 60%)"
    case FirstClass => "1st Class: GPA \U{2265} 3.70 & 40+ credits A"
    case SecondUpper => "2nd Upper: GPA \U{2265} 3.30 & 40+ credits B"
    case SecondLower => "2nd Lower: GPA \U{2265} 3.00 & 40+ credits B"
  }

  /** The unit a computable requirement is measured in. */
  datatype Unit = Credits | GpaUnit | Percent | Levels | PassUnit | CreditsA | CreditsB

  function UnitText(u: Unit): string {
    match u
    case Credits => "credits"
    case GpaUnit => "GPA"
    case Percent => "%"
    case Levels => "levels"
    case PassUnit => "pass"
    case CreditsA => "credits (A)"
    case CreditsB => "credits (B)"
  }

  datatype Requirement =
    | Computable(name: Name, current: real, target: real, unit: Unit, met: bool)
    | Unavailable(name: Name, reason: Reason)

  // ---------------------------------------------------------------------
  // Codes
  // ---------------------------------------------------------------------

  /** `norm`: lower-case, then the FIRST α, β and δ become a, b and d
      (unlike the classification registry, white space is kept and ε is
      left alone). */
  function Norm(code: string): (r: string)
    ensures |r| == |code|
  {
    ReplaceFirst(ReplaceFirst(ReplaceFirst(Lower(code), '\U{03b1}', 'a'), '\U{03b2}', 'b'), '\U{03b4}', 'd')
  }

  /** `BCS_CORE_CODES`, already normalised. */
  function BcsCoreCodes(): set<string> {
    { "csc1113", "csc1122", "csc113a", "csc1142", "csc1153", "mat112c", "mat113c",
      "csc1213", "csc1223", "csc1233", "csc1242", "csc1251", "mat121b", "mat122b",
      "csc2113", "csc2123", "csc2133", "csc2143", "amt212b", "mat211b", "phy2112",
      "csc2213", "csc2222", "csc2233", "csc2242", "csc2252", "mat225f", "mat225b",
      "csc3113",
      "csc3216" }
  }

  predicate IsBcsCore(code: string) {
    Norm(code) in BcsCoreCodes()
  }

  function CsPrefixes(): seq<string> { ["CSC", "COM"] }

  function MathPrefixes(): seq<string> { ["MAT", "AMT", "IMT"] }

  /** `prefixes.some(p => code.toUpperCase().startsWith(p))`. */
  predicate HasPrefixIn(code: string, prefixes: seq<string>) {
    exists i :: 0 <= i < |prefixes| && StartsWith(Upper(code), prefixes[i])
  }

  predicate IsCsCode(code: string) { HasPrefixIn(code, CsPrefixes()) }

  predicate IsMathCode(code: string) { HasPrefixIn(code, MathPrefixes()) }

  // Row predicates, named so that every filter over them is the same filter.
  predicate HasCredit(s: SubjectRow) { s.credit > 0.0 }
  predicate CoreRow(s: SubjectRow) { IsBcsCore(s.subjectCode) }
  predicate OptionalRow(s: SubjectRow) { !IsBcsCore(s.subjectCode) }
  predicate CsRow(s: SubjectRow) { IsCsCode(s.subjectCode) }
  predicate MathRow(s: SubjectRow) { IsMathCode(s.subjectCode) }
  predicate MathOnlyRow(s: SubjectRow) { !CsRow(s) && MathRow(s) }
  predicate OtherRow(s: SubjectRow) { !CsRow(s) && !MathRow(s) }

  // ---------------------------------------------------------------------
  // Credit sums
  // ---------------------------------------------------------------------

  /** Credits of the rows with `credit > 0` and grade point at least `minGS`. */
  function CreditSum(ss: seq<SubjectRow>, minGS: real): (r: real)
    ensures r >= 0.0
  {
    if ss == [] then 0.0
    else
      var s := ss[|ss| - 1];
      CreditSum(ss[..|ss| - 1], minGS) + (if s.credit > 0.0 && s.gradeScale >= minGS then s.credit else 0.0)
  }

  /** Credits of the rows with `credit > 0`. */
  function TotalCredit(ss: seq<SubjectRow>): (r: real)
    ensures r >= 0.0
  {
    if ss == [] then 0.0
    else
      var s := ss[|ss| - 1];
      TotalCredit(ss[..|ss| - 1]) + (if s.credit > 0.0 then s.credit else 0.0)
  }

  /** `creditsWithMinGrade`. */
  method CreditsWithMinGrade(subjects: seq<SubjectRow>, minGS: real) returns (sum: real)
    ensures sum == CreditSum(subjects, minGS)
  {
    sum := 0.0;
    var i := 0;
    while i < |subjects|
      invariant 0 <= i <= |subjects|
      invariant sum == CreditSum(subjects[..i], minGS)
    {
      var s := subjects[i];
      assert subjects[..i + 1][..i] == subjects[..i];
      if s.credit > 0.0 && s.gradeScale >= minGS {
        sum := sum + s.credit;
      }
      i := i + 1;
    }
    assert subjects[..i] == subjects;
  }

  /** `totalCredits`. */
  method TotalCredits(subjects: seq<SubjectRow>) returns (sum: real)
    ensures sum == TotalCredit(subjects)
  {
    sum := 0.0;
    var i := 0;
    while i < |subjects|
      invariant 0 <= i <= |subjects|
      invariant sum == TotalCredit(subjects[..i])
    {
      var s := subjects[i];
      assert subjects[..i + 1][..i] == subjects[..i];
      if s.credit > 0.0 {
        sum := sum + s.credit;
      }
      i := i + 1;
    }
    assert subjects[..i] == subjects;
  }

  /** `creditsWithGradeA`: credits at grade point 3.7 or more (A-, A, A+). */
  method CreditsWithGradeA(subjects: seq<SubjectRow>) returns (sum: real)
    ensures sum == CreditSum(subjects, 3.7)
  {
    sum := 0.0;
    var i := 0;
    while i < |subjects|
      invariant 0 <= i <= |subjects|
      invariant sum == CreditSum(subjects[..i], 3.7)
    {
      var s := subjects[i];
      assert subjects[..i + 1][..i] == subjects[..i];
      if s.credit > 0.0 && s.gradeScale >= 3.7 {
        sum := sum + s.credit;
      }
      i := i + 1;
    }
    assert subjects[..i] == subjects;
  }

  /** `creditsWithGradeB`: credits at grade point 2.7 or more (B- and above). */
  method CreditsWithGradeB(subjects: seq<SubjectRow>) returns (sum: real)
    ensures sum == CreditSum(subjects, 2.7)
  {
    sum := 0.0;
    var i := 0;
    while i < |subjects|
      invariant 0 <= i <= |subjects|
      invariant sum == CreditSum(subjects[..i], 2.7)
    {
      var s := subjects[i];
      assert subjects[..i + 1][..i] == subjects[..i];
      if s.credit > 0.0 && s.gradeScale >= 2.7 {
        sum := sum + s.credit;
      }
      i := i + 1;
    }
    assert subjects[..i] == subjects;
  }

  /** The credits with a minimum grade never exceed the total. */
  lemma {:induction false} CreditSumAtMostTotal(ss: seq<SubjectRow>, minGS: real)
    ensures CreditSum(ss, minGS) <= TotalCredit(ss)
  {
    if ss != [] {
      CreditSumAtMostTotal(ss[..|ss| - 1], minGS);
    }
  }

  /** Raising the minimum grade never adds credits. */
  lemma {:induction false} CreditSumAntitone(ss: seq<SubjectRow>, lo: real, hi: real)
    requires lo <= hi
    ensures CreditSum(ss, hi) <= CreditSum(ss, lo)
  {
    if ss != [] {
      CreditSumAntitone(ss[..|ss| - 1], lo, hi);
    }
  }

  /** Rows with `credit <= 0` contribute nothing to either sum. */
  lemma {:induction false} SumsCountCreditRowsOnly(ss: seq<SubjectRow>, minGS: real)
    ensures CreditSum(ss, minGS) == CreditSum(Filter(ss, HasCredit), minGS)
    ensures TotalCredit(ss) == TotalCredit(Filter(ss, HasCredit))
  {
    if ss != [] {
      var init := ss[..|ss| - 1];
      var s := ss[|ss| - 1];
      SumsCountCreditRowsOnly(init, minGS);
      var f := Filter(init, HasCredit);
      if HasCredit(s) {
        assert Filter(ss, HasCredit) == f + [s];
        assert (f + [s])[..|f + [s]| - 1] == f;
      } else {
        assert Filter(ss, HasCredit) == f;
      }
    }
  }

  /** The total is zero exactly when no row carries credit. */
  lemma {:induction false} TotalCreditZeroIff(ss: seq<SubjectRow>)
    ensures TotalCredit(ss) == 0.0 <==> forall i :: 0 <= i < |ss| ==> ss[i].credit <= 0.0
  {
    if ss != [] {
      var init := ss[..|ss| - 1];
      TotalCreditZeroIff(init);
      assert forall i :: 0 <= i < |init| ==> init[i] == ss[i];
    }
  }

  /** The total of a sequence extended by one row. */
  lemma TotalCreditSnoc(ss: seq<SubjectRow>, x: SubjectRow)
    ensures TotalCredit(ss + [x]) == TotalCredit(ss) + (if x.credit > 0.0 then x.credit else 0.0)
  {
    assert (ss + [x])[..|ss|] == ss;
  }

  // ---------------------------------------------------------------------
  // Percentages
  // ---------------------------------------------------------------------

  /** `Math.round` on a non-negative number. */
  function Round(x: real): int {
    (x + 0.5).Floor
  }

  lemma RoundMonotone(x: real, y: real)
    requires x <= y
    ensures Round(x) <= Round(y)
  {
  }

  /** `pctWithGrade`: the share of credits earned with grade point at least
      `minGS`, as a rounded percentage; 0 when there are no credits. */
  function PctWithGrade(ss: seq<SubjectRow>, minGS: real): (r: int)
    ensures 0 <= r <= 100
    ensures TotalCredit(ss) == 0.0 ==> r == 0
  {
    var tot := TotalCredit(ss);
    if tot == 0.0 then 0
    else
      CreditSumAtMostTotal(ss, minGS);
      PctBounds(CreditSum(ss, minGS), tot);
      Round(CreditSum(ss, minGS) / tot * 100.0)
  }

  lemma PctBounds(part: real, whole: real)
    requires 0.0 <= part <= whole && whole > 0.0
    ensures 0 <= Round(part / whole * 100.0) <= 100
  {
    assert part / whole <= 1.0;
    RoundMonotone(part / whole * 100.0, 100.0);
  }

  lemma DivMonotone(a: real, b: real, t: real)
    requires a <= b && t > 0.0
    ensures a / t <= b / t
  {
    assert b / t - a / t == (b - a) / t;
  }

  /** A stricter minimum grade never gives a higher percentage. */
  lemma PctWithGradeAntitone(ss: seq<SubjectRow>, lo: real, hi: real)
    requires lo <= hi
    ensures PctWithGrade(ss, hi) <= PctWithGrade(ss, lo)
  {
    var tot := TotalCredit(ss);
    if tot != 0.0 {
      CreditSumAntitone(ss, lo, hi);
      var a := CreditSum(ss, hi);
      var b := CreditSum(ss, lo);
      DivMonotone(a, b, tot);
      RoundMonotone(a / tot * 100.0, b / tot * 100.0);
    }
  }

  /** Credits at A level never exceed credits at B level. */
  lemma GradeACreditsAtMostGradeB(ss: seq<SubjectRow>)
    ensures CreditSum(ss, 3.7) <= CreditSum(ss, 2.7)
  {
    CreditSumAntitone(ss, 2.7, 3.7);
  }

  // ---------------------------------------------------------------------
  // Selections
  // ---------------------------------------------------------------------

  /** The decimal digits of `n` (JavaScript's number-to-string on a natural). */
  function NumberText(n: nat): (r: string)
    ensures |r| >= 1 && forall i :: 0 <= i < |r| ==> '0' <= r[i] <= '9'
    ensures r[0] == '0' ==> n == 0
  {
    if n < 10 then [('0' as int + n) as char] else NumberText(n / 10) + [('0' as int + n % 10) as char]
  }

  /** The value of a string of decimal digits, most significant first. */
  function DecimalValue(s: string): int {
    if s == [] then 0 else 10 * DecimalValue(s[..|s| - 1]) + (s[|s| - 1] as int - '0' as int)
  }

  /** Reading the printed digits back gives the number. */
  lemma {:induction false} NumberTextRoundTrip(n: nat)
    ensures DecimalValue(NumberText(n)) == n
  {
    if n >= 10 {
      NumberTextRoundTrip(n / 10);
      var r := NumberText(n);
      assert r[..|r| - 1] == NumberText(n / 10);
    }
  }

  /** The English requirement at `level` is passed by any row, credit or
      not, whose normalised code starts with `eng<level>` and whose grade
      point is positive. */
  predicate EnglishPassRow(level: nat, s: SubjectRow) {
    StartsWith(Norm(s.subjectCode), "eng" + NumberText(level)) && s.gradeScale > 0.0
  }

  /** `checkEnglish`. */
  predicate CheckEnglish(subjects: seq<SubjectRow>, level: nat) {
    Any(subjects, s => EnglishPassRow(level, s))
  }

  /** The row's code after its leading ASCII letters starts with `yearDigit`. */
  predicate AtYear(yearDigit: char, s: SubjectRow) {
    var digits := StripLeadingLetters(s.subjectCode);
    |digits| > 0 && digits[0] == yearDigit
  }

  /** `yearLevel`. */
  function YearLevel(subjects: seq<SubjectRow>, yearDigit: char): seq<SubjectRow> {
    Filter(subjects, s => AtYear(yearDigit, s))
  }

  /** For a code made of ASCII letters `p`, a non-letter `c` and any rest,
      the row is in the year level of `d` exactly when it is one of the
      subjects and `c` is `d`. */
  lemma YearLevelMember(subjects: seq<SubjectRow>, d: char, x: SubjectRow, p: string, c: char, t: string)
    requires forall i :: 0 <= i < |p| ==> IsAsciiLetter(p[i])
    requires !IsAsciiLetter(c) && x.subjectCode == p + [c] + t
    ensures x in YearLevel(subjects, d) <==> x in subjects && c == d
  {
    assert p + [c] + t == p + ([c] + t);
    StripLetterRun(p, [c] + t);
    FilterMember(subjects, s => AtYear(d, s), x);
  }

  /** A code of letters only belongs to no year level. */
  lemma LettersOnlyInNoYear(subjects: seq<SubjectRow>, d: char, x: SubjectRow)
    requires forall i :: 0 <= i < |x.subjectCode| ==> IsAsciiLetter(x.subjectCode[i])
    ensures x !in YearLevel(subjects, d)
  {
    assert x.subjectCode + [] == x.subjectCode;
    StripLetterRun(x.subjectCode, []);
    FilterMember(subjects, s => AtYear(d, s), x);
  }

  /** The year level keeps the input order: it distributes over
      concatenation. */
  lemma YearLevelKeepsOrder(a: seq<SubjectRow>, b: seq<SubjectRow>, d: char)
    ensures YearLevel(a + b, d) == YearLevel(a, d) + YearLevel(b, d)
  {
    FilterConcat(a, b, s => AtYear(d, s));
  }

  function LowerAll(ks: seq<string>): (r: seq<string>)
    ensures |r| == |ks|
  {
    seq(|ks|, i requires 0 <= i < |ks| => Lower(ks[i]))
  }

  /** Some (already lower-cased) keyword occurs in the row's lower-cased
      name or code. */
  predicate MatchesKeyword(kw: seq<string>, s: SubjectRow) {
    exists i :: 0 <= i < |kw| && (Contains(Lower(s.subjectName), kw[i]) || Contains(Lower(s.subjectCode), kw[i]))
  }

  /** `findSubject`: the first row matching one of the keywords, compared
      case-insensitively. */
  function FindSubject(subjects: seq<SubjectRow>, keywords: seq<string>): Option<SubjectRow> {
    var kw := LowerAll(keywords);
    Find(subjects, s => MatchesKeyword(kw, s))
  }

  /** The rows that count towards the degree: credit-bearing, and whose
      upper-cased code is not listed as non-degree. */
  predicate DegreeRow(nonDegree: seq<string>, s: SubjectRow) {
    s.credit > 0.0 && Upper(s.subjectCode) !in nonDegree
  }

  function CreditSubjects(subjects: seq<SubjectRow>, nonDegree: seq<string>): seq<SubjectRow> {
    Filter(subjects, s => DegreeRow(nonDegree, s))
  }

  /** `partitionBcs`: core and optional rows, each in input order. */
  method PartitionBcs(creditSubjects: seq<SubjectRow>) returns (core: seq<SubjectRow>, optional: seq<SubjectRow>)
    ensures core == Filter(creditSubjects, CoreRow)
    ensures optional == Filter(creditSubjects, OptionalRow)
  {
    core, optional := [], [];
    var i := 0;
    while i < |creditSubjects|
      invariant 0 <= i <= |creditSubjects|
      invariant core == Filter(creditSubjects[..i], CoreRow)
      invariant optional == Filter(creditSubjects[..i], OptionalRow)
    {
      var s := creditSubjects[i];
      assert creditSubjects[..i + 1][..i] == creditSubjects[..i];
      if IsBcsCore(s.subjectCode) {
        core := core + [s];
      } else {
        optional := optional + [s];
      }
      i := i + 1;
    }
    assert creditSubjects[..i] == creditSubjects;
  }

  /** `splitBcsCore`: a CSC/COM code is CS core even if it also looked like
      maths; MAT/AMT/IMT is maths core; the rest (PHY…) is other. */
  method SplitBcsCore(core: seq<SubjectRow>) returns (cs: seq<SubjectRow>, maths: seq<SubjectRow>, other: seq<SubjectRow>)
    ensures cs == Filter(core, CsRow)
    ensures maths == Filter(core, MathOnlyRow)
    ensures other == Filter(core, OtherRow)
  {
    cs, maths, other := [], [], [];
    var i := 0;
    while i < |core|
      invariant 0 <= i <= |core|
      invariant cs == Filter(core[..i], CsRow)
      invariant maths == Filter(core[..i], MathOnlyRow)
      invariant other == Filter(core[..i], OtherRow)
    {
      var s := core[i];
      assert core[..i + 1][..i] == core[..i];
      if IsCsCode(s.subjectCode) {
        cs := cs + [s];
      } else if IsMathCode(s.subjectCode) {
        maths := maths + [s];
      } else {
        other := other + [s];
      }
      i := i + 1;
    }
    assert core[..i] == core;
  }

  // ---------------------------------------------------------------------
  // Requirement entries
  // ---------------------------------------------------------------------

  function CreditsRegistered(confirmed: real, target: real, name: Name): Requirement {
    Computable(name, confirmed, target, Credits, confirmed >= target)
  }

  function OverallGpa(gpa: real, target: real, name: Name): Requirement {
    Computable(name, gpa, target, GpaUnit, gpa >= target)
  }

  function PctRequirement(name: Name, pct: int, target: real): Requirement {
    Computable(name, pct as real, target, Percent, pct as real >= target)
  }

  function Passed(b: bool): real { if b then 1.0 else 0.0 }

  function EnglishTwo(eng1: bool, eng2: bool): Requirement {
    Computable(EnglishOneTwo, Passed(eng1) + Passed(eng2), 2.0, Levels, eng1 && eng2)
  }

  function EnglishThree(eng1: bool, eng2: bool, eng3: bool): Requirement {
    Computable(EnglishOneTwoThree, Passed(eng1) + Passed(eng2) + Passed(eng3), 3.0, Levels,
               eng1 && eng2 && eng3)
  }

  /** A graded unit (industry placement, research project) needing a C:
      its grade point if found, else 0. */
  function GradedUnit(name: Name, found: Option<SubjectRow>): Requirement {
    Computable(name, if found.Some? then found.value.gradeScale else 0.0, 2.0, GpaUnit,
               found.Some? && found.value.gradeScale >= 2.0)
  }

  function ClcRequirement(clc: Option<SubjectRow>): Requirement {
    var passed := clc.Some? && clc.value.gradeScale > 0.0;
    Computable(ComputerLiteracy, if passed then 1.0 else 0.0, 1.0, PassUnit, passed)
  }

  /** The computer-literacy entry, added for students without any CSC/COM
      credit subject. */
  function ClcEntries(subjects: seq<SubjectRow>, creditSubjects: seq<SubjectRow>): seq<Requirement> {
    if Any(creditSubjects, CsRow) then []
    else [ClcRequirement(FindSubject(subjects, ClcKeywords()))]
  }

  function ClcKeywords(): seq<string> { ["clc", "computer literacy"] }

  function IndustryKeywords(): seq<string> { ["industry", "placement", "industrial"] }

  function ResearchKeywords(): seq<string> { ["research project", "individual project"] }

  /** BSc general degree (`bsc-general`). */
  function BscGeneralList(gpa: real, confirmed: real, eng1: bool, eng2: bool, clc: seq<Requirement>): seq<Requirement> {
    [ CreditsRegistered(confirmed, 90.0, CreditsAtLeast90),
      Unavailable(CoreTheoryWithC, CoreOptional),
      Unavailable(OptionalWithDPlus, CoreOptional),
      Unavailable(CorePracticalsWithCMinus, CoreOptionalTheoryPractical),
      OverallGpa(gpa, 2.0, GpaAtLeast2),
      EnglishTwo(eng1, eng2) ]
    + clc
  }

  /** BSc special degree, selection to the special year (`bsc-special-selection`). */
  function BscSpecialSelectionList(gpa: real, confirmed: real, eng1: bool, eng2: bool): seq<Requirement> {
    [ CreditsRegistered(confirmed, 60.0, CreditsAtLeast60),
      Unavailable(RelevantTheoryWithC, SpecialisingSubject),
      Unavailable(SpecialisingPracticalsWithCMinus, SpecialisingTheoryPractical),
      Unavailable(OtherPracticals, CoreOptionalTheoryPractical),
      OverallGpa(gpa, 2.0, GpaAtLeast2),
      Unavailable(SpecialisingWithBMinus, SpecialisingSubject),
      EnglishTwo(eng1, eng2) ]
  }

  /** BSc special degree, completion (`bsc-special-completion`). */
  function BscSpecialCompletionList(gpa: real, research: Option<SubjectRow>, y4Pct: int,
                                    eng1: bool, eng2: bool, eng3: bool, clc: seq<Requirement>): seq<Requirement> {
    [ OverallGpa(gpa, 2.0, GpaAtLeast2),
      Unavailable(SpecialisingCredits52, SpecialisingSubject),
      Unavailable(SpecialisationTheoryWithC, SpecialisingSubject),
      Unavailable(SpecialisationPracticalsWithCMinus, SpecialisingTheoryPractical),
      GradedUnit(ResearchProjectWithC, research),
      PctRequirement(FourthYearWithC, y4Pct, 70.0),
      EnglishThree(eng1, eng2, eng3) ]
    + clc
  }

  /** BCS general degree (`bcs-general`). */
  function BcsGeneralList(confirmed: real, csPct: int, mathsPct: int, optionalPct: int,
                          industry: Option<SubjectRow>, eng1: bool, eng2: bool): seq<Requirement> {
    [ CreditsRegistered(confirmed, 90.0, CreditsAtLeast90),
      PctRequirement(CsCoreWithC, csPct, 60.0),
      PctRequirement(MathsCoreWithC, mathsPct, 60.0),
      PctRequirement(OptionalWithC, optionalPct, 60.0),
      GradedUnit(IndustryPlacementWithC, industry),
      EnglishTwo(eng1, eng2) ]
  }

  /** BCS special degree, selection (`bcs-special-selection`). */
  function BcsSpecialSelectionList(gpa: real, confirmed: real, allCsPct: int, allMathsPct: int,
                                   industry: Option<SubjectRow>, eng1: bool, eng2: bool): seq<Requirement> {
    [ CreditsRegistered(confirmed, 90.0, CreditsAtLeast90),
      PctRequirement(CsWithBMinus, allCsPct, 80.0),
      PctRequirement(MathsWithC, allMathsPct, 60.0),
      GradedUnit(IndustryPlacementWithC, industry),
      OverallGpa(gpa, 2.0, GpaAtLeast2),
      EnglishTwo(eng1, eng2) ]
  }

  /** BCS special degree, completion (`bcs-special-completion`). */
  function BcsSpecialCompletionList(gpa: real, confirmed: real, research: Option<SubjectRow>, y4Pct: int,
                                    eng1: bool, eng2: bool, eng3: bool): seq<Requirement> {
    [ CreditsRegistered(confirmed, 120.0, CreditsAtLeast120),
      OverallGpa(gpa, 2.5, GpaAtLeast25),
      GradedUnit(ResearchProjectWithC, research),
      PctRequirement(FourthYearWithC, y4Pct, 70.0),
      EnglishThree(eng1, eng2, eng3) ]
  }

  /** The requirements of programme `d` before the honours tiers, given the
      credit subjects and their BCS core/optional split. */
  function BaseRequirements(d: DegreeType, gpa: real, confirmed: real, subjects: seq<SubjectRow>,
                            creditSubjects: seq<SubjectRow>, csCore: seq<SubjectRow>,
                            mathsCore: seq<SubjectRow>, optional: seq<SubjectRow>): seq<Requirement>
  {
    var eng1 := CheckEnglish(subjects, 1);
    var eng2 := CheckEnglish(subjects, 2);
    var eng3 := CheckEnglish(subjects, 3);
    var industry := FindSubject(creditSubjects, IndustryKeywords());
    var research := FindSubject(creditSubjects, ResearchKeywords());
    var y4 := YearLevel(creditSubjects, '4');
    var clc := ClcEntries(subjects, creditSubjects);
    match d
    case BscGeneral => BscGeneralList(gpa, confirmed, eng1, eng2, clc)
    case BscSpecialSelection => BscSpecialSelectionList(gpa, confirmed, eng1, eng2)
    case BscSpecialCompletion =>
      BscSpecialCompletionList(gpa, research, PctWithGrade(y4, 2.0), eng1, eng2, eng3, clc)
    case BcsGeneral =>
      BcsGeneralList(confirmed, PctWithGrade(csCore, 2.0), PctWithGrade(mathsCore, 2.0),
                     PctWithGrade(optional, 2.0), industry, eng1, eng2)
    case BcsSpecialSelection =>
      var allCs := csCore + Filter(optional, CsRow);
      var allMaths := mathsCore + Filter(optional, MathRow);
      BcsSpecialSelectionList(gpa, confirmed, PctWithGrade(allCs, 2.7), PctWithGrade(allMaths, 2.0),
                              industry, eng1, eng2)
    case BcsSpecialCompletion =>
      BcsSpecialCompletionList(gpa, confirmed, research, PctWithGrade(y4, 2.0), eng1, eng2, eng3)
  }

  /** The three honours tiers, from the GPA and the credits earned at grade
      point 3.7 (`credA`) and 2.7 (`credB`) or more. */
  function HonoursRequirements(gpa: real, credA: real, credB: real): seq<Requirement> {
    [ Computable(FirstClass, credA, 40.0, CreditsA,
                 gpa >= 3.7 && credA >= 40.0),
      Computable(SecondUpper, credB, 40.0, CreditsB,
                 gpa >= 3.3 && credB >= 40.0),
      Computable(SecondLower, credB, 40.0, CreditsB,
                 gpa >= 3.0 && credB >= 40.0) ]
  }

  /** What `buildRequirements` returns, stated over the specification
      functions. */
  function Requirements(d: DegreeType, gpa: real, confirmed: real, subjects: seq<SubjectRow>,
                        nonDegree: seq<string>): seq<Requirement>
  {
    var cs := CreditSubjects(subjects, nonDegree);
    var core := Filter(cs, CoreRow);
    BaseRequirements(d, gpa, confirmed, subjects, cs, Filter(core, CsRow), Filter(core, MathOnlyRow),
                     Filter(cs, OptionalRow))
    + HonoursRequirements(gpa, CreditSum(cs, 3.7), CreditSum(cs, 2.7))
  }

  /** `buildRequirements`. */
  method BuildRequirements(d: DegreeType, gpa: real, confirmed: real, subjects: seq<SubjectRow>,
                           nonDegree: seq<string>) returns (reqs: seq<Requirement>)
    ensures reqs == Requirements(d, gpa, confirmed, subjects, nonDegree)
  {
    var creditSubjects := CreditSubjects(subjects, nonDegree);
    var bcsCore, bcsOptional := PartitionBcs(creditSubjects);
    var bcsCoreCs, bcsCoreMaths, _ := SplitBcsCore(bcsCore);
    reqs := BaseRequirements(d, gpa, confirmed, subjects, creditSubjects, bcsCoreCs, bcsCoreMaths, bcsOptional);
    var credA := CreditsWithGradeA(creditSubjects);
    var credB := CreditsWithGradeB(creditSubjects);
    reqs := reqs + HonoursRequirements(gpa, credA, credB);
  }

  // ---------------------------------------------------------------------
  // Properties of the selections
  // ---------------------------------------------------------------------

  /** A row counts towards the degree exactly when it carries credit and
      its upper-cased code is not non-degree. */
  lemma CreditSubjectsMember(subjects: seq<SubjectRow>, nonDegree: seq<string>, x: SubjectRow)
    ensures x in CreditSubjects(subjects, nonDegree)
        <==> x in subjects && x.credit > 0.0 && Upper(x.subjectCode) !in nonDegree
  {
    FilterMember(subjects, s => DegreeRow(nonDegree, s), x);
  }

  /** The English check looks at every row: a non-credit row can pass an
      English level although it is not a credit subject. */
  lemma EnglishCountsNonCreditRows(subjects: seq<SubjectRow>, nonDegree: seq<string>, level: nat, i: int)
    requires 0 <= i < |subjects| && EnglishPassRow(level, subjects[i]) && subjects[i].credit <= 0.0
    ensures CheckEnglish(subjects, level)
    ensures subjects[i] !in CreditSubjects(subjects, nonDegree)
  {
    CreditSubjectsMember(subjects, nonDegree, subjects[i]);
  }

  /** `partitionBcs` puts every credit subject in exactly one of core and
      optional, as often as it occurs. */
  lemma BcsPartitionCovers(creditSubjects: seq<SubjectRow>)
    ensures multiset(Filter(creditSubjects, CoreRow)) + multiset(Filter(creditSubjects, OptionalRow))
         == multiset(creditSubjects)
    ensures forall x | x in creditSubjects ::
              (x in Filter(creditSubjects, CoreRow)) != (x in Filter(creditSubjects, OptionalRow))
  {
    FilterSplit(creditSubjects, CoreRow, OptionalRow);
    forall x | x in creditSubjects
      ensures (x in Filter(creditSubjects, CoreRow)) != (x in Filter(creditSubjects, OptionalRow))
    {
      FilterMember(creditSubjects, CoreRow, x);
      FilterMember(creditSubjects, OptionalRow, x);
    }
  }

  /** `splitBcsCore` puts every core row in exactly one of its three lists. */
  lemma SplitBcsCoreCovers(core: seq<SubjectRow>)
    ensures multiset(Filter(core, CsRow)) + multiset(Filter(core, MathOnlyRow)) + multiset(Filter(core, OtherRow))
         == multiset(core)
  {
    FilterSplit3(core, CsRow, MathOnlyRow, OtherRow);
  }

  lemma StartsWithHead(s: string, p: string)
    requires StartsWith(s, p) && |p| > 0
    ensures |s| > 0 && s[0] == p[0]
  {
    assert s[..|p|][0] == s[0];
  }

  /** No code has both a CS and a maths prefix. */
  lemma CsNotMath(code: string)
    ensures IsCsCode(code) ==> !IsMathCode(code)
  {
    if IsCsCode(code) {
      var i :| 0 <= i < 2 && StartsWith(Upper(code), CsPrefixes()[i]);
      StartsWithHead(Upper(code), CsPrefixes()[i]);
      forall j | 0 <= j < 3
        ensures !StartsWith(Upper(code), MathPrefixes()[j])
      {
        if StartsWith(Upper(code), MathPrefixes()[j]) {
          StartsWithHead(Upper(code), MathPrefixes()[j]);
        }
      }
    }
  }

  /** For the BCS special selection, the CS list (core CS, then optional
      CS) holds exactly the credit subjects with a CSC/COM prefix, and the
      maths list exactly those with a MAT/AMT/IMT prefix. */
  lemma SpecialSelectionLists(creditSubjects: seq<SubjectRow>)
    ensures var core := Filter(creditSubjects, CoreRow);
            var optional := Filter(creditSubjects, OptionalRow);
            multiset(Filter(core, CsRow) + Filter(optional, CsRow)) == multiset(Filter(creditSubjects, CsRow))
            && multiset(Filter(core, MathOnlyRow) + Filter(optional, MathRow))
               == multiset(Filter(creditSubjects, MathRow))
  {
    var core := Filter(creditSubjects, CoreRow);
    FilterOfSplit(creditSubjects, CoreRow, OptionalRow, CsRow);
    forall i | 0 <= i < |core|
      ensures MathOnlyRow(core[i]) == MathRow(core[i])
    {
      CsNotMath(core[i].subjectCode);
    }
    FilterCongruent(core, MathOnlyRow, MathRow);
    FilterOfSplit(creditSubjects, CoreRow, OptionalRow, MathRow);
  }

  /** `findSubject` returns the first row whose lower-cased name or code
      contains one of the lower-cased keywords, and nothing only when no
      row does. */
  lemma FindSubjectFirst(subjects: seq<SubjectRow>, keywords: seq<string>)
    ensures var kw := LowerAll(keywords);
            var r := FindSubject(subjects, keywords);
            (r.None? <==> forall i :: 0 <= i < |subjects| ==> !MatchesKeyword(kw, subjects[i]))
            && (r.Some? ==> exists i :: 0 <= i < |subjects| && subjects[i] == r.value && MatchesKeyword(kw, r.value)
                                       && forall j :: 0 <= j < i ==> !MatchesKeyword(kw, subjects[j]))
  {
    var kw := LowerAll(keywords);
    FindFirst(subjects, s => MatchesKeyword(kw, s));
  }

  // ---------------------------------------------------------------------
  // Properties of the requirement list
  // ---------------------------------------------------------------------

  /** A computable entry is met exactly when its current value reaches its
      target. */
  predicate MetAgrees(r: Requirement) {
    r.Computable? ==> (r.met <==> r.current >= r.target)
  }

  /** What holds of every entry before the honours tiers. */
  predicate BaseEntry(r: Requirement) {
    MetAgrees(r) && !HonoursLabel(r.name)
  }

  /** Every entry of the three BSc lists keeps `met` in step with
      `current >= target` and is not an honours tier. */
  lemma BscListEntries(gpa: real, confirmed: real, eng1: bool, eng2: bool, eng3: bool,
                       research: Option<SubjectRow>, p1: int, clc: seq<Requirement>)
    requires forall r | r in clc :: BaseEntry(r)
    ensures forall r | r in BscGeneralList(gpa, confirmed, eng1, eng2, clc) :: BaseEntry(r)
    ensures forall r | r in BscSpecialSelectionList(gpa, confirmed, eng1, eng2) :: BaseEntry(r)
    ensures forall r | r in BscSpecialCompletionList(gpa, research, p1, eng1, eng2, eng3, clc) :: BaseEntry(r)
  {
  }

  /** The same for the three BCS lists. */
  lemma BcsListEntries(gpa: real, confirmed: real, eng1: bool, eng2: bool, eng3: bool,
                       research: Option<SubjectRow>, industry: Option<SubjectRow>,
                       p1: int, p2: int, p3: int)
    ensures forall r | r in BcsGeneralList(confirmed, p1, p2, p3, industry, eng1, eng2) :: BaseEntry(r)
    ensures forall r | r in BcsSpecialSelectionList(gpa, confirmed, p1, p2, industry, eng1, eng2) :: BaseEntry(r)
    ensures forall r | r in BcsSpecialCompletionList(gpa, confirmed, research, p1, eng1, eng2, eng3) :: BaseEntry(r)
  {
  }

  /** Every computable base requirement is met exactly when its current
      value reaches its target, and none is labelled as an honours tier. */
  lemma BaseEntries(d: DegreeType, gpa: real, confirmed: real, subjects: seq<SubjectRow>,
                    creditSubjects: seq<SubjectRow>, csCore: seq<SubjectRow>,
                    mathsCore: seq<SubjectRow>, optional: seq<SubjectRow>)
    ensures forall r | r in BaseRequirements(d, gpa, confirmed, subjects, creditSubjects, csCore, mathsCore, optional)
              :: MetAgrees(r) && !IsHonours(r)
  {
    var eng1 := CheckEnglish(subjects, 1);
    var eng2 := CheckEnglish(subjects, 2);
    var eng3 := CheckEnglish(subjects, 3);
    var industry := FindSubject(creditSubjects, IndustryKeywords());
    var research := FindSubject(creditSubjects, ResearchKeywords());
    var y4 := PctWithGrade(YearLevel(creditSubjects, '4'), 2.0);
    var clc := ClcEntries(subjects, creditSubjects);
    assert forall r | r in clc :: BaseEntry(r);
    match d
    case BscGeneral =>
      BscListEntries(gpa, confirmed, eng1, eng2, eng3, research, 0, clc);
    case BscSpecialSelection =>
      BscListEntries(gpa, confirmed, eng1, eng2, eng3, research, 0, clc);
    case BscSpecialCompletion =>
      BscListEntries(gpa, confirmed, eng1, eng2, eng3, research, y4, clc);
    case BcsGeneral =>
      BcsListEntries(gpa, confirmed, eng1, eng2, eng3, research, industry,
                     PctWithGrade(csCore, 2.0), PctWithGrade(mathsCore, 2.0), PctWithGrade(optional, 2.0));
    case BcsSpecialSelection =>
      var allCs := csCore + Filter(optional, CsRow);
      var allMaths := mathsCore + Filter(optional, MathRow);
      BcsListEntries(gpa, confirmed, eng1, eng2, eng3, research, industry,
                     PctWithGrade(allCs, 2.7), PctWithGrade(allMaths, 2.0), 0);
    case BcsSpecialCompletion =>
      BcsListEntries(gpa, confirmed, eng1, eng2, eng3, research, industry, y4, 0, 0);
  }

  /** A graded unit that is not found reads 0 and is not met. */
  lemma MissingGradedUnit(name: Name)
    ensures GradedUnit(name, None).current == 0.0 && !GradedUnit(name, None).met
  {
  }

  /** Number of entries before the honours tiers, without the CLC entry. */
  function BaseLength(d: DegreeType): nat {
    match d
    case BscGeneral => 6
    case BscSpecialSelection => 7
    case BscSpecialCompletion => 7
    case BcsGeneral => 6
    case BcsSpecialSelection => 6
    case BcsSpecialCompletion => 5
  }

  /** Positions of the entries that cannot be computed from grades alone. */
  function UnavailableAt(d: DegreeType): set<nat> {
    match d
    case BscGeneral => {1, 2, 3}
    case BscSpecialSelection => {1, 2, 3, 5}
    case BscSpecialCompletion => {1, 2, 3}
    case _ => {}
  }

  /** The BSc general and BSc special completion lists may end in a CLC entry. */
  predicate ClcApplies(d: DegreeType) {
    d == BscGeneral || d == BscSpecialCompletion
  }

  /** A list of `n` leading entries, unavailable exactly at `unavailable`,
      followed by `tail`. */
  predicate ShapedAs(b: seq<Requirement>, n: nat, unavailable: set<nat>, tail: seq<Requirement>) {
    && |b| == n + |tail|
    && (forall i | 0 <= i < |b| :: b[i].Unavailable? <==> i in unavailable)
    && b[n..] == tail
  }

  /** The shapes of the three BSc lists. */
  lemma BscShapes(gpa: real, confirmed: real, eng1: bool, eng2: bool, eng3: bool,
                  research: Option<SubjectRow>, p1: int, clc: seq<Requirement>)
    requires forall i | 0 <= i < |clc| :: clc[i].Computable?
    ensures ShapedAs(BscGeneralList(gpa, confirmed, eng1, eng2, clc), 6, {1, 2, 3}, clc)
    ensures ShapedAs(BscSpecialSelectionList(gpa, confirmed, eng1, eng2), 7, {1, 2, 3, 5}, [])
    ensures ShapedAs(BscSpecialCompletionList(gpa, research, p1, eng1, eng2, eng3, clc), 7, {1, 2, 3}, clc)
  {
    var g := BscGeneralList(gpa, confirmed, eng1, eng2, clc);
    assert forall i | 6 <= i < |g| :: g[i] == clc[i - 6];
    var c := BscSpecialCompletionList(gpa, research, p1, eng1, eng2, eng3, clc);
    assert forall i | 7 <= i < |c| :: c[i] == clc[i - 7];
  }

  /** The shapes of the three BCS lists: every entry is computable. */
  lemma BcsShapes(gpa: real, confirmed: real, eng1: bool, eng2: bool, eng3: bool,
                  research: Option<SubjectRow>, industry: Option<SubjectRow>,
                  p1: int, p2: int, p3: int)
    ensures ShapedAs(BcsGeneralList(confirmed, p1, p2, p3, industry, eng1, eng2), 6, {}, [])
    ensures ShapedAs(BcsSpecialSelectionList(gpa, confirmed, p1, p2, industry, eng1, eng2), 6, {}, [])
    ensures ShapedAs(BcsSpecialCompletionList(gpa, confirmed, research, p1, eng1, eng2, eng3), 5, {}, [])
  {
  }

  /** The shape of each programme's base list: its length, which entries
      are unavailable (every BCS entry is computable), and the CLC entry
      exactly for BSc students without CSC/COM credit subjects, at the end. */
  /** The base list is shaped by its programme: `BaseLength(d)` leading
      entries, unavailable at `UnavailableAt(d)`, then the CLC entries
      where they apply. */
  lemma BaseShapedAs(d: DegreeType, gpa: real, confirmed: real, subjects: seq<SubjectRow>,
                     creditSubjects: seq<SubjectRow>, csCore: seq<SubjectRow>,
                     mathsCore: seq<SubjectRow>, optional: seq<SubjectRow>)
    ensures ShapedAs(BaseRequirements(d, gpa, confirmed, subjects, creditSubjects, csCore, mathsCore, optional),
                     BaseLength(d), UnavailableAt(d),
                     if ClcApplies(d) then ClcEntries(subjects, creditSubjects) else [])
  {
    var eng1 := CheckEnglish(subjects, 1);
    var eng2 := CheckEnglish(subjects, 2);
    var eng3 := CheckEnglish(subjects, 3);
    var industry := FindSubject(creditSubjects, IndustryKeywords());
    var research := FindSubject(creditSubjects, ResearchKeywords());
    var y4 := PctWithGrade(YearLevel(creditSubjects, '4'), 2.0);
    var clc := ClcEntries(subjects, creditSubjects);
    if d.BscGeneral? || d.BscSpecialSelection? || d.BscSpecialCompletion? {
      BscShapes(gpa, confirmed, eng1, eng2, eng3, research, y4, clc);
    } else if d.BcsGeneral? {
      BcsShapes(gpa, confirmed, eng1, eng2, eng3, research, industry,
                PctWithGrade(csCore, 2.0), PctWithGrade(mathsCore, 2.0), PctWithGrade(optional, 2.0));
    } else if d.BcsSpecialSelection? {
      var allCs := csCore + Filter(optional, CsRow);
      var allMaths := mathsCore + Filter(optional, MathRow);
      BcsShapes(gpa, confirmed, eng1, eng2, eng3, research, industry,
                PctWithGrade(allCs, 2.7), PctWithGrade(allMaths, 2.0), 0);
    } else {
      BcsShapes(gpa, confirmed, eng1, eng2, eng3, research, industry, y4, 0, 0);
    }
  }

  lemma BaseShape(d: DegreeType, gpa: real, confirmed: real, subjects: seq<SubjectRow>,
                  creditSubjects: seq<SubjectRow>, csCore: seq<SubjectRow>,
                  mathsCore: seq<SubjectRow>, optional: seq<SubjectRow>)
    ensures var b := BaseRequirements(d, gpa, confirmed, subjects, creditSubjects, csCore, mathsCore, optional);
            var clc := ClcApplies(d) && !Any(creditSubjects, CsRow);
            && |b| == BaseLength(d) + (if clc then 1 else 0)
            && (forall i | 0 <= i < |b| :: b[i].Unavailable? <==> i in UnavailableAt(d))
            && (clc ==> b[|b| - 1] == ClcRequirement(FindSubject(subjects, ClcKeywords())))
  {
    BaseShapedAs(d, gpa, confirmed, subjects, creditSubjects, csCore, mathsCore, optional);
  }

  /** The honours tiers close every list. */
  lemma HonoursLast(d: DegreeType, gpa: real, confirmed: real, subjects: seq<SubjectRow>, nonDegree: seq<string>)
    ensures var r := Requirements(d, gpa, confirmed, subjects, nonDegree);
            var cs := CreditSubjects(subjects, nonDegree);
            |r| >= 3 && r[|r| - 3..] == HonoursRequirements(gpa, CreditSum(cs, 3.7), CreditSum(cs, 2.7))
  {
  }

  /** The honours tiers are nested: first class implies second upper,
      which implies second lower. */
  lemma HonoursNested(d: DegreeType, gpa: real, confirmed: real, subjects: seq<SubjectRow>, nonDegree: seq<string>)
    ensures var r := Requirements(d, gpa, confirmed, subjects, nonDegree);
            var n := |r|;
            n >= 3 && (r[n - 3].met ==> r[n - 2].met) && (r[n - 2].met ==> r[n - 1].met)
  {
    var cs := CreditSubjects(subjects, nonDegree);
    HonoursLast(d, gpa, confirmed, subjects, nonDegree);
    GradeACreditsAtMostGradeB(cs);
  }

  /** GPA 3.35 with 45 credits at B- or above meets the second-class tiers
      but not the first, whatever the A-level credits. */
  lemma HonoursExample(credA: real)
    ensures var h := HonoursRequirements(3.35, credA, 45.0);
            !h[0].met && h[1].met && h[2].met
  {
  }

  /** `buildRequirements`' list is the base list followed by the tiers. */
  lemma RequirementsLength(d: DegreeType, gpa: real, confirmed: real, subjects: seq<SubjectRow>, nonDegree: seq<string>)
    ensures var cs := CreditSubjects(subjects, nonDegree);
            |Requirements(d, gpa, confirmed, subjects, nonDegree)|
            == BaseLength(d) + (if ClcApplies(d) && !Any(cs, CsRow) then 1 else 0) + 3
  {
    var cs := CreditSubjects(subjects, nonDegree);
    var core := Filter(cs, CoreRow);
    BaseShape(d, gpa, confirmed, subjects, cs, Filter(core, CsRow), Filter(core, MathOnlyRow), Filter(cs, OptionalRow));
  }

  // ---------------------------------------------------------------------
  // Summary
  // ---------------------------------------------------------------------

  /** The honours tiers' labels: exactly those starting with "1st Class"
      or "2nd" (`HonoursLabelText`). */
  predicate HonoursLabel(n: Name) {
    n == FirstClass || n == SecondUpper || n == SecondLower
  }

  /** `isHonours`: an honours tier is a computable entry with an honours label. */
  predicate IsHonours(r: Requirement) {
    r.Computable? && HonoursLabel(r.name)
  }

  predicate IsBaseReq(r: Requirement) { !IsHonours(r) }
  predicate IsComputableReq(r: Requirement) { r.Computable? }
  predicate IsUnavailableReq(r: Requirement) { r.Unavailable? }
  predicate IsMetReq(r: Requirement) { r.Computable? && r.met }

  /** The label test of `isHonours` singles out exactly the three tiers. */
  lemma HonoursLabelText(n: Name)
    ensures HonoursLabel(n) <==> StartsWith(NameText(n), "1st Class") || StartsWith(NameText(n), "2nd")
  {
    if HonoursLabel(n) {
      HonoursPrefix(n);
    } else {
      var t := NameText(n);
      NameHead(n);
      if StartsWith(t, "1st Class") {
        StartsWithHead(t, "1st Class");
      }
      if StartsWith(t, "2nd") {
        StartsWithHead(t, "2nd");
      }
    }
  }

  lemma HonoursPrefix(n: Name)
    requires HonoursLabel(n)
    ensures StartsWith(NameText(n), "1st Class") || StartsWith(NameText(n), "2nd")
  {
    if n == FirstClass {
      FirstClassPrefix();
    } else if n == SecondUpper {
      SecondUpperPrefix();
    } else {
      SecondLowerPrefix();
    }
  }

  lemma FirstClassPrefix()
    ensures StartsWith(NameText(FirstClass), "1st Class")
  {
    assert NameText(FirstClass)[..9] == "1st Class";
  }

  lemma SecondUpperPrefix()
    ensures StartsWith(NameText(SecondUpper), "2nd")
  {
    var t := NameText(SecondUpper);
    assert t[0] == '2' && t[1] == 'n' && t[2] == 'd';
    assert t[..3] == "2nd";
  }

  lemma SecondLowerPrefix()
    ensures StartsWith(NameText(SecondLower), "2nd")
  {
    var t := NameText(SecondLower);
    assert t[0] == '2' && t[1] == 'n' && t[2] == 'd';
    assert t[..3] == "2nd";
  }

  /** No other label starts with a '1' or a '2'. */
  lemma NameHead(n: Name)
    requires !HonoursLabel(n)
    ensures |NameText(n)| > 0 && NameText(n)[0] == Initial(n) && Initial(n) != '1' && Initial(n) != '2'
  {
    match n
    case CreditsAtLeast90 => CreditLabelsHead(n);
    case CreditsAtLeast60 => CreditLabelsHead(n);
    case CreditsAtLeast120 => CreditLabelsHead(n);
    case ComputerLiteracy => ComputingLabelsHead(n);
    case CsCoreWithC => ComputingLabelsHead(n);
    case CsWithBMinus => ComputingLabelsHead(n);
    case CoreTheoryWithC => SixtyPercentLabelsHead(n);
    case OptionalWithDPlus => SixtyPercentLabelsHead(n);
    case RelevantTheoryWithC => SixtyPercentLabelsHead(n);
    case SpecialisationTheoryWithC => SixtyPercentLabelsHead(n);
    case CorePracticalsWithCMinus => PracticalLabelsHead(n);
    case SpecialisingPracticalsWithCMinus => PracticalLabelsHead(n);
    case SpecialisationPracticalsWithCMinus => PracticalLabelsHead(n);
    case GpaAtLeast2 => GpaAndOtherLabelsHead(n);
    case GpaAtLeast25 => GpaAndOtherLabelsHead(n);
    case OtherPracticals => GpaAndOtherLabelsHead(n);
    case OptionalWithC => GpaAndOtherLabelsHead(n);
    case EnglishOneTwo => EnglishAndIndustryLabelsHead(n);
    case EnglishOneTwoThree => EnglishAndIndustryLabelsHead(n);
    case IndustryPlacementWithC => EnglishAndIndustryLabelsHead(n);
    case SpecialisingWithBMinus => SpecialisingLabelsHead(n);
    case SpecialisingCredits52 => SpecialisingLabelsHead(n);
    case ResearchProjectWithC => SpecialisingLabelsHead(n);
    case FourthYearWithC => SpecialisingLabelsHead(n);
    case MathsCoreWithC => MathsLabelsHead(n);
    case MathsWithC => MathsLabelsHead(n);
  }

  /** The first character of each label, which `NameHead` and the lemmas
      after it check against `NameText` group by group. */
  function Initial(n: Name): char {
    match n
    case CreditsAtLeast90 => 'C'
    case CreditsAtLeast60 => 'C'
    case CreditsAtLeast120 => 'C'
    case ComputerLiteracy => 'C'
    case CsCoreWithC => 'C'
    case CsWithBMinus => 'C'
    case CoreTheoryWithC => '6'
    case OptionalWithDPlus => '6'
    case RelevantTheoryWithC => '6'
    case SpecialisationTheoryWithC => '6'
    case CorePracticalsWithCMinus => 'A'
    case SpecialisingPracticalsWithCMinus => 'A'
    case SpecialisationPracticalsWithCMinus => 'A'
    case GpaAtLeast2 => 'O'
    case GpaAtLeast25 => 'O'
    case OtherPracticals => 'O'
    case OptionalWithC => 'O'
    case EnglishOneTwo => 'E'
    case EnglishOneTwoThree => 'E'
    case IndustryPlacementWithC => 'I'
    case SpecialisingWithBMinus => '8'
    case SpecialisingCredits52 => '5'
    case ResearchProjectWithC => 'R'
    case FourthYearWithC => '4'
    case MathsCoreWithC => 'M'
    case MathsWithC => 'M'
    case FirstClass => '1'
    case SecondUpper => '2'
    case SecondLower => '2'
  }

  lemma CreditLabelsHead(n: Name)
    requires n == CreditsAtLeast90 || n == CreditsAtLeast60 || n == CreditsAtLeast120
    ensures |NameText(n)| > 0 && NameText(n)[0] == Initial(n)
  {
  }

  lemma ComputingLabelsHead(n: Name)
    requires n == ComputerLiteracy || n == CsCoreWithC || n == CsWithBMinus
    ensures |NameText(n)| > 0 && NameText(n)[0] == Initial(n)
  {
  }

  lemma SixtyPercentLabelsHead(n: Name)
    requires n == CoreTheoryWithC || n == OptionalWithDPlus || n == RelevantTheoryWithC || n == SpecialisationTheoryWithC
    ensures |NameText(n)| > 0 && NameText(n)[0] == Initial(n)
  {
  }

  lemma PracticalLabelsHead(n: Name)
    requires n == CorePracticalsWithCMinus || n == SpecialisingPracticalsWithCMinus || n == SpecialisationPracticalsWithCMinus
    ensures |NameText(n)| > 0 && NameText(n)[0] == Initial(n)
  {
  }

  lemma GpaAndOtherLabelsHead(n: Name)
    requires n == GpaAtLeast2 || n == GpaAtLeast25 || n == OtherPracticals || n == OptionalWithC
    ensures |NameText(n)| > 0 && NameText(n)[0] == Initial(n)
  {
  }

  lemma EnglishAndIndustryLabelsHead(n: Name)
    requires n == EnglishOneTwo || n == EnglishOneTwoThree || n == IndustryPlacementWithC
    ensures |NameText(n)| > 0 && NameText(n)[0] == Initial(n)
  {
  }

  lemma SpecialisingLabelsHead(n: Name)
    requires n == SpecialisingWithBMinus || n == SpecialisingCredits52 || n == ResearchProjectWithC || n == FourthYearWithC
    ensures |NameText(n)| > 0 && NameText(n)[0] == Initial(n)
  {
  }

  lemma MathsLabelsHead(n: Name)
    requires n == MathsCoreWithC || n == MathsWithC
    ensures |NameText(n)| > 0 && NameText(n)[0] == Initial(n)
  {
  }

  /** The counts under the progress bar. */
  datatype Summary = Summary(met: nat, computable: nat, unavailable: nat, overallPct: int)

  /** Met and computable count only among the base (non-honours)
      requirements; the percentage is rounded and 0 when nothing is
      computable. */
  function Summarize(reqs: seq<Requirement>): (s: Summary)
    ensures s.met <= s.computable
    ensures s.computable + s.unavailable == |Filter(reqs, IsBaseReq)|
    ensures 0 <= s.overallPct <= 100
    ensures s.computable == 0 ==> s.overallPct == 0
    ensures 0 < s.computable == s.met ==> s.overallPct == 100
  {
    var base := Filter(reqs, IsBaseReq);
    var computable := Filter(base, IsComputableReq);
    var met := |Filter(computable, IsMetReq)|;
    FilterUnavailableSplit(base);
    if |computable| > 0 then
      PctOfCounts(met, |computable|);
      Summary(met, |computable|, |Filter(base, IsUnavailableReq)|,
              Round(met as real / |computable| as real * 100.0))
    else
      Summary(met, 0, |Filter(base, IsUnavailableReq)|, 0)
  }

  /** A count of met entries among computable ones as a rounded percentage. */
  lemma PctOfCounts(met: nat, n: nat)
    requires met <= n && n > 0
    ensures 0 <= Round(met as real / n as real * 100.0) <= 100
    ensures met == n ==> Round(met as real / n as real * 100.0) == 100
  {
    PctBounds(met as real, n as real);
    if met == n {
      assert met as real / n as real == 1.0;
    }
  }

  /** Every requirement is either computable or unavailable. */
  lemma FilterUnavailableSplit(base: seq<Requirement>)
    ensures |Filter(base, IsComputableReq)| + |Filter(base, IsUnavailableReq)| == |base|
  {
    FilterSplit(base, IsComputableReq, IsUnavailableReq);
    assert |multiset(Filter(base, IsComputableReq))| + |multiset(Filter(base, IsUnavailableReq))| == |multiset(base)|;
  }

  /** No base requirement of any programme is an honours tier, and all
      three tiers are: the summary's split gives back the base list and
      the tiers. */
  lemma SummarySplit(d: DegreeType, gpa: real, confirmed: real, subjects: seq<SubjectRow>, nonDegree: seq<string>)
    ensures var cs := CreditSubjects(subjects, nonDegree);
            var core := Filter(cs, CoreRow);
            var reqs := Requirements(d, gpa, confirmed, subjects, nonDegree);
            && Filter(reqs, IsBaseReq)
               == BaseRequirements(d, gpa, confirmed, subjects, cs, Filter(core, CsRow), Filter(core, MathOnlyRow),
                                   Filter(cs, OptionalRow))
            && Filter(reqs, IsHonours) == HonoursRequirements(gpa, CreditSum(cs, 3.7), CreditSum(cs, 2.7))
  {
    var cs := CreditSubjects(subjects, nonDegree);
    var core := Filter(cs, CoreRow);
    var b := BaseRequirements(d, gpa, confirmed, subjects, cs, Filter(core, CsRow), Filter(core, MathOnlyRow),
                              Filter(cs, OptionalRow));
    BaseEntries(d, gpa, confirmed, subjects, cs, Filter(core, CsRow), Filter(core, MathOnlyRow), Filter(cs, OptionalRow));
    SplitHonours(b, HonoursRequirements(gpa, CreditSum(cs, 3.7), CreditSum(cs, 2.7)));
  }

  /** The honours filter separates a list of non-honours entries followed
      by honours entries. */
  lemma SplitHonours(b: seq<Requirement>, h: seq<Requirement>)
    requires forall r | r in b :: !IsHonours(r)
    requires forall r | r in h :: IsHonours(r)
    ensures Filter(b + h, IsBaseReq) == b && Filter(b + h, IsHonours) == h
  {
    assert forall i | 0 <= i < |b| :: b[i] in b;
    assert forall i | 0 <= i < |h| :: h[i] in h;
    FilterPassThenFail(b, h, IsBaseReq, IsHonours);
  }

  /** BCS programmes have no unavailable entry: the summary counts every
      base requirement as computable. */
  lemma BcsSummaryAllComputable(d: DegreeType, gpa: real, confirmed: real, subjects: seq<SubjectRow>,
                                nonDegree: seq<string>)
    requires FamilyOf(d) == Bcs
    ensures var s := Summarize(Requirements(d, gpa, confirmed, subjects, nonDegree));
            s.unavailable == 0 && s.computable == BaseLength(d)
  {
    var cs := CreditSubjects(subjects, nonDegree);
    var core := Filter(cs, CoreRow);
    var b := BaseRequirements(d, gpa, confirmed, subjects, cs, Filter(core, CsRow), Filter(core, MathOnlyRow),
                              Filter(cs, OptionalRow));
    SummarySplit(d, gpa, confirmed, subjects, nonDegree);
    BaseShape(d, gpa, confirmed, subjects, cs, Filter(core, CsRow), Filter(core, MathOnlyRow), Filter(cs, OptionalRow));
    FilterAll(b, IsComputableReq);
    FilterNone(b, IsUnavailableReq);
  }

  // ---------------------------------------------------------------------
  // Stream detection and programme reset
  // ---------------------------------------------------------------------

  /** A department name that marks the CS stream. */
  predicate CsDepartment(dep: string) {
    Contains(Upper(dep), "BCS") || Contains(Upper(dep), "COMPUTER SCIENCE")
  }

  /** `isBcs`: a CS department, or more than 40% of the credit-subject
      credits in CSC/COM courses. */
  predicate IsBcsStream(deps: seq<string>, subjects: seq<SubjectRow>, nonDegree: seq<string>) {
    Any(deps, CsDepartment) || (|subjects| > 0 && MostlyCs(CreditSubjects(subjects, nonDegree)))
  }

  /** More than 40% of the credits are in CSC/COM courses. */
  predicate MostlyCs(cs: seq<SubjectRow>) {
    TotalCredit(cs) > 0.0 && TotalCredit(Filter(cs, CsRow)) / TotalCredit(cs) > 0.4
  }

  /** The detection as the component computes it. */
  method DetectBcs(deps: seq<string>, subjects: seq<SubjectRow>, nonDegree: seq<string>) returns (isBcs: bool)
    ensures isBcs == IsBcsStream(deps, subjects, nonDegree)
  {
    if Any(deps, CsDepartment) {
      return true;
    }
    if |subjects| > 0 {
      var creditSubs := CreditSubjects(subjects, nonDegree);
      FilterSatisfies(subjects, s => DegreeRow(nonDegree, s));
      var total, csCredits := CsAndTotalCredits(creditSubs);
      if total > 0.0 && csCredits / total > 0.4 {
        return true;
      }
    }
    return false;
  }

  /** The running sums over credit subjects: all credits, and the credits
      of CSC/COM courses. */
  method CsAndTotalCredits(creditSubs: seq<SubjectRow>) returns (total: real, csCredits: real)
    requires forall x | x in creditSubs :: x.credit > 0.0
    ensures total == TotalCredit(creditSubs)
    ensures csCredits == TotalCredit(Filter(creditSubs, CsRow))
  {
    csCredits, total := 0.0, 0.0;
    var i := 0;
    while i < |creditSubs|
      invariant 0 <= i <= |creditSubs|
      invariant total == TotalCredit(creditSubs[..i])
      invariant csCredits == TotalCredit(Filter(creditSubs[..i], CsRow))
    {
      var s := creditSubs[i];
      assert s in creditSubs;
      CsStep(creditSubs, i);
      total := total + s.credit;
      if IsCsCode(s.subjectCode) {
        csCredits := csCredits + s.credit;
      }
      i := i + 1;
    }
    assert creditSubs[..i] == creditSubs;
  }

  /** One more credit subject adds its credit to the total, and to the CS
      credits when it is a CSC/COM course. */
  lemma CsStep(creditSubs: seq<SubjectRow>, i: nat)
    requires i < |creditSubs| && creditSubs[i].credit > 0.0
    ensures TotalCredit(creditSubs[..i + 1]) == TotalCredit(creditSubs[..i]) + creditSubs[i].credit
    ensures TotalCredit(Filter(creditSubs[..i + 1], CsRow))
         == TotalCredit(Filter(creditSubs[..i], CsRow)) + (if CsRow(creditSubs[i]) then creditSubs[i].credit else 0.0)
  {
    var s := creditSubs[i];
    assert creditSubs[..i + 1] == creditSubs[..i] + [s];
    TotalCreditSnoc(creditSubs[..i], s);
    FilterSnoc(creditSubs[..i], s, CsRow);
    if CsRow(s) {
      TotalCreditSnoc(Filter(creditSubs[..i], CsRow), s);
    } else {
      assert Filter(creditSubs[..i + 1], CsRow) == Filter(creditSubs[..i], CsRow);
    }
  }

  /** A student whose credit subjects are all CSC/COM courses is in the
      BCS stream. */
  lemma AllCsIsBcs(deps: seq<string>, subjects: seq<SubjectRow>, nonDegree: seq<string>)
    requires CreditSubjects(subjects, nonDegree) != []
    requires forall x | x in CreditSubjects(subjects, nonDegree) :: CsRow(x)
    ensures IsBcsStream(deps, subjects, nonDegree)
  {
    var cs := CreditSubjects(subjects, nonDegree);
    FilterSatisfies(subjects, s => DegreeRow(nonDegree, s));
    AllCsMostlyCs(cs);
  }

  lemma AllCsMostlyCs(cs: seq<SubjectRow>)
    requires cs != []
    requires forall x | x in cs :: CsRow(x) && x.credit > 0.0
    ensures MostlyCs(cs)
  {
    forall i | 0 <= i < |cs|
      ensures CsRow(cs[i])
    {
      assert cs[i] in cs;
    }
    FilterAll(cs, CsRow);
    assert cs[0] in cs;
    TotalCreditZeroIff(cs);
    RatioOfSelf(TotalCredit(cs));
  }

  /** A positive credit total divided by itself is 1. */
  lemma RatioOfSelf(t: real)
    requires t > 0.0
    ensures t / t == 1.0
  {
  }

  /** Without a CS department or any CSC/COM credit subject, the student
      is in the BSc stream. */
  lemma NoCsIsBsc(deps: seq<string>, subjects: seq<SubjectRow>, nonDegree: seq<string>)
    requires !Any(deps, CsDepartment)
    requires forall x | x in CreditSubjects(subjects, nonDegree) :: !CsRow(x)
    ensures !IsBcsStream(deps, subjects, nonDegree)
  {
    var cs := CreditSubjects(subjects, nonDegree);
    FilterNone(cs, CsRow);
  }

  function StreamFamily(isBcs: bool): Family { if isBcs then Bcs else Bsc }

  /** The programmes offered in the detected stream, in order. */
  function AvailablePrograms(isBcs: bool): seq<DegreeType> {
    Filter(DegreePrograms(), p => FamilyOf(p) == StreamFamily(isBcs))
  }

  /** The programme selection after the stream is (re)detected: kept when
      its identifier starts with the stream's family, else the stream's
      general degree. */
  function NextDegreeType(prev: DegreeType, isBcs: bool): DegreeType {
    if !StartsWith(Id(prev), FamilyName(StreamFamily(isBcs))) then
      (if isBcs then BcsGeneral else BscGeneral)
    else prev
  }

  /** A programme identifier starts with its family's name and no other. */
  lemma IdPrefix(d: DegreeType, f: Family)
    ensures StartsWith(Id(d), FamilyName(f)) <==> FamilyOf(d) == f
  {
    assert Id(d)[..3] == FamilyName(FamilyOf(d));
  }

  /** The reset always lands in the detected stream, keeps a selection
      already in it, and yields one of the programmes offered. */
  lemma NextDegreeTypeFamily(prev: DegreeType, isBcs: bool)
    ensures FamilyOf(NextDegreeType(prev, isBcs)) == StreamFamily(isBcs)
    ensures NextDegreeType(prev, isBcs) == prev <==> FamilyOf(prev) == StreamFamily(isBcs)
    ensures NextDegreeType(prev, isBcs) in AvailablePrograms(isBcs)
  {
    IdPrefix(prev, StreamFamily(isBcs));
    AvailableProgramsMember(isBcs, NextDegreeType(prev, isBcs));
  }

  /** The programmes offered are exactly those of the stream's family. */
  lemma AvailableProgramsMember(isBcs: bool, d: DegreeType)
    ensures d in AvailablePrograms(isBcs) <==> FamilyOf(d) == StreamFamily(isBcs)
  {
    assert d in DegreePrograms();
    FilterMember(DegreePrograms(), p => FamilyOf(p) == StreamFamily(isBcs), d);
  }

  // ---------------------------------------------------------------------
  // Code normalisation
  // ---------------------------------------------------------------------

  /** `norm` ignores case, so the core check does too. */
  lemma NormIgnoresCase(code: string)
    ensures Norm(Upper(code)) == Norm(code)
    ensures IsBcsCore(Upper(code)) == IsBcsCore(code)
  {
    LowerOfUpper(code);
  }

  /** The last step of `norm` on a sequence ending in one character. */
  lemma ReplaceLast(s: string, x: char, a: char, b: char)
    requires a !in s
    ensures ReplaceFirst(s + [x], a, b) == s + [if x == a then b else x]
  {
    ReplaceFirstAfterAbsent(s, [x], a, b);
  }

  /** A code ending in α, β or δ normalises like the same code ending in
      a, b or d, provided nothing before the suffix lower-cases to one of
      the three Greek letters. So the core check treats both spellings
      alike. */
  lemma GreekSuffixAsLatin(p: string, greek: char, latin: char)
    requires (greek == '\U{03b1}' && latin == 'a') || (greek == '\U{03b2}' && latin == 'b')
          || (greek == '\U{03b4}' && latin == 'd')
    requires forall i | 0 <= i < |p| ::
               LowerChar(p[i]) != '\U{03b1}' && LowerChar(p[i]) != '\U{03b2}' && LowerChar(p[i]) != '\U{03b4}'
    ensures Norm(p + [greek]) == Lower(p) + [latin] == Norm(p + [latin])
    ensures IsBcsCore(p + [greek]) == IsBcsCore(p + [latin])
  {
    var lp := Lower(p);
    assert Lower(p + [greek]) == lp + [greek];
    assert Lower(p + [latin]) == lp + [latin];
    assert forall i | 0 <= i < |lp| :: lp[i] == LowerChar(p[i]);
    var x1 := if greek == '\U{03b1}' then 'a' else greek;
    var x2 := if x1 == '\U{03b2}' then 'b' else x1;
    ReplaceLast(lp, greek, '\U{03b1}', 'a');
    ReplaceLast(lp, x1, '\U{03b2}', 'b');
    ReplaceLast(lp, x2, '\U{03b4}', 'd');
    ReplaceLast(lp, latin, '\U{03b1}', 'a');
    ReplaceLast(lp, latin, '\U{03b2}', 'b');
    ReplaceLast(lp, latin, '\U{03b4}', 'd');
  }

  /** MAT112\U{03b4} normalises to mat112d, which is not listed (the list
      has mat112c), so it counts as optional. */
  lemma DeltaSuffixIsOptional()
    ensures Norm("MAT112\U{03b4}") == "mat112d" && !IsBcsCore("MAT112\U{03b4}")
  {
    assert "MAT112\U{03b4}" == "MAT112" + ['\U{03b4}'];
    GreekSuffixAsLatin("MAT112", '\U{03b4}', 'd');
    assert Lower("MAT112") == "mat112";
    Mat112dNotCore();
  }

  lemma Mat112dNotCore()
    ensures "mat112d" !in BcsCoreCodes()
  {
    CoreCodesNotEndingInD();
    assert "mat112d"[6] == 'd';
  }

  /** Every BCS core code has seven characters, and none ends in 'd'. */
  lemma CoreCodesNotEndingInD()
    ensures forall c | c in BcsCoreCodes() :: |c| == 7 && c[6] != 'd'
  {
  }
}
