# Results View with Subject GPAs: a verified model of the dashboard logic

This project models, in Dafny, the computations behind a university student
dashboard. The dashboard shows a student their results, their GPA and their
progress towards a degree. The model covers:

- **Degree requirements** (`DegreeProgress`). From the student's subject
  breakdown, the programme evaluates every requirement of six degree
  variants: BSc general, BSc special selection and completion, BCS general,
  BCS special selection and completion. It covers:
  - credit sums and rounded percentages;
  - English levels and the computer-literacy certificate;
  - the BCS core/optional split;
  - the three honours tiers;
  - the met/unavailable summary;
  - detection of the BCS/BSc stream.
- **Course classifications** (`CourseClassifications`, `CourseRegistry`).
  The handbook registry maps a normalised course code to core/optional and
  theory/practical/combined/project. It is filled by 336 registrations, and
  the last one for a key wins.
- **Grades** (`Grades`): the letter-grade table, the grade options and the
  GPA labels.
- **The small calculators**:
  - course registration: year grouping, credit from a code, the credit bar;
  - the credit progress card;
  - the GPA target planner;
  - the what-if simulator;
  - the class label and class predictor;
  - the filtering before a GPA request on the results page;
  - the parallel subject/grade lists of the GPA calculator.
- **The TTL cache** (`DataCache`), with expiry on read.

The models work as follows:

- Credits, grade points and GPAs are real numbers.
- `Math.round(x)` is `Floor(x + 1/2)`.
- JavaScript's `undefined`/`null` results become `Option`.
- A `parseFloat` that may fail is an `Option<real>` argument, or a `parse`
  function parameter.
- Loops that accumulate or push become `method`s with loop invariants. Each
  is proved equal to a specification function, and the properties are
  proved about that function.
- Each mutable module-level map becomes a `class`: `COURSE_MAP` becomes
  `CourseMap`, and the cache's two maps become `Store`.
- Text operations (`toLowerCase`, `toUpperCase`, `trim`, `\s`, the
  non-global `String.replace`) are in `Text`. Lower- and upper-casing are
  modelled for ASCII and basic Greek letters.
- `filter`, `some`, `find` and index removal are in `Lists`.

Two points where the repository's own expectations and its code part ways
follow the code:

- **English check.** `checkEnglish`
  (src/components/guide/DegreeProgress.tsx:185-190) passes any row whose
  grade point is above 0, so a D passes a level.
- **Family lookups.** src/data/classification.test.ts:5-26 calls the
  lookup with a family argument and expects MAT313β optional for "bcs",
  but `getCourseClassification` (src/data/courseClassifications.ts:521-525)
  takes one argument and has no overrides. MAT313β therefore resolves to
  core/theory whatever the family.

Two quirks of the code are kept as written:

- **MAT112δ in the BCS core.** The BCS core list spells MAT112δ as
  `mat112c`. `norm` turns δ into `d`, so MAT112δ is partitioned as optional
  (`DeltaSuffixIsOptional`).
- **Two normalisers.** `norm` in the degree engine keeps white space and
  leaves ε alone. The registry's `n` removes white space and maps ε.

## Model

| member | source | states |
|---|---|---|
| DegreeProgress.Norm | src/components/guide/DegreeProgress.tsx:144-150 | normalising keeps the code's length (the Greek letters are replaced one for one) |
| DegreeProgress.NormIgnoresCase | src/components/guide/DegreeProgress.tsx:144-152 | normalisation and BCS-core membership do not depend on letter case |
| DegreeProgress.GreekSuffixAsLatin | src/components/guide/DegreeProgress.tsx:144-152 | a code ending in α, β or δ normalises to the same key as the code ending in a, b or d, and is core for both or for neither |
| DegreeProgress.DeltaSuffixIsOptional | src/components/guide/DegreeProgress.tsx:111-155 | MAT112δ normalises to `mat112d`, which the core list (spelling it `mat112c`) does not hold, so it is optional |
| DegreeProgress.CreditSum | src/components/guide/DegreeProgress.tsx:163-171 | the credits with a minimum grade point are never negative |
| DegreeProgress.TotalCredit | src/components/guide/DegreeProgress.tsx:173-177 | the total credit is never negative |
| DegreeProgress.CreditsWithMinGrade | src/components/guide/DegreeProgress.tsx:163-171 | the accumulating loop returns the sum of the credits of rows with credit > 0 and grade point ≥ minGS |
| DegreeProgress.TotalCredits | src/components/guide/DegreeProgress.tsx:173-177 | the loop returns the credit of all rows with credit > 0 |
| DegreeProgress.CreditsWithGradeA | src/components/guide/DegreeProgress.tsx:211-216 | the loop returns the credits earned at grade point 3.7 or more |
| DegreeProgress.CreditsWithGradeB | src/components/guide/DegreeProgress.tsx:218-223 | the loop returns the credits earned at grade point 2.7 or more |
| DegreeProgress.CreditSumAtMostTotal | src/components/guide/DegreeProgress.tsx:163-177 | credits at any minimum grade never exceed the total credit |
| DegreeProgress.CreditSumAntitone | src/components/guide/DegreeProgress.tsx:163-171 | raising the minimum grade never increases the credit sum |
| DegreeProgress.SumsCountCreditRowsOnly | src/components/guide/DegreeProgress.tsx:163-177 | both sums are unchanged when the rows without credit are dropped first |
| DegreeProgress.TotalCreditZeroIff | src/components/guide/DegreeProgress.tsx:173-177 | the total is 0 exactly when no row carries positive credit |
| DegreeProgress.TotalCreditSnoc | src/components/guide/DegreeProgress.tsx:173-177 | one more row adds its credit if positive and nothing otherwise |
| DegreeProgress.RoundMonotone | src/components/guide/DegreeProgress.tsx:179-183 | rounding half up is monotone |
| DegreeProgress.PctWithGrade | src/components/guide/DegreeProgress.tsx:179-183 | the rounded percentage lies in [0, 100] and is 0 when the total credit is 0 |
| DegreeProgress.PctBounds | src/components/guide/DegreeProgress.tsx:179-183 | a rounded share of a positive whole lies in [0, 100] |
| DegreeProgress.PctWithGradeAntitone | src/components/guide/DegreeProgress.tsx:179-183 | the percentage never increases as the minimum grade rises |
| DegreeProgress.GradeACreditsAtMostGradeB | src/components/guide/DegreeProgress.tsx:211-223 | credits at grade A never exceed credits at grade B |
| DegreeProgress.NumberText | src/components/guide/DegreeProgress.tsx:185-190 | the text of the English level is a non-empty run of decimal digits with no leading zero |
| DegreeProgress.NumberTextRoundTrip | src/components/guide/DegreeProgress.tsx:185-190 | reading the printed digits back as a decimal number gives the level |
| DegreeProgress.PartitionBcs | src/components/guide/DegreeProgress.tsx:226-235 | the pushing loop yields exactly the core rows and exactly the optional rows, each in input order |
| DegreeProgress.SplitBcsCore | src/components/guide/DegreeProgress.tsx:237-248 | the loop yields the CSC/COM rows, the MAT/AMT/IMT rows that are not CSC/COM, and the rest, each in order |
| DegreeProgress.BcsPartitionCovers | src/components/guide/DegreeProgress.tsx:226-235 | every credit subject lands in exactly one of core and optional, as often as it occurs |
| DegreeProgress.SplitBcsCoreCovers | src/components/guide/DegreeProgress.tsx:237-248 | the three parts together are exactly the core, each row as often as it occurs |
| DegreeProgress.CsNotMath | src/components/guide/DegreeProgress.tsx:237-248 | no code has both a CS and a maths prefix, so the CS test taking precedence loses nothing |
| DegreeProgress.SpecialSelectionLists | src/components/guide/DegreeProgress.tsx:561-568 | `allCs` and `allMaths` are, up to order, exactly the credit subjects with CS and with maths prefixes |
| DegreeProgress.CreditSubjectsMember | src/components/guide/DegreeProgress.tsx:268-274 | a row is a credit subject exactly when its credit is > 0 and its upper-cased code is not non-degree |
| DegreeProgress.EnglishCountsNonCreditRows | src/components/guide/DegreeProgress.tsx:268-274 | the English check sees rows that are not credit subjects: such a row can pass a level |
| DegreeProgress.FindSubjectFirst | src/components/guide/DegreeProgress.tsx:199-209 | the keyword lookup returns the first row matching a keyword in name or code, case-insensitively, and nothing exactly when no row matches |
| DegreeProgress.YearLevelMember | src/components/guide/DegreeProgress.tsx:192-197 | a row whose code is ASCII letters, then a non-letter `c`, then anything, is in the year level of `d` exactly when it is one of the subjects and `c` is `d` |
| DegreeProgress.LettersOnlyInNoYear | src/components/guide/DegreeProgress.tsx:192-197 | a code of letters only leaves nothing after the strip, so it belongs to no year level |
| DegreeProgress.YearLevelKeepsOrder | src/components/guide/DegreeProgress.tsx:192-197 | the year level of a concatenation is the concatenation of the year levels, so input order is kept |
| DegreeProgress.BuildRequirements | src/components/guide/DegreeProgress.tsx:261-714 | the built list is the programme's base requirements followed by the three honours tiers, over the credit subjects and their core/optional split |
| DegreeProgress.BscListEntries | src/components/guide/DegreeProgress.tsx:316-498 | in each BSc variant's list, each computable entry is met exactly when current ≥ target, and none is an honours tier |
| DegreeProgress.BcsListEntries | src/components/guide/DegreeProgress.tsx:499-676 | in each BCS variant's list, each computable entry is met exactly when current ≥ target, and none is an honours tier |
| DegreeProgress.BaseEntries | src/components/guide/DegreeProgress.tsx:316-676 | every base requirement of every programme has met ⇔ current ≥ target and is not an honours entry |
| DegreeProgress.MissingGradedUnit | src/components/guide/DegreeProgress.tsx:450-456 | a missing research project or industry placement gives current 0 and is not met |
| DegreeProgress.BaseShape | src/components/guide/DegreeProgress.tsx:316-676 | per variant: the base list length, its unavailable positions (none for BCS), and a trailing CLC entry exactly for BSc general/completion students without a CSC/COM credit subject |
| DegreeProgress.HonoursLast | src/components/guide/DegreeProgress.tsx:681-711 | the last three entries are always the three honours tiers over the GPA and the credits at 3.7 and 2.7 |
| DegreeProgress.HonoursNested | src/components/guide/DegreeProgress.tsx:681-711 | tier 1 met implies tier 2 met, and tier 2 met implies tier 3 met |
| DegreeProgress.HonoursExample | src/components/guide/DegreeProgress.tsx:681-711 | GPA 3.35 with 45 credits at B meets tiers 2 and 3 but not tier 1 |
| DegreeProgress.RequirementsLength | src/components/guide/DegreeProgress.tsx:261-714 | the full list is the base length, plus 1 for a CLC entry, plus 3 |
| DegreeProgress.HonoursLabelText | src/components/guide/DegreeProgress.tsx:892-894 | a label starts with "1st Class" or "2nd" exactly when it is an honours tier's |
| DegreeProgress.HonoursPrefix | src/components/guide/DegreeProgress.tsx:892-894 | each honours label starts with "1st Class" or "2nd" |
| DegreeProgress.NameHead | src/components/guide/DegreeProgress.tsx:892-894 | no other label starts with '1' or '2', so none is mistaken for an honours tier |
| DegreeProgress.Summarize | src/components/guide/DegreeProgress.tsx:892-910 | met ≤ computable, computable + unavailable = the base entries, the overall percentage lies in [0, 100], is 0 without computable entries and 100 when all are met |
| DegreeProgress.PctOfCounts | src/components/guide/DegreeProgress.tsx:907-910 | the rounded share of met entries lies in [0, 100] and is 100 when all are met |
| DegreeProgress.FilterUnavailableSplit | src/components/guide/DegreeProgress.tsx:898-906 | computable and unavailable base entries together count every base entry |
| DegreeProgress.SummarySplit | src/components/guide/DegreeProgress.tsx:892-896 | the honours filter separates the built list exactly into the base list and the three tiers |
| DegreeProgress.SplitHonours | src/components/guide/DegreeProgress.tsx:892-896 | filtering a non-honours list followed by an honours list gives back the two lists |
| DegreeProgress.BcsSummaryAllComputable | src/components/guide/DegreeProgress.tsx:892-910 | for a BCS programme no base entry is unavailable, and the computable count is the base length |
| DegreeProgress.DetectBcs | src/components/guide/DegreeProgress.tsx:844-867 | the detection returns true exactly for a CS department, or for more than 40% of the credit in CSC/COM subjects |
| DegreeProgress.CsAndTotalCredits | src/components/guide/DegreeProgress.tsx:856-862 | the loop returns the total credit and the CSC/COM credit of the credit subjects |
| DegreeProgress.AllCsIsBcs | src/components/guide/DegreeProgress.tsx:844-867 | a student whose credit subjects are all CSC/COM is in the BCS stream |
| DegreeProgress.AllCsMostlyCs | src/components/guide/DegreeProgress.tsx:863 | all-CS credit is more than 40% CS |
| DegreeProgress.NoCsIsBsc | src/components/guide/DegreeProgress.tsx:844-867 | without a CS department or any CSC/COM credit subject the stream is BSc |
| DegreeProgress.IdPrefix | src/components/guide/DegreeProgress.tsx:876-883 | a programme identifier starts with its own family's name and not the other's |
| DegreeProgress.NextDegreeTypeFamily | src/components/guide/DegreeProgress.tsx:869-883 | after a stream change the selection is in the stream's family and offered; it is kept exactly when already in that family |
| DegreeProgress.AvailableProgramsMember | src/components/guide/DegreeProgress.tsx:869-872 | the programmes offered are exactly those of the detected family |
| CourseClassifications.Normalize | src/data/courseClassifications.ts:23-31 | the key is as long as the code with its white space removed |
| CourseClassifications.CourseMap.constructor | src/data/courseClassifications.ts:36 | the map starts empty |
| CourseClassifications.CourseMap.Reg | src/data/courseClassifications.ts:38-40 | a registration sets the normalised key to its classification and changes nothing else |
| CourseClassifications.BuildCourseMap | src/data/courseClassifications.ts:36-40 | registering a list in order leaves the map with the last registration for each key |
| CourseClassifications.GetCourseClassification | src/data/courseClassifications.ts:521-525 | defined exactly for a registered normalised key, with that key's classification |
| CourseClassifications.NormalizeIgnoresCaseAndSpace | src/data/courseClassifications.ts:23-31 | upper-casing, lower-casing or removing spaces first gives the same key |
| CourseClassifications.ReplaceGreekCounts | src/data/courseClassifications.ts:27-30 | each Greek credit letter loses at most one occurrence, because `replace` is not global |
| CourseClassifications.NormalizedIsFolded | src/data/courseClassifications.ts:23-31 | every key is lower-case and free of white space |
| CourseClassifications.NormalizeIdempotentIff | src/data/courseClassifications.ts:23-31 | normalising twice equals normalising once exactly when no Greek credit letter occurs twice |
| CourseClassifications.NormalizeKeepsPrefix | src/data/courseClassifications.ts:23-31 | a code starting with an ASCII letters-and-digits prefix has a key starting with that prefix lower-cased |
| CourseClassifications.Mat313bSpellings | src/data/classification.test.ts:23-26 | MAT313β, mat313β and MAT313B all normalise to `mat313b` |
| CourseClassifications.LastRegistrationWins | src/data/courseClassifications.ts:38-40 | a registration not followed by one for the same key decides that key |
| CourseClassifications.RegisteredAppendAbsent | src/data/courseClassifications.ts:38-40 | later registrations of other keys leave a key as it was |
| CourseClassifications.RegisteredSuffixWins | src/data/courseClassifications.ts:38-40 | a key registered in a later block takes that block's value |
| CourseClassifications.RegisteredKeys | src/data/courseClassifications.ts:38-40 | the map's keys are exactly the normalised registered codes |
| CourseClassifications.RegisteredSizeBound | src/data/courseClassifications.ts:580 | the map has at most as many keys as registrations |
| CourseClassifications.RegisteredSizeBelowCalls | src/data/courseClassifications.ts:580 | two registrations of one key make the map strictly smaller than the number of registrations |
| CourseClassifications.RegisteredSizeBelowCallsOnClash | src/data/courseClassifications.ts:580 | the same, for two distinct registrations with one key |
| CourseClassifications.UnknownCourse | src/data/courseClassifications.ts:521-577 | for an unregistered code the lookup is undefined and every predicate is false |
| CourseClassifications.KnownIffDefined | src/data/courseClassifications.ts:521-560 | a code is known exactly when its lookup is defined |
| CourseClassifications.TypeExclusive | src/data/courseClassifications.ts:528-535 | a known code is core or optional, never both |
| CourseClassifications.NatureExclusive | src/data/courseClassifications.ts:537-555 | a known code has exactly one of the four natures |
| CourseClassifications.Components | src/data/courseClassifications.ts:567-577 | theory component ⇔ theory or combined; practical component ⇔ practical, combined or project; every known code has one; only combined has both |
| CourseClassifications.LookupIgnoresCaseAndSpace | src/data/courseClassifications.ts:521-525 | a lookup does not depend on case or spaces in the code |
| CourseRegistry.LastSectionWins | src/data/courseClassifications.ts:38-40 | a key registered in one block and in no later block keeps that block's value |
| CourseRegistry.MathematicsGeneralMat313b | src/data/courseClassifications.ts:303 | the mathematics block registers MAT313β as core/theory |
| CourseRegistry.Mat313bResolvesToCoreTheory | src/data/courseClassifications.ts:92-303 | MAT313β, registered optional/combined and later core/theory, resolves to core/theory |
| CourseRegistry.TotalBelowRegistrations | src/data/courseClassifications.ts:580 | `TOTAL_CLASSIFIED_COURSES` is the number of distinct normalised codes, fewer than the registrations |
| Grades.Keys | src/constants/grades.ts:26 | the key list has one key per entry, in entry order |
| Grades.LookupFindsEntry | src/constants/grades.ts:5-23 | a lookup is undefined exactly for a key not in the table, and otherwise finds an entry of the table |
| Grades.LookupMissing | src/constants/grades.ts:5-23 | a key no entry carries is not found |
| Grades.LookupIffEntry | src/constants/grades.ts:5-23 | with distinct keys, a lookup returns p exactly when (g, p) is an entry |
| Grades.GradeScaleDistinct | src/constants/grades.ts:5-23 | the 17 grade keys are distinct |
| Grades.GradePointIffEntry | src/constants/grades.ts:5-23 | `GRADE_SCALE[g] === p` holds exactly for the table's entries |
| Grades.GradePointsInRange | src/constants/grades.ts:5-23 | every grade point lies in [0, 4] |
| Grades.GradeOptionsAreKeys | src/constants/grades.ts:26 | the options are exactly the defined grades, 17 of them |
| Grades.EmptyGradeUnknown | src/constants/grades.ts:5-23 | the empty (unselected) grade has no point |
| Grades.SampleGradePoints | src/__tests__/grades.test.ts:5-19 | A+ and A are 4.0, B+ is 3.3, C is 2.0 |
| Grades.ZeroGradePoints | src/__tests__/grades.test.ts:21-27 | F, MC and every E variant are 0.0 |
| Grades.MainGradesDescending | src/__tests__/grades.test.ts:29-41 | A+ ≥ A, then the points strictly decrease through A-, B+, B, B-, C+, C, C-, D+, D, F |
| Grades.GpaLabelFacts | src/constants/grades.ts:28-37 | there are 7 distinct labels, among them the overall and the CS GPA |
| CourseRegistration.ExtractYear | src/pages/CourseRegistration.tsx:27-30 | the year is a single digit |
| CourseRegistration.ExtractYearOfCode | src/pages/CourseRegistration.tsx:27-30 | after the leading ASCII letters, the next digit's value is the year |
| CourseRegistration.ExtractYearWithoutDigit | src/pages/CourseRegistration.tsx:27-30 | without a digit after the letters the year is 0 |
| CourseRegistration.ExtractYearExamples | src/pages/CourseRegistration.tsx:27-30 | CSC1113 is year 1 and MAT313β year 3 |
| CourseRegistration.GroupByYear | src/pages/CourseRegistration.tsx:33-43 | the pushing loop and the sort give the year groups in ascending year order |
| CourseRegistration.EntriesAreGroups | src/pages/CourseRegistration.tsx:39-42 | sorting the entries of the loop's record gives the year groups from the given year on |
| CourseRegistration.GroupsFromAscending | src/pages/CourseRegistration.tsx:39-42 | the groups are in strictly ascending year order |
| CourseRegistration.GroupsFromComplete | src/pages/CourseRegistration.tsx:33-43 | every non-empty year has its group |
| CourseRegistration.YearGroupsWellFormed | src/pages/CourseRegistration.tsx:33-43 | every group is non-empty, holds exactly its year's courses in input order, and the years strictly ascend |
| CourseRegistration.CourseInExactlyOneGroup | src/pages/CourseRegistration.tsx:33-43 | every course is in a group, and only in the group of its own year |
| CourseRegistration.ToggleYear | src/pages/CourseRegistration.tsx:106-113 | toggling flips the membership of that year only |
| CourseRegistration.ToggleTwice | src/pages/CourseRegistration.tsx:106-113 | toggling twice restores the open years |
| CourseRegistration.InitialOpenYearsAreGroupYears | src/pages/CourseRegistration.tsx:99-104 | the years opened once data loads are exactly the years of the groups |
| CourseRegistration.CreditFromCodeRange | src/pages/CourseRegistration.tsx:46-54 | the credit lies in [0, 6] and depends only on the last character |
| CourseRegistration.GreekAndLatinAgree | src/pages/CourseRegistration.tsx:46-54 | α and a give 1.5, β and b 2.5, δ and d 1.25 |
| CourseRegistration.DigitSuffixCredit | src/pages/CourseRegistration.tsx:46-54 | a final digit 0-6 gives its value, 7-9 give 0 |
| CourseRegistration.NonDegreeIgnoresCase | src/pages/CourseRegistration.tsx:116-118 | non-degree membership compares upper-cased codes, so the code's case does not matter |
| CourseRegistration.RegistrationProgress | src/pages/CourseRegistration.tsx:121-124 | the bar is at most 100%, the remaining credit is never negative and is 0 exactly when the target is reached |
| CourseRegistration.CompletedIffFull | src/pages/CourseRegistration.tsx:121-124 | the "completed" message shows exactly when the bar is full, that is when the target is reached |
| CreditProgress.Pct | src/components/dashboard/CreditProgress.tsx:16 | the percentage is at most 100, non-negative for non-negative credits, and 100 exactly when the target is reached |
| CreditProgress.ShareReachesTarget | src/components/dashboard/CreditProgress.tsx:16 | the raw share reaches 100% exactly when the credits reach the target |
| CreditProgress.Remaining | src/components/dashboard/CreditProgress.tsx:17 | the remaining credit is ≥ 0, 0 exactly when the target is reached, and fills the gap to the target |
| CreditProgress.FullIffNothingRemaining | src/components/dashboard/CreditProgress.tsx:16-17 | the bar is full exactly when nothing remains |
| CreditProgress.ProgressMonotone | src/components/dashboard/CreditProgress.tsx:16-17 | more credit never lowers the bar nor raises the remainder |
| CreditProgress.BarColorBands | src/components/dashboard/CreditProgress.tsx:19-20 | emerald ⇔ pct ≥ 80, amber ⇔ 50 ≤ pct < 80, red ⇔ pct < 50; the colour is monotone in pct |
| CreditProgress.CompletedIsEmerald | src/components/dashboard/CreditProgress.tsx:16-20 | a reached target shows emerald |
| CreditProgress.CreditProgressCard | src/components/dashboard/CreditProgress.tsx:12-20 | nothing is shown exactly when the credits (missing as 0) are 0; otherwise the bounds above hold |
| GpaTargetPlanner.Abs | src/components/dashboard/GpaTargetPlanner.tsx:15 | the distance is non-negative and is x or -x |
| GpaTargetPlanner.Max | src/components/dashboard/GpaTargetPlanner.tsx:34 | the larger of the two |
| GpaTargetPlanner.ClosestUnique | src/components/dashboard/GpaTargetPlanner.tsx:10-22 | at most one position is the closest grade (first minimal non-MC distance) |
| GpaTargetPlanner.ClosestIn | src/components/dashboard/GpaTargetPlanner.tsx:10-22 | the loop returns the first non-MC grade with minimal distance, or "A+" if every grade is MC |
| GpaTargetPlanner.ClosestGrade | src/components/dashboard/GpaTargetPlanner.tsx:10-22 | over the grade table, the result is the closest grade |
| GpaTargetPlanner.ClosestToTop | src/components/dashboard/GpaTargetPlanner.tsx:10-22 | the closest grade to 4.0 is A+ (the tie with A goes to the earlier key) |
| GpaTargetPlanner.ClosestToZero | src/components/dashboard/GpaTargetPlanner.tsx:10-22 | the closest grade to 0 is E |
| GpaTargetPlanner.RequiredAvg | src/components/dashboard/GpaTargetPlanner.tsx:40-42 | currentGP + requiredAvg·remaining = target·(current + remaining) |
| GpaTargetPlanner.RequiredAvgUnique | src/components/dashboard/GpaTargetPlanner.tsx:40-49 | it is the only such average; it exceeds 4 exactly when even straight 4.0s miss the target, and is negative exactly when the target is already passed |
| GpaTargetPlanner.RequiredAvgMonotone | src/components/dashboard/GpaTargetPlanner.tsx:40-42 | a higher target never needs a lower average |
| GpaTargetPlanner.RemainingCredits | src/components/dashboard/GpaTargetPlanner.tsx:34 | the remainder is ≥ 0 and ≥ the gap, and positive exactly when the degree credits are not yet reached |
| GpaTargetPlanner.Plan | src/components/dashboard/GpaTargetPlanner.tsx:36-57 | none for an unparsable target or no credits remaining; impossible ⇔ avg > 4 (with A+); achieved ⇔ avg < 0 (reported 0); else 0 ≤ avg ≤ 4 with its closest grade |
| GpaTargetPlanner.PlannerView | src/components/dashboard/GpaTargetPlanner.tsx:28-59 | nothing is rendered exactly when the current credits (missing as 0) are 0 |
| WhatIfSimulator.InitialRows | src/components/dashboard/WhatIfSimulator.tsx:20 | one blank row, 3 credits and no grade |
| WhatIfSimulator.AddRow | src/components/dashboard/WhatIfSimulator.tsx:25-26 | a blank row is appended and earlier rows are unchanged |
| Lists.RemoveAt | src/components/dashboard/WhatIfSimulator.tsx:28-29 | exactly the element at idx is removed, the others keep their order; out of range nothing changes |
| WhatIfSimulator.UpdateRow | src/components/dashboard/WhatIfSimulator.tsx:31-34 | only row idx changes, and only in the named field |
| WhatIfSimulator.RowCredits | src/components/dashboard/WhatIfSimulator.tsx:42-47 | a row adds positive credit exactly when it counts (credits parse > 0, grade in the table) |
| WhatIfSimulator.RowGP | src/components/dashboard/WhatIfSimulator.tsx:42-47 | a row adds between 0 and 4 points per credit |
| WhatIfSimulator.AddedCredits | src/components/dashboard/WhatIfSimulator.tsx:37-48 | the added credits are never negative |
| WhatIfSimulator.AddedGP | src/components/dashboard/WhatIfSimulator.tsx:37-48 | the added grade points lie between 0 and 4 times the added credits |
| WhatIfSimulator.AddedCreditsZero | src/components/dashboard/WhatIfSimulator.tsx:37-48 | no credits are added exactly when no row counts, and then no points are |
| WhatIfSimulator.Project | src/components/dashboard/WhatIfSimulator.tsx:37-58 | the loop returns nothing exactly when the combined credits are 0, and otherwise the sums and the GPA = combined points / combined credits |
| WhatIfSimulator.CurrentGpa | src/components/dashboard/WhatIfSimulator.tsx:60-61 | the current GPA is points / credits, or 0 without credits |
| WhatIfSimulator.ProjectionWithoutRows | src/components/dashboard/WhatIfSimulator.tsx:50-61 | with no counted row the projection is the current GPA |
| WhatIfSimulator.ProjectionInRange | src/components/dashboard/WhatIfSimulator.tsx:50-57 | projecting from a valid record gives a GPA in [0, 4] |
| WhatIfSimulator.BlankRowIgnored | src/components/dashboard/WhatIfSimulator.tsx:20-44 | a freshly added row (no grade) never counts |
| WhatIfSimulator.AddRowKeepsTotals | src/components/dashboard/WhatIfSimulator.tsx:25-48 | adding a row leaves the projection's sums unchanged |
| HeroSection.GetClassLabel | src/components/home/HeroSection.tsx:13-19 | First Class ⇔ ≥ 3.7, Second Upper ⇔ [3.3, 3.7), Second Lower ⇔ [3.0, 3.3), General Pass ⇔ [2.0, 3.0), Below Pass ⇔ < 2.0 |
| HeroSection.ClassLabelMonotone | src/components/home/HeroSection.tsx:13-19 | a higher GPA never yields a lower band |
| HeroSection.ClassLabel | src/components/home/HeroSection.tsx:28-29 | no label exactly when the GPA is missing, unparsable or ≤ 0; otherwise its band |
| HeroSection.BandsMatchHonoursTiers | src/components/home/HeroSection.tsx:14-16 | with 40 credits at A and B, each honours tier of the degree engine is met exactly when the band is at least that tier |
| ClassPredictor.IndexOf | src/components/dashboard/ClassPredictor.tsx:44-46 | `indexOf` gives the first position of the element, or the length when absent |
| ClassPredictor.CurrentIdxIsFirstReached | src/components/dashboard/ClassPredictor.tsx:42-46 | the current index is the first reached cutoff, or the list length when none is reached |
| ClassPredictor.GapPositive | src/components/dashboard/ClassPredictor.tsx:42-48 | a next class exists exactly when the index is positive, and its gap is then positive, whatever the cutoff order |
| ClassPredictor.Predict | src/components/dashboard/ClassPredictor.tsx:38-51 | nothing for an unparsable GPA; "Below Pass" and gray without a matching cutoff, otherwise that cutoff's name and colour; the next class is the cutoff just before the current index, and the gap is its minimum minus the GPA, always positive |
| ClassPredictor.BelowEveryCutoff | src/components/dashboard/ClassPredictor.tsx:42-47 | below every cutoff the index is the length and the next class is the last cutoff |
| ResultsPage.InitialGrades | src/pages/Results.tsx:71-77 | the `forEach` loop builds the map from each repeated code to its latest grade |
| ResultsPage.GradesOfEntries | src/pages/Results.tsx:71-77 | the map's keys are exactly the repeated codes, and each maps to the grade of its last entry |
| ResultsPage.HandleGradeChange | src/pages/Results.tsx:94-96 | the given code gets the new grade and every other code keeps its own |
| ResultsPage.KeptSubjectsExact | src/pages/Results.tsx:101-104 | a subject is kept exactly when it has a non-space character |
| ResultsPage.KeptGradesMember | src/pages/Results.tsx:105-109 | a grade is kept exactly when it and the subject at its index are both non-blank |
| ResultsPage.KeptGradesAtMostSubjects | src/pages/Results.tsx:101-109 | no more grades are kept than non-blank subjects at the grades' positions; blank grades past the last subject are dropped by the short-circuit |
| ResultsPage.KeptGradesBounded | src/pages/Results.tsx:101-109 | with aligned lists, no more grades are kept than subjects |
| ResultsPage.RepeatedLists | src/pages/Results.tsx:112-120 | empty unless repeated subjects are included and present; otherwise the codes in order and each code's edited grade |
| ResultsPage.GpaSubmission | src/pages/Results.tsx:99-128 | no request exactly when both subject lists are empty; otherwise the filtered manual and repeated lists |
| GpaCalculator.AddSubjectField | src/components/dashboard/GpaCalculator.tsx:21-29 | an empty subject and grade are appended, keeping the lists aligned |
| GpaCalculator.RemoveSubjectField | src/components/dashboard/GpaCalculator.tsx:31-39 | the same index leaves both lists, the rest keep their order, the lists stay aligned |
| GpaCalculator.UpdateSubject | src/components/dashboard/GpaCalculator.tsx:41-48 | only position index of the subjects changes; the grades are untouched |
| GpaCalculator.UpdateGrade | src/components/dashboard/GpaCalculator.tsx:50-57 | only position index of the grades changes; the subjects are untouched |
| GpaCalculator.FirstRowStays | src/components/dashboard/GpaCalculator.tsx:160-168 | the remove buttons never remove the first row |
| GpaCalculator.AddThenRemove | src/components/dashboard/GpaCalculator.tsx:21-39 | adding a row and removing it restores the form |
| DataCache.ReadResult | src/services/dataCache.ts:37-45 | a read returns data exactly for a present key with now − timestamp ≤ ttl, and then the stored data |
| DataCache.AfterRead | src/services/dataCache.ts:40-43 | a read deletes its key exactly when the entry is stale, and changes no other key |
| DataCache.ReadIdempotent | src/services/dataCache.ts:37-45 | reading twice at one time gives the same result and state as reading once |
| DataCache.StoredThenRead | src/services/dataCache.ts:37-49 | data stored at time t is read back exactly while now − t ≤ ttl |
| DataCache.ExpiryIsPermanent | src/services/dataCache.ts:37-45 | once a read misses, later reads miss too |
| DataCache.Store.constructor | src/services/dataCache.ts:28-29 | both stores start empty |
| DataCache.Store.GetCached | src/services/dataCache.ts:31-45 | returns the read result and deletes a stale entry; the in-flight keys are unchanged; the TTL defaults to five minutes |
| DataCache.Store.SetCached | src/services/dataCache.ts:47-49 | overwrites only its key, with the data and the current time |
| DataCache.Store.ClearCache | src/services/dataCache.ts:51-54 | both the cache and the in-flight map are emptied |
| DataCache.ResultsKey | src/services/dataCache.ts:91 | the results key is `results:` followed by the two parts joined by a colon |
| DataCache.ResultsKeyNotFixed | src/services/dataCache.ts:90-96 | no results key equals one of the fixed keys |
| DataCache.ResultsKeyInjective | src/services/dataCache.ts:91 | student numbers without a colon give distinct keys for distinct requests |
| Text.ReplaceFirstCount | src/data/courseClassifications.ts:27-30 | a non-global replace removes exactly one occurrence when there is one |
| Text.TrimEmptyIffBlank | src/pages/Results.tsx:103 | a trimmed string is empty exactly when it is all white space |
| Lists.FindFirst | src/components/dashboard/ClassPredictor.tsx:42 | `find` returns the first element that satisfies the test, and nothing exactly when none does |

## Left out

- ResultsPage.KeptGrades: requires every grade past the last subject to be blank. A non-blank one makes the source's `subjects[i].trim()` throw, and the model has no exceptions. GpaCalculator keeps the two lists the same length, so the case does not arise from the form.
- Rendering is not modelled: JSX, cards, colours as CSS classes, animation, `toFixed` formatting, `detail` strings and the requirement reason texts. The reasons are an enumeration, and labels and units are enumerations with their texts.
- `DEGREE_CREDIT_TARGETS` and `CLASS_CUTOFFS` are not defined in `src/constants/grades.ts`. The credit target and the cutoff list are parameters.
- `parseFloat` and `isNaN` are not modelled beyond "parses or not": a parsed value is an `Option<real>`, or the what-if rows take a `parse` function.
- IEEE floating point is not modelled; all arithmetic is on exact reals.
- `Date.now()` is an explicit `now` argument.
- `dedupFetch` is not modelled, because it shares in-flight promises between concurrent callers. The in-flight map is modelled by its key set, which only `clearCache` touches here.
- Network and storage I/O (`services/api.ts`, the auth context, `loadResults`, `loadData`) is not modelled. Its results are the inputs of the model.
- `RegisteredCourse` is not declared in the shown types; it is defined from its use (code, name, confirmation).
- The "Confirmed" badge of a registered course is rendering and is not modelled. Its test `confirmation.toLowerCase().includes("confirmed")` also accepts "Unconfirmed".
- GpaCalculator.UpdateSubject: requires an index in range. An out-of-range index would make the JavaScript array longer (with holes), which the sequence model does not represent.
- GpaCalculator.UpdateGrade: requires an index in range, for the same reason.
- Text.LowerChar: covers ASCII and the basic Greek letters only; other Unicode case mappings of `toLowerCase` are not modelled (Text.UpperChar likewise).
- Family-specific classification overrides are not modelled, because the implementation has none. The test file's two-argument calls ignore the second argument.
