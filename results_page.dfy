/** The results page's GPA form: the editable grades of repeated
    subjects, and the filtering of the manual and repeated subject lists
    before a GPA calculation is requested. */
module ResultsPage {
  import opened Common
  import opened Text
  import opened Lists

  /** A repeated subject with the grade of its latest attempt. */
  datatype RepeatedSubject = RepeatedSubject(subjectCode: string, latestGrade: string)

  // ---------------------------------------------------------------------
  // Editable grades
  // ---------------------------------------------------------------------

  /** The record `initialGrades` ends up as: every subject's code mapped
      to its latest grade, later subjects overwriting earlier ones. */
  function GradesOf(rs: seq<RepeatedSubject>): map<string, string> {
    if rs == [] then map[]
    else GradesOf(rs[..|rs| - 1])[rs[|rs| - 1].subjectCode := rs[|rs| - 1].latestGrade]
  }

  /** `initialGrades`, built by a `forEach` writing into the record. */
  method InitialGrades(rs: seq<RepeatedSubject>) returns (m: map<string, string>)
    ensures m == GradesOf(rs)
  {
    m := map[];
    var i := 0;
    while i < |rs|
      invariant 0 <= i <= |rs|
      invariant m == GradesOf(rs[..i])
    {
      assert rs[..i + 1][..i] == rs[..i];
      m := m[rs[i].subjectCode := rs[i].latestGrade];
      i := i + 1;
    }
    assert rs[..i] == rs;
  }

  /** The record holds exactly the codes of the repeated subjects, each
      with the grade of its last occurrence in the list. */
  lemma {:induction false} GradesOfEntries(rs: seq<RepeatedSubject>, code: string)
    ensures code in GradesOf(rs) <==> exists i :: 0 <= i < |rs| && rs[i].subjectCode == code
    ensures forall i | 0 <= i < |rs| && rs[i].subjectCode == code
                       && (forall j :: i < j < |rs| ==> rs[j].subjectCode != code) ::
              code in GradesOf(rs) && GradesOf(rs)[code] == rs[i].latestGrade
  {
    if rs != [] {
      var init := rs[..|rs| - 1];
      GradesOfEntries(init, code);
      assert forall i :: 0 <= i < |init| ==> init[i] == rs[i];
    }
  }

  /** `handleGradeChange`: only the given code's grade changes. */
  function HandleGradeChange(grades: map<string, string>, code: string, grade: string): (r: map<string, string>)
    ensures r.Keys == grades.Keys + {code} && r[code] == grade
    ensures forall k | k in grades && k != code :: r[k] == grades[k]
  {
    grades[code := grade]
  }

  // ---------------------------------------------------------------------
  // Filtering before submission
  // ---------------------------------------------------------------------

  predicate NonBlank(s: string) { Trim(s) != "" }

  /** The manual subjects that are not blank after trimming, in order. */
  function KeptSubjects(subjects: seq<string>): seq<string> {
    Filter(subjects, NonBlank)
  }

  function Min(a: nat, b: nat): nat { if a <= b then a else b }

  /** Every grade past the last subject is blank. The grade test runs
      first and short-circuits, so a blank grade without a subject is
      dropped; a non-blank one would make `subjects[i].trim()` throw. */
  predicate BlankPastSubjects(subjects: seq<string>, grades: seq<string>) {
    forall i | |subjects| <= i < |grades| :: !NonBlank(grades[i])
  }

  /** The manual grades at positions where both the grade and the subject
      are non-blank, in order. */
  function KeptGrades(subjects: seq<string>, grades: seq<string>): seq<string>
    requires BlankPastSubjects(subjects, grades)
  {
    if grades == [] then []
    else
      var n := |grades| - 1;
      KeptGrades(subjects, grades[..n]) + (if NonBlank(grades[n]) && NonBlank(subjects[n]) then [grades[n]] else [])
  }

  /** A grade survives exactly when it and its subject are non-blank. */
  lemma {:induction false} KeptGradesMember(subjects: seq<string>, grades: seq<string>, g: string)
    requires BlankPastSubjects(subjects, grades)
    ensures g in KeptGrades(subjects, grades) <==>
              exists i :: 0 <= i < |grades| && grades[i] == g && NonBlank(g) && NonBlank(subjects[i])
  {
    if grades != [] {
      var n := |grades| - 1;
      KeptGradesMember(subjects, grades[..n], g);
      assert forall i :: 0 <= i < n ==> grades[..n][i] == grades[i];
    }
  }

  /** Only a subject's kept grade can be kept, so there are never more
      kept grades than kept subjects among the grades' positions: a
      subject with a blank grade keeps the subject and drops the grade. */
  lemma {:induction false} KeptGradesAtMostSubjects(subjects: seq<string>, grades: seq<string>)
    requires BlankPastSubjects(subjects, grades)
    ensures |KeptGrades(subjects, grades)| <= |KeptSubjects(subjects[..Min(|grades|, |subjects|)])|
  {
    if grades != [] {
      var n := |grades| - 1;
      KeptGradesAtMostSubjects(subjects, grades[..n]);
      if n < |subjects| {
        assert subjects[..|grades|] == subjects[..n] + [subjects[n]];
        FilterSnoc(subjects[..n], subjects[n], NonBlank);
      }
    }
  }

  /** With a grade for every subject, no more grades than subjects are
      kept. */
  lemma KeptGradesBounded(subjects: seq<string>, grades: seq<string>)
    requires |grades| == |subjects|
    ensures |KeptGrades(subjects, grades)| <= |KeptSubjects(subjects)|
  {
    KeptGradesAtMostSubjects(subjects, grades);
    assert subjects[..Min(|grades|, |subjects|)] == subjects;
  }

  /** The two lists sent for the repeated subjects: empty unless they are
      included and there is at least one; otherwise every code in order,
      with its editable grade (`None` for a code the record lacks). */
  function RepeatedLists(includeRepeated: bool, rs: seq<RepeatedSubject>, grades: map<string, string>)
    : (r: (seq<string>, seq<Option<string>>))
    ensures !(includeRepeated && |rs| > 0) ==> r.0 == [] && r.1 == []
    ensures includeRepeated && |rs| > 0 ==>
              |r.0| == |rs| == |r.1|
              && forall i | 0 <= i < |rs| ::
                   r.0[i] == rs[i].subjectCode
                   && r.1[i] == (if rs[i].subjectCode in grades then Some(grades[rs[i].subjectCode]) else None)
  {
    if includeRepeated && |rs| > 0 then
      (seq(|rs|, i requires 0 <= i < |rs| => rs[i].subjectCode),
       seq(|rs|, i requires 0 <= i < |rs| =>
             if rs[i].subjectCode in grades then Some(grades[rs[i].subjectCode]) else None))
    else ([], [])
  }

  /** The request passed to the GPA calculation. */
  datatype GpaRequest = GpaRequest(manualSubjects: seq<string>, manualGrades: seq<string>,
                                   repeatedSubjects: seq<string>, repeatedGrades: seq<Option<string>>)

  /** `handleGpaSubmit`: `None` where the page refuses ("enter at least
      one subject"), because neither list has a subject left. */
  function GpaSubmission(subjects: seq<string>, grades: seq<string>, includeRepeated: bool,
                         rs: seq<RepeatedSubject>, editable: map<string, string>): (r: Option<GpaRequest>)
    requires BlankPastSubjects(subjects, grades)
    ensures r.None? <==> KeptSubjects(subjects) == [] && !(includeRepeated && |rs| > 0)
    ensures r.Some? ==> r.value.manualSubjects == KeptSubjects(subjects)
                        && r.value.manualGrades == KeptGrades(subjects, grades)
                        && (r.value.repeatedSubjects, r.value.repeatedGrades) == RepeatedLists(includeRepeated, rs, editable)
  {
    var ms := KeptSubjects(subjects);
    var rep := RepeatedLists(includeRepeated, rs, editable);
    if |ms| == 0 && |rep.0| == 0 then None
    else Some(GpaRequest(ms, KeptGrades(subjects, grades), rep.0, rep.1))
  }

  /** A blank subject is never sent, and a subject with any non-space
      character is. */
  lemma KeptSubjectsExact(subjects: seq<string>, s: string)
    ensures s in KeptSubjects(subjects) <==> s in subjects && exists i :: 0 <= i < |s| && !IsSpace(s[i])
  {
    FilterMember(subjects, NonBlank, s);
    TrimEmptyIffBlank(s);
  }
}
