/** The manual GPA calculator's form: two parallel arrays, one of subject
    codes and one of grades, edited row by row. */
module GpaCalculator {
  import opened Lists

  datatype ManualSubjects = ManualSubjects(subjects: seq<string>, grades: seq<string>)

  /** Every subject row has its grade. */
  predicate Aligned(m: ManualSubjects) { |m.subjects| == |m.grades| }

  /** `addSubjectField`: an empty subject and an empty grade go on the end. */
  function AddSubjectField(m: ManualSubjects): (r: ManualSubjects)
    ensures r.subjects == m.subjects + [""] && r.grades == m.grades + [""]
    ensures Aligned(m) ==> Aligned(r)
  {
    ManualSubjects(m.subjects + [""], m.grades + [""])
  }

  /** `removeSubjectField`: position `index` leaves both arrays. */
  function RemoveSubjectField(m: ManualSubjects, index: int): (r: ManualSubjects)
    ensures Aligned(m) ==> Aligned(r)
    ensures 0 <= index < |m.subjects| ==> |r.subjects| == |m.subjects| - 1
    ensures !(0 <= index < |m.subjects|) ==> r.subjects == m.subjects
    ensures Aligned(m) && 0 <= index < |m.subjects| ==>
              forall i | 0 <= i < |r.subjects| ::
                var j := if i < index then i else i + 1;
                r.subjects[i] == m.subjects[j] && r.grades[i] == m.grades[j]
  {
    ManualSubjects(RemoveAt(m.subjects, index), RemoveAt(m.grades, index))
  }

  /** `updateSubject`: copy the subjects and write `value` at `index`. */
  method UpdateSubject(m: ManualSubjects, index: int, value: string) returns (r: ManualSubjects)
    requires 0 <= index < |m.subjects|
    ensures |r.subjects| == |m.subjects| && r.subjects[index] == value
    ensures forall i | 0 <= i < |m.subjects| && i != index :: r.subjects[i] == m.subjects[i]
    ensures r.grades == m.grades
  {
    var copy := new string[|m.subjects|](i requires 0 <= i < |m.subjects| => m.subjects[i]);
    copy[index] := value;
    r := ManualSubjects(copy[..], m.grades);
  }

  /** `updateGrade`: copy the grades and write `value` at `index`. */
  method UpdateGrade(m: ManualSubjects, index: int, value: string) returns (r: ManualSubjects)
    requires 0 <= index < |m.grades|
    ensures |r.grades| == |m.grades| && r.grades[index] == value
    ensures forall i | 0 <= i < |m.grades| && i != index :: r.grades[i] == m.grades[i]
    ensures r.subjects == m.subjects
  {
    var copy := new string[|m.grades|](i requires 0 <= i < |m.grades| => m.grades[i]);
    copy[index] := value;
    r := ManualSubjects(m.subjects, copy[..]);
  }

  /** Row `index` shows a remove button when it is not the first row. */
  predicate HasRemoveButton(m: ManualSubjects, index: int) {
    0 < index < |m.subjects|
  }

  /** Removing through the buttons never removes the first row, so the
      form always keeps at least one row once it has one. */
  lemma FirstRowStays(m: ManualSubjects, index: int)
    requires Aligned(m) && |m.subjects| > 0 && HasRemoveButton(m, index)
    ensures var r := RemoveSubjectField(m, index);
            |r.subjects| > 0 && r.subjects[0] == m.subjects[0] && r.grades[0] == m.grades[0]
  {
  }

  /** Adding a row and removing it again restores the form. */
  lemma AddThenRemove(m: ManualSubjects)
    ensures RemoveSubjectField(AddSubjectField(m), |m.subjects|).subjects == m.subjects
    ensures Aligned(m) ==> RemoveSubjectField(AddSubjectField(m), |m.subjects|) == m
  {
    var a := AddSubjectField(m);
    assert a.subjects[..|m.subjects|] == m.subjects;
    if Aligned(m) {
      assert a.grades[..|m.grades|] == m.grades;
    }
  }
}
