/** The two graders. Each checks the columns, builds a grade list row by row and
    writes it back into the roster it was given. */
module Grading {
  import opened Failures
  import opened Grades
  import opened Frames
  import opened Validation
  import opened Relative
  import opened Absolute

  /** The grading loop of `calculate_relative_grades`: the tier of each z-score, appended in
      row order. */
  method GradeEachZScore(zs: seq<Cell>) returns (grades: seq<Grade>)
    ensures grades == RelativeGrades(zs)
  {
    grades := [];
    var i := 0;
    while i < |zs|
      invariant 0 <= i <= |zs|
      invariant |grades| == i
      invariant forall k :: 0 <= k < i ==> grades[k] == TierOfZ(zs[k])
    {
      grades := grades + [TierOfZ(zs[i])];
      i := i + 1;
    }
  }

  /** The grading loop of `calculate_absolute_grades`: each mark classified in row order; the
      first row that raises ends the loop with its error. */
  method ClassifyEachMark(marks: seq<Cell>, thresholds: Option<map<string, real>>) returns (r: Result<seq<Grade>>)
    ensures r == AbsoluteGrades(marks, thresholds)
  {
    var grades: seq<Grade> := [];
    var i := 0;
    while i < |marks|
      invariant 0 <= i <= |marks|
      invariant |grades| == i
      invariant forall k :: 0 <= k < i ==> ClassifyAbsolute(marks[k], thresholds) == Ok(grades[k])
    {
      var g := ClassifyAbsolute(marks[i], thresholds);
      if g.Err? {
        FirstFailure(marks, thresholds, i);
        return Err(g.error);
      }
      grades := grades + [g.value];
      i := i + 1;
    }
    var res := AbsoluteGrades(marks, thresholds);
    assert res.Ok?;
    assert forall k :: 0 <= k < |marks| ==> res.value[k] == grades[k];
    assert res.value == grades;
    return Ok(grades);
  }

  /** `calculate_relative_grades`: on success the frame holds the relative-graded roster; on
      failure it is left untouched. */
  method CalculateRelativeGrades(df: DataFrame, std: real) returns (r: Outcome)
    requires df.Valid() && StdFits(df.Snapshot(), std)
    modifies df
    ensures df.Valid()
    ensures var res := RelativeGrading(old(df.Snapshot()), std);
      && (res.Ok? ==> r == Pass && df.Snapshot() == res.value)
      && (res.Err? ==> r == Fail(res.error) && df.Snapshot() == old(df.Snapshot()))
  {
    ghost var t0 := df.Snapshot();
    var v := Validate(df.columns);
    if v.Fail? {
      return v;
    }
    var marks := df.cells["Marks"];
    if HasText(marks) {
      return Fail(NonNumericMarks);
    }
    var zs := ZScores(marks, std);
    df.SetColumn("z_score", zs);
    var grades := GradeEachZScore(zs);
    df.SetColumn("Grade", Letters(grades));
    assert df.Snapshot() == WithTwoColumns(t0, "z_score", zs, "Grade", Letters(grades));
    return Pass;
  }

  /** `calculate_absolute_grades`: on success the frame holds the absolute-graded roster; on
      failure (also one raised part-way through the rows) it is left untouched. */
  method CalculateAbsoluteGrades(df: DataFrame, thresholds: Option<map<string, real>>) returns (r: Outcome)
    requires df.Valid()
    modifies df
    ensures df.Valid()
    ensures var res := AbsoluteGrading(old(df.Snapshot()), thresholds);
      && (res.Ok? ==> r == Pass && df.Snapshot() == res.value)
      && (res.Err? ==> r == Fail(res.error) && df.Snapshot() == old(df.Snapshot()))
  {
    var v := Validate(df.columns);
    if v.Fail? {
      return v;
    }
    var graded := ClassifyEachMark(df.cells["Marks"], thresholds);
    if graded.Err? {
      return Fail(graded.error);
    }
    df.SetColumn("Grade", Letters(graded.value));
    return Pass;
  }
}
