/** Absolute grading: each mark is compared with caller-supplied cutoffs for A, B, C and D. */
module Absolute {
  import opened Failures
  import opened Grades
  import opened Frames
  import opened Validation

  /** All four cutoffs are present. */
  predicate Complete(m: map<string, real>)
  {
    "A" in m && "B" in m && "C" in m && "D" in m
  }

  function ThresholdsOf(m: map<string, real>): Thresholds
    requires Complete(m)
  {
    Thresholds(m["A"], m["B"], m["C"], m["D"])
  }

  /** One mark against the thresholds, tested A, B, C, D in turn. Each test looks its cutoff
      up first: absent thresholds fail at the first lookup, a missing key fails only when its
      test is reached, text fails at its first comparison, and NaN fails every comparison. */
  function ClassifyAbsolute(mark: Cell, th: Option<map<string, real>>): (r: Result<Grade>)
    ensures th.None? ==> r == Err(NoThresholds)
    ensures th.Some? && Complete(th.value) && mark.Num? ==> r == Ok(AbsoluteTier(mark.value, ThresholdsOf(th.value)))
    ensures th.Some? && Complete(th.value) && mark.NaN? ==> r == Ok(F)
    ensures th.Some? && "A" in th.value && mark.Text? ==> r == Err(NonNumericMarks)
    ensures r.Err? ==> th.None? || mark.Text? || !Complete(th.value)
    ensures th.Some? && "A" !in th.value ==> r == Err(MissingThreshold("A"))
    ensures th.Some? && "A" in th.value && AtLeast(mark, th.value["A"]) ==> r == Ok(A)
    ensures th.Some? && "A" in th.value && mark.Num? && !AtLeast(mark, th.value["A"]) && "B" !in th.value ==>
              r == Err(MissingThreshold("B"))
    ensures th.Some? && "A" in th.value && "B" in th.value && mark.Num? ==>
              (!AtLeast(mark, th.value["A"]) && AtLeast(mark, th.value["B"]) ==> r == Ok(B))
  {
    match th
    case None => Err(NoThresholds)
    case Some(m) =>
      if "A" !in m then Err(MissingThreshold("A"))
      else if mark.Text? then Err(NonNumericMarks)
      else if AtLeast(mark, m["A"]) then Ok(A)
      else if "B" !in m then Err(MissingThreshold("B"))
      else if AtLeast(mark, m["B"]) then Ok(B)
      else if "C" !in m then Err(MissingThreshold("C"))
      else if AtLeast(mark, m["C"]) then Ok(C)
      else if "D" !in m then Err(MissingThreshold("D"))
      else if AtLeast(mark, m["D"]) then Ok(D)
      else Ok(F)
  }

  /** A higher mark never gets the worse grade, even with incomplete or unordered thresholds. */
  lemma {:induction false} ClassifyAbsoluteMonotone(x1: real, x2: real, th: Option<map<string, real>>)
    requires x2 <= x1
    requires ClassifyAbsolute(Num(x1), th).Ok? && ClassifyAbsolute(Num(x2), th).Ok?
    ensures Rank(ClassifyAbsolute(Num(x2), th).value) <= Rank(ClassifyAbsolute(Num(x1), th).value)
  {
  }

  /** The grade list of the loop, or the error of the first row that fails. */
  function AbsoluteGrades(marks: seq<Cell>, th: Option<map<string, real>>): (r: Result<seq<Grade>>)
    ensures r.Ok? <==> forall i :: 0 <= i < |marks| ==> ClassifyAbsolute(marks[i], th).Ok?
    ensures r.Ok? ==> |r.value| == |marks|
    ensures r.Ok? ==> forall i :: 0 <= i < |marks| ==> ClassifyAbsolute(marks[i], th) == Ok(r.value[i])
    ensures r.Err? ==> (exists i :: 0 <= i < |marks| && ClassifyAbsolute(marks[i], th) == Err(r.error) &&
                                    (forall j :: 0 <= j < i ==> ClassifyAbsolute(marks[j], th).Ok?))
  {
    if marks == [] then Ok([])
    else
      match ClassifyAbsolute(marks[0], th)
      case Err(e) => Err(e)
      case Ok(g) =>
        var rest := AbsoluteGrades(marks[1..], th);
        assert forall i :: 1 <= i < |marks| ==> marks[1..][i - 1] == marks[i];
        match rest
        case Err(e) =>
          var k :| 0 <= k < |marks| - 1 && ClassifyAbsolute(marks[1..][k], th) == Err(e) &&
                   (forall j :: 0 <= j < k ==> ClassifyAbsolute(marks[1..][j], th).Ok?);
          assert ClassifyAbsolute(marks[k + 1], th) == Err(e);
          Err(e)
        case Ok(gs) => Ok([g] + gs)
  }

  /** The roster after absolute grading: the column check first, then one grade per row. */
  function AbsoluteGrading(t: Table, th: Option<map<string, real>>): (r: Result<Table>)
    requires WellFormed(t)
    ensures Validate(t.columns).Fail? ==> r == Err(Validate(t.columns).error)
    ensures Validate(t.columns).Pass? ==> "RegNo" in t.cells && "Marks" in t.cells
    ensures Validate(t.columns).Pass? && AbsoluteGrades(t.cells["Marks"], th).Err? ==>
              r == Err(AbsoluteGrades(t.cells["Marks"], th).error)
    ensures Validate(t.columns).Pass? && AbsoluteGrades(t.cells["Marks"], th).Ok? ==>
              r == Ok(WithColumn(t, "Grade", Letters(AbsoluteGrades(t.cells["Marks"], th).value)))
  {
    match Validate(t.columns)
    case Fail(e) => Err(e)
    case Pass =>
      match AbsoluteGrades(t.cells["Marks"], th)
      case Err(e) => Err(e)
      case Ok(gs) => Ok(WithColumn(t, "Grade", Letters(gs)))
  }

  /** With all four cutoffs and no text among the marks, every row is classified: a number gets
      the first grade whose cutoff it meets, a missing mark gets F. */
  lemma {:induction false} AbsoluteGradesOfMarks(marks: seq<Cell>, m: map<string, real>, i: nat)
    requires Complete(m) && !HasText(marks) && i < |marks|
    ensures AbsoluteGrades(marks, Some(m)).Ok?
    ensures AbsoluteGrades(marks, Some(m)).value[i] ==
      if marks[i].Num? then AbsoluteTier(marks[i].value, ThresholdsOf(m)) else F
  {
    forall k | 0 <= k < |marks| ensures ClassifyAbsolute(marks[k], Some(m)).Ok? {
      assert !marks[k].Text?;
    }
  }

  /** The grade written into each row of a roster graded against complete thresholds. */
  lemma {:induction false} AbsoluteGradeOfRow(t: Table, m: map<string, real>, i: nat)
    requires WellFormed(t) && "RegNo" in t.cells && "Marks" in t.cells
    requires Complete(m) && !HasText(t.cells["Marks"]) && i < t.height
    ensures AbsoluteGrading(t, Some(m)).Ok?
    ensures var mark := t.cells["Marks"][i];
      AbsoluteGrading(t, Some(m)).value.cells["Grade"][i] ==
        if mark.Num? then Text(Letter(AbsoluteTier(mark.value, ThresholdsOf(m)))) else Text("F")
  {
    var marks := t.cells["Marks"];
    AbsoluteGradesOfMarks(marks, m, i);
    var gs := AbsoluteGrades(marks, Some(m)).value;
    assert Validate(t.columns).Pass?;
    assert AbsoluteGrading(t, Some(m)) == Ok(WithColumn(t, "Grade", Letters(gs)));
  }

  /** Between two rows of a successful grading, the higher mark never gets the worse grade. */
  lemma {:induction false} AbsoluteGradesMonotone(marks: seq<Cell>, th: Option<map<string, real>>, i: nat, j: nat)
    requires AbsoluteGrades(marks, th).Ok?
    requires i < |marks| && j < |marks| && marks[i].Num? && marks[j].Num?
    requires marks[j].value <= marks[i].value
    ensures var gs := AbsoluteGrades(marks, th).value; Rank(gs[j]) <= Rank(gs[i])
  {
    ClassifyAbsoluteMonotone(marks[i].value, marks[j].value, th);
  }

  /** Every row gets exactly one grade, so the five per-grade counts add up to the row count. */
  lemma {:induction false} AbsoluteCounts(t: Table, th: Option<map<string, real>>)
    requires WellFormed(t) && AbsoluteGrading(t, th).Ok?
    ensures var gs := AbsoluteGrades(t.cells["Marks"], th).value;
      |gs| == t.height &&
      Count(gs, A) + Count(gs, B) + Count(gs, C) + Count(gs, D) + Count(gs, F) == t.height
  {
    CountsCoverAll(AbsoluteGrades(t.cells["Marks"], th).value);
  }

  /** Grading the graded roster again with the same thresholds leaves it exactly as it is. */
  lemma {:induction false} AbsoluteGradingIdempotent(t: Table, th: Option<map<string, real>>)
    requires WellFormed(t) && AbsoluteGrading(t, th).Ok?
    ensures var t' := AbsoluteGrading(t, th).value; AbsoluteGrading(t', th) == Ok(t')
  {
    var t' := AbsoluteGrading(t, th).value;
    assert t'.cells["Marks"] == t.cells["Marks"];
    assert "RegNo" in t'.columns && "Marks" in t'.columns;
    WithColumnSame(t', "Grade");
  }

  /** The first failing row decides the error of the whole column. */
  lemma {:induction false} FirstFailure(marks: seq<Cell>, th: Option<map<string, real>>, i: nat)
    requires i < |marks| && ClassifyAbsolute(marks[i], th).Err?
    requires forall j :: 0 <= j < i ==> ClassifyAbsolute(marks[j], th).Ok?
    ensures AbsoluteGrades(marks, th) == Err(ClassifyAbsolute(marks[i], th).error)
  {
    var r := AbsoluteGrades(marks, th);
    var k :| 0 <= k < |marks| && ClassifyAbsolute(marks[k], th) == Err(r.error)
      && forall j :: 0 <= j < k ==> ClassifyAbsolute(marks[j], th).Ok?;
    assert k == i;
  }
}
