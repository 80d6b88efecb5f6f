/** Relative grading: each mark is standardized against the column's mean and sample standard
    deviation and the z-score is placed on a fixed ladder of tiers. */
module Relative {
  import opened Failures
  import opened Grades
  import opened Frames
  import opened Validation
  import opened Stats

  /** The z-score of one cell: a number shifted by `mean` and divided by `std`; a missing value stays missing. */
  function ZScoreOf(cell: Cell, mean: real, std: real): (z: Cell)
    requires std != 0.0
    ensures z.Num? <==> cell.Num?
    ensures z.Num? ==> mean + z.value * std == cell.value
  {
    if cell.Num? then Num((cell.value - mean) / std) else NaN
  }

  function StandardizeCells(marks: seq<Cell>, mean: real, std: real): (zs: seq<Cell>)
    requires std != 0.0
    ensures |zs| == |marks|
    ensures forall i :: 0 <= i < |marks| ==> zs[i] == ZScoreOf(marks[i], mean, std)
  {
    if marks == [] then []
    else [ZScoreOf(marks[0], mean, std)] + StandardizeCells(marks[1..], mean, std)
  }

  /** `std` is the sample standard deviation of the numbers in the roster's `Marks` column. */
  ghost predicate StdFits(t: Table, std: real)
  {
    "Marks" in t.cells ==> IsSampleStd(Numbers(t.cells["Marks"]), std)
  }

  /** The z-scores are numbers: the column has at least two numbers and they are not all equal,
      so the sample deviation is defined and positive. */
  predicate Spread(marks: seq<Cell>, std: real)
  {
    |Numbers(marks)| >= 2 && std != 0.0
  }

  /** The `z_score` column. With fewer than two numbers the sample deviation is NaN (and with
      none the mean is too); with equal numbers it is 0 and every mark equals the mean, so each
      z-score is 0/0. In both cases every z-score is NaN; a missing mark has a NaN z-score. */
  function ZScores(marks: seq<Cell>, std: real): (zs: seq<Cell>)
    requires IsSampleStd(Numbers(marks), std)
    ensures |zs| == |marks|
    ensures forall i :: 0 <= i < |marks| ==> (zs[i].Num? <==> marks[i].Num? && Spread(marks, std))
  {
    var xs := Numbers(marks);
    if Spread(marks, std) then StandardizeCells(marks, Mean(xs), std)
    else seq(|marks|, i => NaN)
  }

  /** The z-score of one row: (mark - mean) / std for a number when the marks spread, and NaN otherwise. */
  lemma {:induction false} ZScoreAt(marks: seq<Cell>, std: real, i: nat)
    requires IsSampleStd(Numbers(marks), std)
    requires i < |marks|
    ensures ZScores(marks, std)[i] ==
      if marks[i].Num? && Spread(marks, std) then Num((marks[i].value - Mean(Numbers(marks))) / std) else NaN
  {
  }

  /** The tier ladder applied to one z-score cell, tested top-down; since every comparison with
      NaN is false, a NaN z-score falls through to F. */
  function TierOfZ(z: Cell): (g: Grade)
    ensures z.Num? ==> g == RelativeTier(z.value)
    ensures !z.Num? ==> g == F
  {
    if AtLeast(z, 1.0) then A
    else if AtLeast(z, 0.0) then B
    else if AtLeast(z, -1.0) then C
    else if AtLeast(z, -2.0) then D
    else F
  }

  /** One grade per z-score, in row order. */
  function RelativeGrades(zs: seq<Cell>): (gs: seq<Grade>)
    ensures |gs| == |zs|
    ensures forall i :: 0 <= i < |zs| ==> gs[i] == TierOfZ(zs[i])
  {
    seq(|zs|, i requires 0 <= i < |zs| => TierOfZ(zs[i]))
  }

  /** The roster after relative grading: the column check first, then the z-scores (text among
      the marks makes the mean fail before anything is written), then the grades. On success
      the roster gains a `z_score` column and then a `Grade` column. */
  function RelativeGrading(t: Table, std: real): (r: Result<Table>)
    requires WellFormed(t) && StdFits(t, std)
    ensures Validate(t.columns).Fail? ==> r == Err(Validate(t.columns).error)
    ensures Validate(t.columns).Pass? ==> "RegNo" in t.cells && "Marks" in t.cells
    ensures Validate(t.columns).Pass? && HasText(t.cells["Marks"]) ==> r == Err(NonNumericMarks)
    ensures Validate(t.columns).Pass? && !HasText(t.cells["Marks"]) ==>
              var zs := ZScores(t.cells["Marks"], std);
              r == Ok(WithTwoColumns(t, "z_score", zs, "Grade", Letters(RelativeGrades(zs))))
  {
    match Validate(t.columns)
    case Fail(e) => Err(e)
    case Pass =>
      var marks := t.cells["Marks"];
      if HasText(marks) then Err(NonNumericMarks)
      else
        var zs := ZScores(marks, std);
        Ok(WithTwoColumns(t, "z_score", zs, "Grade", Letters(RelativeGrades(zs))))
  }
}
