/** What relative grading guarantees: z-scores recover the marks and cancel out, each row's
    grade is the tier of its z-score, better marks never get worse grades, every row gets one
    grade, and grading twice changes nothing. */
module RelativeLaws {
  import opened Failures
  import opened Grades
  import opened Frames
  import opened Stats
  import opened Relative

  /** A z-score gives back its mark: the mean plus z standard deviations. */
  lemma {:induction false} ZScoreInverse(marks: seq<Cell>, std: real, i: nat)
    requires IsSampleStd(Numbers(marks), std)
    requires i < |marks| && marks[i].Num? && Spread(marks, std)
    ensures ZScores(marks, std)[i].Num?
    ensures marks[i].value == Mean(Numbers(marks)) + ZScores(marks, std)[i].value * std
  {
    assert ZScores(marks, std)[i] == ZScoreOf(marks[i], Mean(Numbers(marks)), std);
  }

  /** The numbers of the z-score column are the numbers of the marks, standardized, in row order. */
  lemma {:induction false} NumbersOfStandardized(marks: seq<Cell>, mean: real, std: real)
    requires std != 0.0
    ensures Numbers(StandardizeCells(marks, mean, std)) == Standardized(Numbers(marks), mean, std)
  {
    if marks != [] {
      var head, tail := marks[0], marks[1..];
      var zTail := StandardizeCells(tail, mean, std);
      NumbersOfStandardized(tail, mean, std);
      assert StandardizeCells(marks, mean, std) == [ZScoreOf(head, mean, std)] + zTail;
      NumbersCons(ZScoreOf(head, mean, std), zTail);
      if head.Num? {
        assert Numbers(marks) == [head.value] + Numbers(tail);
        StandardizedCons(head.value, Numbers(tail), mean, std);
      } else {
        assert Numbers(marks) == Numbers(tail);
        assert [] + Numbers(zTail) == Numbers(zTail);
      }
    }
  }

  /** The z-scores of a roster sum to zero. */
  lemma {:induction false} ZScoresSumToZero(marks: seq<Cell>, std: real)
    requires IsSampleStd(Numbers(marks), std) && Spread(marks, std)
    ensures Sum(Numbers(ZScores(marks, std))) == 0.0
  {
    var xs := Numbers(marks);
    NumbersOfStandardized(marks, Mean(xs), std);
    StandardizedSumsToZero(xs, std);
  }

  /** The relative grade of one row: the tier of (mark - mean) / std for a number when the
      marks spread, and F otherwise. */
  lemma {:induction false} RelativeGradeOfMark(marks: seq<Cell>, std: real, i: nat)
    requires IsSampleStd(Numbers(marks), std) && i < |marks|
    ensures RelativeGrades(ZScores(marks, std))[i] ==
      if marks[i].Num? && Spread(marks, std) then RelativeTier((marks[i].value - Mean(Numbers(marks))) / std)
      else F
  {
    var zs := ZScores(marks, std);
    ZScoreAt(marks, std, i);
    assert RelativeGrades(zs)[i] == TierOfZ(zs[i]);
  }

  /** Dividing by a positive deviation keeps the order. */
  lemma {:induction false} DivideMonotone(a: real, b: real, s: real)
    requires a <= b && s > 0.0
    ensures a / s <= b / s
  {
  }

  /** Standardizing keeps the order of the marks. */
  lemma {:induction false} ZScoresMonotone(marks: seq<Cell>, std: real, i: nat, j: nat)
    requires IsSampleStd(Numbers(marks), std) && Spread(marks, std)
    requires i < |marks| && j < |marks| && marks[i].Num? && marks[j].Num?
    requires marks[j].value <= marks[i].value
    ensures ZScores(marks, std)[i].Num? && ZScores(marks, std)[j].Num?
    ensures ZScores(marks, std)[j].value <= ZScores(marks, std)[i].value
  {
    ZScoreAt(marks, std, i);
    ZScoreAt(marks, std, j);
    var m := Mean(Numbers(marks));
    DivideMonotone(marks[j].value - m, marks[i].value - m, std);
  }

  /** Between two numeric z-scores, the higher one never gets the worse tier. */
  lemma {:induction false} TiersMonotone(zs: seq<Cell>, i: nat, j: nat)
    requires i < |zs| && j < |zs| && zs[i].Num? && zs[j].Num?
    requires zs[j].value <= zs[i].value
    ensures var gs := RelativeGrades(zs); Rank(gs[j]) <= Rank(gs[i])
  {
    RelativeTierMonotone(zs[i].value, zs[j].value);
  }

  /** When the marks spread, the higher mark never gets the worse relative grade. */
  lemma {:induction false} SpreadGradesMonotone(marks: seq<Cell>, std: real, i: nat, j: nat)
    requires IsSampleStd(Numbers(marks), std) && Spread(marks, std)
    requires i < |marks| && j < |marks| && marks[i].Num? && marks[j].Num?
    requires marks[j].value <= marks[i].value
    ensures var gs := RelativeGrades(ZScores(marks, std)); Rank(gs[j]) <= Rank(gs[i])
  {
    ZScoresMonotone(marks, std, i, j);
    TiersMonotone(ZScores(marks, std), i, j);
  }

  /** When the marks do not spread (fewer than two numbers, or a zero deviation) every row gets F. */
  lemma {:induction false} FlatGradesAllF(marks: seq<Cell>, std: real, i: nat)
    requires IsSampleStd(Numbers(marks), std) && !Spread(marks, std) && i < |marks|
    ensures RelativeGrades(ZScores(marks, std))[i] == F
  {
    ZScoreAt(marks, std, i);
  }

  /** With at least two numbers, the z-scores are numbers exactly when two of the marks differ. */
  lemma {:induction false} SpreadIffMarksDiffer(marks: seq<Cell>, std: real)
    requires IsSampleStd(Numbers(marks), std) && |Numbers(marks)| >= 2
    ensures Spread(marks, std) <==> exists x, y :: Num(x) in marks && Num(y) in marks && x != y
  {
    var xs := Numbers(marks);
    NumbersMembership(marks);
    ZeroStdIffUniform(xs, std);
    if Spread(marks, std) {
      var i :| 0 <= i < |xs| && xs[i] != xs[0];
      assert xs[i] in xs && xs[0] in xs;
    } else {
      forall x, y | Num(x) in marks && Num(y) in marks ensures x == y {
        assert x in xs && y in xs;
      }
    }
  }

  /** A roster whose marks are all the same gets F on every row. */
  lemma {:induction false} EqualMarksAllF(marks: seq<Cell>, std: real, i: nat)
    requires IsSampleStd(Numbers(marks), std) && i < |marks|
    requires forall x, y :: Num(x) in marks && Num(y) in marks ==> x == y
    ensures RelativeGrades(ZScores(marks, std))[i] == F
  {
    if |Numbers(marks)| >= 2 {
      SpreadIffMarksDiffer(marks, std);
    }
    FlatGradesAllF(marks, std, i);
  }

  /** Between two rows, the higher mark never gets the worse relative grade. */
  lemma {:induction false} RelativeGradesMonotone(marks: seq<Cell>, std: real, i: nat, j: nat)
    requires IsSampleStd(Numbers(marks), std)
    requires i < |marks| && j < |marks| && marks[i].Num? && marks[j].Num?
    requires marks[j].value <= marks[i].value
    ensures var gs := RelativeGrades(ZScores(marks, std)); Rank(gs[j]) <= Rank(gs[i])
  {
    if Spread(marks, std) {
      SpreadGradesMonotone(marks, std, i, j);
    } else {
      FlatGradesAllF(marks, std, i);
      FlatGradesAllF(marks, std, j);
    }
  }

  /** Every row gets exactly one grade, so the five per-grade counts add up to the row count. */
  lemma {:induction false} RelativeCounts(t: Table, std: real)
    requires WellFormed(t) && StdFits(t, std) && RelativeGrading(t, std).Ok?
    ensures var gs := RelativeGrades(ZScores(t.cells["Marks"], std));
      |gs| == t.height &&
      Count(gs, A) + Count(gs, B) + Count(gs, C) + Count(gs, D) + Count(gs, F) == t.height
  {
    CountsCoverAll(RelativeGrades(ZScores(t.cells["Marks"], std)));
  }

  /** Grading the graded roster again with the same deviation leaves it exactly as it is. */
  lemma {:induction false} RelativeGradingIdempotent(t: Table, std: real)
    requires WellFormed(t) && StdFits(t, std) && RelativeGrading(t, std).Ok?
    ensures var t' := RelativeGrading(t, std).value;
      StdFits(t', std) && RelativeGrading(t', std) == Ok(t')
  {
    var t' := RelativeGrading(t, std).value;
    var marks := t.cells["Marks"];
    assert t'.cells["Marks"] == marks;
    assert "RegNo" in t'.columns && "Marks" in t'.columns;
    var zs := ZScores(marks, std);
    WithColumnSame(t', "z_score");
    WithColumnSame(t', "Grade");
  }
}
