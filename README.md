# Grading engine of the grading system

This project models the grading engine of the grading system backend (`backend/main.py`). The
engine takes a roster, a table with at least a `RegNo` and a `Marks` column, and does four things:

- **Column check** (`validate_dataframe`). It refuses a roster that lacks `RegNo` or `Marks`. The
  error names every missing column, in the order `RegNo`, `Marks`.
- **Relative grading** (`calculate_relative_grades`). Each mark becomes a z-score: the mark minus
  the column mean, divided by the column's sample standard deviation. The z-scores are written to
  a new `z_score` column. Each z-score then gets a tier on a fixed five-step curve: A from 1.0 up,
  B from 0.0, C from -1.0, D from -2.0, F below. The grades are written to a `Grade` column.
- **Absolute grading** (`calculate_absolute_grades`). Each mark is compared with the caller's
  cutoffs for A, B, C and D, in that order. It gets the first grade whose cutoff it meets, or F.
  The grades are written to a `Grade` column.
- **Statistics** (`compute_statistics`). Mean, median, sample standard deviation and mode of the
  marks.

The model is organised in modules:

- `Failures` holds the exceptions the engine raises, as an `Error` datatype, and the `Result` and
  `Outcome` wrappers.
- `Frames` holds the cells of a table and the `Table` value. A cell is a number, a missing value
  (NaN) or text. The `DataFrame` class is the frame the graders extend in place; `df[name] =
  values` becomes `SetColumn`.
- `Validation` holds the column check.
- `Grades` holds the letter grades, the two tier ladders and per-grade counts.
- `Stats` holds the statistics and the facts about them: sums, mean, sample variance, sorting,
  order statistics, median and mode.
- `Relative` holds the specification functions of relative grading. `RelativeLaws` holds what is
  proved about them.
- `Absolute` holds the specification functions of absolute grading and what is proved about them.
- `Grading` holds the two graders as methods. Each changes the `DataFrame` it is given and is
  proved to leave the frame equal to the roster its specification function computes. The
  relative grader writes `z_score` before its loop over the rows and `Grade` after it. The
  absolute grader runs its loop first and writes `Grade` after it.

A failing grader raises before it assigns any column, so a roster it refuses is left untouched.
Absolute grading can fail in the middle of its loop. Even then nothing is written, because the
grades are assigned only after the loop ends.

Marks are modelled as exact reals. Every comparison involving a missing mark is false, as in
floating point. Missing marks are skipped by the mean, median, deviation and mode.

## Model

| member | source | states |
|---|---|---|
| Validation.Absent | backend/main.py:22-23 | the missing names are exactly the required names absent from the columns, and they are a subsequence of the required names, so they keep the required order |
| Validation.Validate | backend/main.py:21-25 | passes iff both `RegNo` and `Marks` are present; otherwise fails with `MissingColumns` whose list is `RegNo` if absent followed by `Marks` if absent |
| Validation.Join | backend/main.py:25 | `', '.join`: empty for no names; otherwise the names' total length plus one separator between each pair, starting with the first name |
| Validation.SchemaMessage | backend/main.py:25 | the error text is "Missing required columns: " followed by the missing names joined by ", " (stated for one and for two names, the only counts that validation produces) |
| Validation.BothMissingMessage | backend/main.py:22-25 | a roster with neither column gets the message "Missing required columns: RegNo, Marks" |
| Grades.Letter | backend/main.py:33-41 | each grade is stored as a one-character string, one of "A" "B" "C" "D" "F" (distinct per grade by `Grades.LetterInjective`) |
| Grades.LetterInjective | backend/main.py:32-41 | distinct grades are stored as distinct one-letter strings |
| Grades.Letters | backend/main.py:42 | the `Grade` column holds one letter per grade, in row order |
| Grades.RelativeTier | backend/main.py:32-41 | A iff z >= 1, B iff 0 <= z < 1, C iff -1 <= z < 0, D iff -2 <= z < -1, F iff z < -2 |
| Grades.RelativeTierBoundaries | backend/main.py:32-39 | z-scores of exactly 1, 0, -1 and -2 get A, B, C and D: a tie goes to the higher tier |
| Grades.RelativeTierMonotone | backend/main.py:32-41 | a higher z-score never gets a worse tier |
| Grades.AbsoluteTier | backend/main.py:49-58 | the grade is the first of A, B, C, D whose cutoff the mark meets, stated per grade as an iff; F iff below all four |
| Grades.AbsoluteTierMonotone | backend/main.py:49-58 | a higher mark never gets a worse grade, even with unordered cutoffs |
| Grades.AbsoluteTierBands | backend/main.py:49-58 | with ordered cutoffs each grade is the half-open band from its cutoff up to the next one |
| Grades.Count | backend/main.py:30-42 | a grade's count is its number of occurrences in the list (its multiplicity); at most the length, and zero iff the grade does not occur |
| Grades.CountsCoverAll | backend/main.py:30-42 | the five per-grade counts add up to the number of grades |
| Frames.Numbers | backend/main.py:64-67 | the values pandas' skipna reductions see: at most one per cell (their content and order are pinned by `Frames.NumbersCons`, `Frames.NumbersMembership` and `Frames.NumbersCount`) |
| Frames.NumbersMembership | backend/main.py:64 | the numbers a column's statistics see are exactly the values of its numeric cells |
| Frames.NumbersCons | backend/main.py:64-67 | a column's numbers are its first cell's value, if numeric, followed by the numbers of the remaining rows, so row order is kept |
| Frames.NumbersCount | backend/main.py:64-67 | each number occurs among the column's numbers exactly as often as a cell holding it occurs in the column |
| Frames.AtLeast | backend/main.py:49-55 | Python's `>=` on a mark (and on a z-score at lines 32-38): false for NaN, and for a number exactly the comparison with the cutoff. Text, where Python raises, never reaches it: `Absolute.ClassifyAbsolute` fails on text first, and z-scores are never text |
| Frames.WithColumn | backend/main.py:42 | assigning a column keeps the table well formed and its height; an existing label keeps the column order, a new label is appended at the end; the column holds the new values and every other column stays as it was |
| Frames.WithTwoColumns | backend/main.py:29-42 | `z_score` then `Grade` assigned: both columns hold the new values, every other column is unchanged, the earlier labels stay in front, and two new labels are appended in assignment order |
| Frames.WithColumnSame | backend/main.py:59 | assigning a column the cells it already holds leaves the table unchanged |
| Frames.DataFrame.SetColumn | backend/main.py:42 | `df[name] = values` leaves the frame equal to `WithColumn` of its old contents |
| Stats.Mean | backend/main.py:64 | `mean()` over the numbers: n times the mean gives back their sum |
| Stats.MeanWithinBounds | backend/main.py:64 | the mean lies between any lower and upper bound of the marks |
| Stats.Standardized | backend/main.py:29 | each standardized value is (x - c) / s, one per value |
| Stats.DeviationIs | backend/main.py:29 | the total deviation of the values from c is the sum less n c |
| Stats.SumStandardized | backend/main.py:29 | the sum of standardized values is the total deviation from c divided by s, that is (sum - n c) / s |
| Stats.StandardizedSumsToZero | backend/main.py:29 | values standardized by their own mean sum to zero |
| Stats.SampleVariance | backend/main.py:66 | the ddof=1 variance behind `std()`: n - 1 times it is the sum of squared deviations from the mean, and it is non-negative (its zero case is `Stats.VarianceZeroIffUniform`) |
| Stats.VarianceZeroIffUniform | backend/main.py:66 | the sample variance is non-negative, and zero iff all values are equal |
| Stats.ZeroStdIffUniform | backend/main.py:66 | with two or more values the sample deviation is zero iff all values are equal |
| Stats.Sort | backend/main.py:65 | the sorted marks are ascending and a permutation of the marks |
| Stats.SortedIsOrderStatistic | backend/main.py:65 | position k of the sorted marks holds the k-th smallest mark |
| Stats.OrderStatisticUnique | backend/main.py:65 | the k-th smallest mark is unique |
| Stats.Median | backend/main.py:65 | `median()` lies between the lower and the upper middle of the sorted numbers, which coincide for an odd count (the two are characterised by `Stats.MedianIsMiddle`) |
| Stats.MedianIsMiddle | backend/main.py:65 | the median is the average of the ((n-1)/2)-th and the (n/2)-th smallest marks; for odd n, the middle mark |
| Stats.MostFrequent | backend/main.py:67 | the chosen candidate occurs at least as often as every other, and is the smallest among equally frequent ones |
| Stats.Mode | backend/main.py:67 | the mode is a mark that occurs most often; among equally frequent marks it is the smallest |
| Stats.ComputeStatistics | backend/main.py:62-68 | fails iff a mark is text (non-numeric marks) or there is no number (no mode); otherwise reports the mean, median, sample variance (when at least two numbers) and mode of the numbers |
| Relative.ZScoreOf | backend/main.py:29 | one cell's z-score is numeric iff the mark is, and then mean + z * std gives the mark back |
| Relative.StandardizeCells | backend/main.py:29 | one z-score per cell, in row order: (x - mean) / std for a number, NaN for a missing mark |
| Relative.ZScores | backend/main.py:29 | one z-score per row; a z-score is a number iff its mark is a number and the marks spread (at least two numbers, non-zero deviation) |
| Relative.ZScoreAt | backend/main.py:29 | the z-score of row i is (mark - mean) / std when the mark is a number and the marks spread, else NaN |
| Relative.TierOfZ | backend/main.py:31-41 | a numeric z-score gets its tier on the curve; a NaN z-score falls through every test to F |
| Relative.RelativeGrades | backend/main.py:30-41 | one grade per z-score, in row order, each the tier of its z-score |
| Relative.RelativeGrading | backend/main.py:27-43 | the column check first; text marks fail before anything is written; otherwise the roster gains `z_score` and then `Grade`, and nothing else changes |
| RelativeLaws.ZScoreInverse | backend/main.py:29 | a z-score gives back its mark as mean + z * std |
| RelativeLaws.NumbersOfStandardized | backend/main.py:29 | the numeric z-scores are the numeric marks, standardized, in row order |
| RelativeLaws.ZScoresSumToZero | backend/main.py:29 | the numeric z-scores of a roster sum to zero |
| RelativeLaws.RelativeGradeOfMark | backend/main.py:29-41 | row i's grade is the tier of (mark - mean) / std when the mark is a number and the marks spread, else F |
| RelativeLaws.ZScoresMonotone | backend/main.py:29 | a higher mark has a higher or equal z-score |
| RelativeLaws.TiersMonotone | backend/main.py:31-41 | a higher numeric z-score never gets the worse grade |
| RelativeLaws.SpreadGradesMonotone | backend/main.py:29-41 | when the marks spread, a higher mark never gets the worse grade |
| RelativeLaws.FlatGradesAllF | backend/main.py:29-41 | when the marks do not spread, every row gets F |
| RelativeLaws.SpreadIffMarksDiffer | backend/main.py:29 | with two or more numbers, the z-scores are numbers iff two marks differ |
| RelativeLaws.EqualMarksAllF | backend/main.py:29-41 | a roster whose marks are all equal gets F on every row |
| RelativeLaws.RelativeGradesMonotone | backend/main.py:29-41 | between any two rows, the higher mark never gets the worse relative grade |
| RelativeLaws.RelativeCounts | backend/main.py:30-42 | a successful relative grading gives one grade per row, and the per-grade counts add up to the row count |
| RelativeLaws.RelativeGradingIdempotent | backend/main.py:27-43 | grading the graded roster again with the same deviation reproduces it exactly |
| Absolute.ClassifyAbsolute | backend/main.py:48-58 | absent thresholds fail; complete thresholds give the tier of a number and F for NaN; text fails; an error needs absent thresholds, text or a missing cutoff; cutoffs are looked up lazily: a missing "A" fails, a mark meeting "A" gets A whatever else is missing, and a number below "A" fails on a missing "B" or gets B when it meets it |
| Absolute.ClassifyAbsoluteMonotone | backend/main.py:48-58 | when both marks are classified, the higher one never gets the worse grade, even with incomplete or unordered thresholds |
| Absolute.AbsoluteGrades | backend/main.py:47-58 | succeeds iff every row is classified, giving one grade per row in order; otherwise fails with the error of the first failing row |
| Absolute.AbsoluteGrading | backend/main.py:45-60 | the column check first; a row failure leaves nothing written; otherwise the roster gains a `Grade` column and nothing else changes |
| Absolute.AbsoluteGradesOfMarks | backend/main.py:47-58 | with all four cutoffs and no text, every row is graded: the tier of its number, or F for a missing mark |
| Absolute.AbsoluteGradeOfRow | backend/main.py:45-60 | on such a roster, row i of `Grade` holds the letter of its mark's tier, or "F" for a missing mark |
| Absolute.AbsoluteGradesMonotone | backend/main.py:47-58 | between two rows of a successful grading, the higher mark never gets the worse grade |
| Absolute.AbsoluteCounts | backend/main.py:47-59 | a successful absolute grading gives one grade per row, and the per-grade counts add up to the row count |
| Absolute.AbsoluteGradingIdempotent | backend/main.py:45-60 | grading the graded roster again with the same thresholds reproduces it exactly |
| Absolute.FirstFailure | backend/main.py:47-58 | the first row that fails decides the error of the whole loop |
| Grading.GradeEachZScore | backend/main.py:30-41 | the loop's grade list equals `RelativeGrades` of the z-scores |
| Grading.ClassifyEachMark | backend/main.py:47-58 | the loop's outcome equals `AbsoluteGrades`: every grade in order, or the first failing row's error |
| Grading.CalculateRelativeGrades | backend/main.py:27-43 | on success the frame holds `RelativeGrading` of its old contents; on failure it reports that error and the frame is unchanged |
| Grading.CalculateAbsoluteGrades | backend/main.py:45-60 | on success the frame holds `AbsoluteGrading` of its old contents; on failure it reports that error and the frame is unchanged |

## Left out

- The web layer is not part of this model. That covers the HTTP endpoints, CORS, upload handling,
  reading the Excel file, parsing the thresholds from JSON and building the response.
- The histogram (`create_histogram`, plotting and base64 encoding) is not part of this model.
- Square roots are not modelled. The graders take the standard deviation as a parameter instead.
  A precondition (`StdFits`, `Stats.IsSampleStd`) ties it to the marks: with two or more numbers,
  it is the non-negative value whose square is the sample variance.
- Stats.ComputeStatistics: reports the sample variance instead of `std_dev`, its square root,
  because square roots are not modelled. With fewer than two numbers the variance is absent; the
  source reports NaN there.
- Floating-point rounding, infinities and overflow are not modelled: marks, means and z-scores
  are exact reals. Two cases follow from this. First, equal marks are treated as having exactly
  zero deviation, so each z-score is 0/0, which is NaN. Second, the value a float conversion of
  the results would produce is not modelled.
- The `distribution` argument of `calculate_relative_grades` is unused by the source and is not modelled.
- The type inference of the data-frame library is not modelled. A column is a sequence of numbers,
  missing values and text; a single text entry makes any arithmetic or comparison on the column
  fail.
- Duplicate column labels are not modelled. A table's labels are distinct.
- Threshold values are numbers. Non-numeric cutoffs are not modelled.
- The table-level form of the relative per-row property is not stated as a separate lemma. It
  follows from `RelativeLaws.RelativeGradeOfMark` together with the `Ok(WithTwoColumns(...))`
  equation in `Relative.RelativeGrading`.

## Code and design documentation

In three places the design documentation and the code disagree. The model follows the code.

- The documentation calls for a degenerate-distribution error when relative grading gets marks
  with zero or undefined deviation (one mark, or all marks equal). The code raises nothing.
  - With exact arithmetic every z-score is then NaN, so every row gets F
    (`RelativeLaws.FlatGradesAllF`, `RelativeLaws.EqualMarksAllF`).
  - A single mark gives an undefined deviation. With exact arithmetic, all-equal marks give a
    0/0 z-score. In floating point that needs the marks' sum to be exact, as for integer marks;
    rounding is listed under "## Left out".
- The documentation mentions default thresholds (A 90, B 80, C 70, D 60). The grading code has
  none.
  - Absent thresholds fail at the first row.
  - A missing cutoff fails only when some mark reaches its test (`Absolute.ClassifyAbsolute`).
  - An empty roster is graded without error whatever the thresholds are.
- The documentation treats the roster as non-empty. On a roster without text marks, the code's
  statistics fail only when there is no number to take the mode of. A text mark makes them fail
  at the mean (`Stats.ComputeStatistics`).
