/** Letter grades, the two tier ladders that assign them and per-grade counts. */
module Grades {
  import opened Frames

  /** The five letter grades, best first. */
  datatype Grade = A | B | C | D | F

  /** Position of a grade on the scale: A is 4 and F is 0, so a larger rank is a better grade. */
  function Rank(g: Grade): nat
  {
    match g
    case A => 4
    case B => 3
    case C => 2
    case D => 1
    case F => 0
  }

  /** The one-letter string the graders store in the `Grade` column. */
  function Letter(g: Grade): (s: string)
    ensures |s| == 1
    ensures s[0] in "ABCDF"
  {
    match g
    case A => "A"
    case B => "B"
    case C => "C"
    case D => "D"
    case F => "F"
  }

  /** Distinct grades are stored as distinct strings. */
  lemma {:induction false} LetterInjective(g: Grade, h: Grade)
    requires Letter(g) == Letter(h)
    ensures g == h
  {
  }

  /** The fixed five-tier curve on a z-score. Each tier is a half-open interval
      closed at its lower end, so a z-score on a boundary gets the higher grade. */
  function RelativeTier(z: real): (g: Grade)
    ensures g == A <==> 1.0 <= z
    ensures g == B <==> 0.0 <= z < 1.0
    ensures g == C <==> -1.0 <= z < 0.0
    ensures g == D <==> -2.0 <= z < -1.0
    ensures g == F <==> z < -2.0
  {
    if z >= 1.0 then A
    else if z >= 0.0 then B
    else if z >= -1.0 then C
    else if z >= -2.0 then D
    else F
  }

  /** The four boundary values themselves belong to the tier above them. */
  lemma {:induction false} RelativeTierBoundaries()
    ensures RelativeTier(1.0) == A && RelativeTier(0.0) == B
    ensures RelativeTier(-1.0) == C && RelativeTier(-2.0) == D
  {
  }

  /** A higher z-score never earns a worse grade. */
  lemma {:induction false} RelativeTierMonotone(z1: real, z2: real)
    requires z2 <= z1
    ensures Rank(RelativeTier(z2)) <= Rank(RelativeTier(z1))
  {
  }

  /** The caller's cutoffs for A, B, C and D; F has none. */
  datatype Thresholds = Thresholds(a: real, b: real, c: real, d: real)

  /** The first of A, B, C, D (in that order) whose cutoff the mark meets, else F.
      The cutoffs need not be ordered: only the order of evaluation decides. */
  function AbsoluteTier(mark: real, t: Thresholds): (g: Grade)
    ensures g == A <==> mark >= t.a
    ensures g == B <==> mark < t.a && mark >= t.b
    ensures g == C <==> mark < t.a && mark < t.b && mark >= t.c
    ensures g == D <==> mark < t.a && mark < t.b && mark < t.c && mark >= t.d
    ensures g == F <==> mark < t.a && mark < t.b && mark < t.c && mark < t.d
  {
    if mark >= t.a then A
    else if mark >= t.b then B
    else if mark >= t.c then C
    else if mark >= t.d then D
    else F
  }

  /** A higher mark never earns a worse grade, whatever the cutoffs, ordered or not. */
  lemma {:induction false} AbsoluteTierMonotone(m1: real, m2: real, t: Thresholds)
    requires m2 <= m1
    ensures Rank(AbsoluteTier(m2, t)) <= Rank(AbsoluteTier(m1, t))
  {
  }

  /** With ordered cutoffs each grade is the half-open band between its cutoff and the next one up. */
  lemma {:induction false} AbsoluteTierBands(mark: real, t: Thresholds)
    requires t.a >= t.b >= t.c >= t.d
    ensures AbsoluteTier(mark, t) == B <==> t.b <= mark < t.a
    ensures AbsoluteTier(mark, t) == C <==> t.c <= mark < t.b
    ensures AbsoluteTier(mark, t) == D <==> t.d <= mark < t.c
    ensures AbsoluteTier(mark, t) == F <==> mark < t.d
  {
  }

  /** Number of occurrences of grade `g` in `gs`. */
  function Count(gs: seq<Grade>, g: Grade): (n: nat)
    ensures n <= |gs|
    ensures n == 0 <==> g !in gs
    ensures n == multiset(gs)[g]
  {
    if gs == [] then 0
    else
      assert gs == [gs[0]] + gs[1..];
      (if gs[0] == g then 1 else 0) + Count(gs[1..], g)
  }

  /** The five per-grade counts of a grade list add up to its length: every entry holds exactly one grade. */
  lemma {:induction false} CountsCoverAll(gs: seq<Grade>)
    ensures Count(gs, A) + Count(gs, B) + Count(gs, C) + Count(gs, D) + Count(gs, F) == |gs|
  {
    if gs != [] {
      CountsCoverAll(gs[1..]);
    }
  }

  /** The grades as the strings stored in the `Grade` column. */
  function Letters(gs: seq<Grade>): (cells: seq<Cell>)
    ensures |cells| == |gs|
    ensures forall i :: 0 <= i < |gs| ==> cells[i] == Text(Letter(gs[i]))
  {
    seq(|gs|, i requires 0 <= i < |gs| => Text(Letter(gs[i])))
  }
}
