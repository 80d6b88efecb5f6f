/** The roster as the loader hands it over: a table of named columns that the graders extend in place. */
module Frames {

  /** One cell of the table: a number, a missing value, or text. */
  datatype Cell = Num(value: real) | NaN | Text(text: string)

  /** The numbers of a column in row order; missing values and text are skipped,
      as the column's own mean, median, deviation and mode skip them. */
  function Numbers(cells: seq<Cell>): (xs: seq<real>)
    ensures |xs| <= |cells|
  {
    if cells == [] then []
    else (if cells[0].Num? then [cells[0].value] else []) + Numbers(cells[1..])
  }

  /** Exactly the values of the numeric cells are collected. */
  lemma {:induction false} NumbersMembership(cells: seq<Cell>)
    ensures forall x :: x in Numbers(cells) <==> Num(x) in cells
  {
    if cells != [] {
      NumbersMembership(cells[1..]);
      assert cells == [cells[0]] + cells[1..];
    }
  }

  /** The numbers of a column with one more cell in front. */
  lemma {:induction false} NumbersCons(cell: Cell, cells: seq<Cell>)
    ensures Numbers([cell] + cells) == (if cell.Num? then [cell.value] else []) + Numbers(cells)
  {
    assert ([cell] + cells)[1..] == cells;
  }

  /** Each number occurs among a column's numbers as often as a cell holding it occurs in the column. */
  lemma {:induction false} NumbersCount(cells: seq<Cell>)
    ensures forall x :: multiset(Numbers(cells))[x] == multiset(cells)[Num(x)]
  {
    if cells != [] {
      NumbersCount(cells[1..]);
      assert cells == [cells[0]] + cells[1..];
      NumbersCons(cells[0], cells[1..]);
    }
  }

  /** True when some cell of the column holds text. */
  predicate HasText(cells: seq<Cell>)
  {
    exists i :: 0 <= i < |cells| && cells[i].Text?
  }

  /** A comparison `cell >= bound`; every comparison involving NaN is false. */
  predicate AtLeast(cell: Cell, bound: real): (b: bool)
    ensures !cell.Num? ==> !b
    ensures cell.Num? ==> (b <==> bound <= cell.value)
  {
    cell.Num? && cell.value >= bound
  }

  /** A snapshot of a table: its column labels in order, each column's cells, and the row count. */
  datatype Table = Table(columns: seq<string>, cells: map<string, seq<Cell>>, height: nat)

  predicate Distinct(names: seq<string>)
  {
    forall i, j :: 0 <= i < j < |names| ==> names[i] != names[j]
  }

  /** Labels are distinct, every label has a column and every column has one cell per row. */
  ghost predicate WellFormed(t: Table)
  {
    && Distinct(t.columns)
    && (forall c :: c in t.cells <==> c in t.columns)
    && (forall c :: c in t.cells ==> |t.cells[c]| == t.height)
  }

  /** The table after `df[name] = values`: an existing column is replaced where it stands,
      a new one is appended after the others, and every other column is left as it was. */
  function WithColumn(t: Table, name: string, values: seq<Cell>): (r: Table)
    requires WellFormed(t) && |values| == t.height
    ensures WellFormed(r)
    ensures r.height == t.height
    ensures name in t.columns ==> r.columns == t.columns
    ensures name !in t.columns ==> r.columns == t.columns + [name]
    ensures forall c :: c in r.cells <==> c in t.cells || c == name
    ensures r.cells[name] == values
    ensures forall c :: c in t.cells && c != name ==> r.cells[c] == t.cells[c]
  {
    Table(if name in t.columns then t.columns else t.columns + [name], t.cells[name := values], t.height)
  }

  /** Two columns assigned one after the other. */
  function WithTwoColumns(t: Table, n1: string, v1: seq<Cell>, n2: string, v2: seq<Cell>): (r: Table)
    requires WellFormed(t) && |v1| == t.height && |v2| == t.height && n1 != n2
    ensures WellFormed(r)
    ensures r.height == t.height
    ensures t.columns <= r.columns
    ensures n1 !in t.columns && n2 !in t.columns ==> r.columns == t.columns + [n1, n2]
    ensures forall c :: c in r.cells <==> c in t.cells || c == n1 || c == n2
    ensures r.cells[n1] == v1 && r.cells[n2] == v2
    ensures forall c :: c in t.cells && c != n1 && c != n2 ==> r.cells[c] == t.cells[c]
  {
    WithColumn(WithColumn(t, n1, v1), n2, v2)
  }

  /** Assigning a column the cells it already holds leaves the table as it is. */
  lemma {:induction false} WithColumnSame(t: Table, name: string)
    requires WellFormed(t) && name in t.cells
    ensures WithColumn(t, name, t.cells[name]) == t
  {
    assert t.cells[name := t.cells[name]] == t.cells;
  }

  /** The data frame the graders receive and extend in place. */
  class DataFrame {
    var columns: seq<string>
    var cells: map<string, seq<Cell>>
    var height: nat

    function Snapshot(): Table
      reads this
    {
      Table(columns, cells, height)
    }

    ghost predicate Valid()
      reads this
    {
      WellFormed(Snapshot())
    }

    /** A frame holding the table the loader produced. */
    constructor (t: Table)
      requires WellFormed(t)
      ensures Valid() && Snapshot() == t
    {
      columns, cells, height := t.columns, t.cells, t.height;
    }

    /** `df[name] = values`. */
    method SetColumn(name: string, values: seq<Cell>)
      requires Valid() && |values| == height
      modifies this
      ensures Valid()
      ensures Snapshot() == WithColumn(old(Snapshot()), name, values)
    {
      if name !in columns {
        columns := columns + [name];
      }
      cells := cells[name := values];
    }
  }
}
