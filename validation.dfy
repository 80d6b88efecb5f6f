/** The column check every grading entry point runs first. */
module Validation {
  import opened Failures

  /** The columns a roster must have, in the order the error lists them. */
  const RequiredColumns: seq<string> := ["RegNo", "Marks"]

  /** `a` is `b` with some entries dropped and the others kept in their order. */
  predicate Subsequence(a: seq<string>, b: seq<string>)
    decreases |b|
  {
    if a == [] then true
    else if b == [] then false
    else (a[0] == b[0] && Subsequence(a[1..], b[1..])) || Subsequence(a, b[1..])
  }

  /** The entries of `required` absent from `columns`, in the order of `required`. */
  function Absent(required: seq<string>, columns: seq<string>): (m: seq<string>)
    ensures forall c :: c in m <==> c in required && c !in columns
    ensures |m| <= |required|
    ensures Subsequence(m, required)
  {
    if required == [] then []
    else
      var rest := Absent(required[1..], columns);
      if required[0] in columns then rest
      else
        assert ([required[0]] + rest)[1..] == rest;
        [required[0]] + rest
  }

  /** Passes exactly when both required columns are present; otherwise fails naming
      every missing one, RegNo before Marks. */
  function Validate(columns: seq<string>): (r: Outcome)
    ensures r.Pass? <==> "RegNo" in columns && "Marks" in columns
    ensures r.Fail? ==> r.error.MissingColumns?
    ensures r.Fail? ==> forall c :: c in r.error.names <==> c in RequiredColumns && c !in columns
    ensures r.Fail? ==> |r.error.names| == 2 ==> r.error.names == ["RegNo", "Marks"]
    ensures r.Fail? ==> r.error.names == (if "RegNo" in columns then [] else ["RegNo"]) +
                                         (if "Marks" in columns then [] else ["Marks"])
  {
    var missing := Absent(RequiredColumns, columns);
    assert missing == (if "RegNo" in columns then [] else ["RegNo"]) + (if "Marks" in columns then [] else ["Marks"]) by {
      assert RequiredColumns[0] == "RegNo" && RequiredColumns[1..] == ["Marks"];
      assert Absent(["Marks"], columns) == (if "Marks" in columns then [] else ["Marks"]) + Absent([], columns) by {
        assert ["Marks"][1..] == [];
      }
    }
    if missing != [] then Fail(MissingColumns(missing)) else Pass
  }

  /** The combined length of the entries of `parts`. */
  function TotalLength(parts: seq<string>): nat
  {
    if parts == [] then 0 else |parts[0]| + TotalLength(parts[1..])
  }

  /** `sep` placed between the entries of `parts`. */
  function Join(parts: seq<string>, sep: string): (s: string)
    ensures parts == [] ==> s == []
    ensures parts != [] ==> |s| == TotalLength(parts) + (|parts| - 1) * |sep|
    ensures parts != [] ==> s[..|parts[0]|] == parts[0]
  {
    if parts == [] then ""
    else if |parts| == 1 then parts[0]
    else parts[0] + sep + Join(parts[1..], sep)
  }

  /** The text of the error the column check raises. */
  function SchemaMessage(missing: seq<string>): (s: string)
    ensures |s| >= 26 && s[..26] == "Missing required columns: "
    ensures |missing| == 1 ==> s == "Missing required columns: " + missing[0]
    ensures |missing| == 2 ==> s == "Missing required columns: " + missing[0] + ", " + missing[1]
  {
    assert |missing| == 2 ==> missing[1..] == [missing[1]] && Join(missing[1..], ", ") == missing[1];
    "Missing required columns: " + Join(missing, ", ")
  }

  /** A roster with neither required column is told about both, in order. */
  lemma {:induction false} BothMissingMessage(columns: seq<string>)
    requires "RegNo" !in columns && "Marks" !in columns
    ensures Validate(columns) == Fail(MissingColumns(["RegNo", "Marks"]))
    ensures SchemaMessage(Validate(columns).error.names) == "Missing required columns: RegNo, Marks"
  {
  }
}
