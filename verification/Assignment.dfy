/** Optimal assignment with one dummy column per row.

Scores are exact reals and `None` is minus infinity.  The solver is any procedure that returns an
injective assignment of maximal total over the finite matrix; the lemmas hold for every one of them.
*/
module Assignment {
  import opened Options

  type Score = Option<real>

  /** `n` rows of `width` scores. */
  datatype Matrix = Matrix(rows: seq<seq<Score>>, width: nat) {
    ghost predicate Valid() {
      forall i :: 0 <= i < |rows| ==> |rows[i]| == width
    }
  }

  /** The cell of the extended matrix: real columns first, then dummies with the given diagonal. */
  function Cell(m: Matrix, dummy: Score, i: nat, j: nat): Score
    requires m.Valid() && i < |m.rows| && j < m.width + |m.rows|
  {
    if j < m.width then m.rows[i][j] else if j == m.width + i then dummy else None
  }

  function LeastOf(acc: real, row: seq<Score>): (r: real)
    ensures r <= acc
    ensures forall j :: 0 <= j < |row| && row[j].Some? ==> r <= row[j].value
    decreases |row|
  {
    if row == [] then acc
    else LeastOf(if row[0].Some? && row[0].value < acc then row[0].value else acc, row[1..])
  }

  function LeastScore(acc: real, rows: seq<seq<Score>>): (r: real)
    ensures r <= acc
    ensures forall i, j :: 0 <= i < |rows| && 0 <= j < |rows[i]| && rows[i][j].Some? ==> r <= rows[i][j].value
    decreases |rows|
  {
    if rows == [] then acc else LeastScore(LeastOf(acc, rows[0]), rows[1..])
  }

  /** The finite stand-in for minus infinity: one below every finite cell and below zero. */
  function Floor(m: Matrix, dummy: Score): real {
    LeastScore(if dummy.Some? && dummy.value < 0.0 then dummy.value else 0.0, m.rows) - 1.0
  }

  /** What the solver sees. */
  function Value(m: Matrix, dummy: Score, i: nat, j: nat): real
    requires m.Valid() && i < |m.rows| && j < m.width + |m.rows|
  {
    var c := Cell(m, dummy, i, j);
    if c.Some? then c.value else Floor(m, dummy)
  }

  lemma FloorBelow(m: Matrix, dummy: Score, i: nat, j: nat)
    requires m.Valid() && i < |m.rows| && j < m.width + |m.rows|
    ensures Cell(m, dummy, i, j).Some? ==> Floor(m, dummy) < Cell(m, dummy, i, j).value
    ensures dummy.Some? ==> Floor(m, dummy) < dummy.value
  {
  }

  ghost predicate Distinct(cols: seq<nat>) {
    forall i, k :: 0 <= i < k < |cols| ==> cols[i] != cols[k]
  }

  /** Every row has its own column of the extended matrix. */
  ghost predicate Assigns(m: Matrix, cols: seq<nat>) {
    && |cols| == |m.rows|
    && (forall i :: 0 <= i < |cols| ==> cols[i] < m.width + |m.rows|)
    && Distinct(cols)
  }

  /** The total of the first `n` rows. */
  ghost function Total(m: Matrix, dummy: Score, cols: seq<nat>, n: nat): real
    requires m.Valid() && Assigns(m, cols) && n <= |cols|
  {
    if n == 0 then 0.0 else Total(m, dummy, cols, n - 1) + Value(m, dummy, n - 1, cols[n - 1])
  }

  ghost predicate Optimal(m: Matrix, dummy: Score, cols: seq<nat>)
    requires m.Valid()
  {
    && Assigns(m, cols)
    && forall other :: Assigns(m, other) ==>
         Total(m, dummy, other, |m.rows|) <= Total(m, dummy, cols, |m.rows|)
  }

  // ---- Exchange ---------------------------------------------------------------------------

  lemma {:induction false} TotalMonotone(m: Matrix, dummy: Score, a: seq<nat>, b: seq<nat>, n: nat)
    requires m.Valid() && Assigns(m, a) && Assigns(m, b) && n <= |a|
    requires forall i :: 0 <= i < n ==> Value(m, dummy, i, a[i]) <= Value(m, dummy, i, b[i])
    ensures Total(m, dummy, a, n) <= Total(m, dummy, b, n)
    ensures (exists i :: 0 <= i < n && Value(m, dummy, i, a[i]) < Value(m, dummy, i, b[i]))
      ==> Total(m, dummy, a, n) < Total(m, dummy, b, n)
  {
    if n > 0 {
      TotalMonotone(m, dummy, a, b, n - 1);
    }
  }

  /** An optimal assignment cannot be improved row by row. */
  lemma NoImprovement(m: Matrix, dummy: Score, cols: seq<nat>, better: seq<nat>)
    requires m.Valid() && Optimal(m, dummy, cols) && Assigns(m, better)
    requires forall i :: 0 <= i < |cols| ==> Value(m, dummy, i, cols[i]) <= Value(m, dummy, i, better[i])
    ensures forall i :: 0 <= i < |cols| ==> Value(m, dummy, i, cols[i]) == Value(m, dummy, i, better[i])
  {
    TotalMonotone(m, dummy, cols, better, |cols|);
  }

  /** The row sits on a floor cell, or on a real column that scores below the dummy. */
  predicate Misplaced(m: Matrix, dummy: real, i: nat, j: nat)
    requires m.Valid() && i < |m.rows| && j < m.width + |m.rows|
  {
    var c := Cell(m, Some(dummy), i, j);
    c.None? || (j < m.width && c.value < dummy)
  }

  /** Send every misplaced row to its own dummy column. */
  function Retreat(m: Matrix, dummy: real, cols: seq<nat>): (r: seq<nat>)
    requires m.Valid() && |cols| == |m.rows|
    requires forall i :: 0 <= i < |cols| ==> cols[i] < m.width + |m.rows|
    ensures |r| == |cols|
    ensures forall i :: 0 <= i < |r| ==> r[i] == if Misplaced(m, dummy, i, cols[i]) then m.width + i else cols[i]
  {
    seq(|cols|, i requires 0 <= i < |cols| => if Misplaced(m, dummy, i, cols[i]) then m.width + i else cols[i])
  }

  lemma RetreatAssigns(m: Matrix, dummy: real, cols: seq<nat>)
    requires m.Valid() && Assigns(m, cols)
    ensures Assigns(m, Retreat(m, dummy, cols))
  {
    var r := Retreat(m, dummy, cols);
    forall i, k | 0 <= i < k < |r|
      ensures r[i] != r[k]
    {
      assert cols[i] != cols[k];
    }
  }

  /** With a finite dummy score no optimal assignment has a misplaced row. */
  lemma NothingMisplaced(m: Matrix, dummy: real, cols: seq<nat>, i: nat)
    requires m.Valid() && Optimal(m, Some(dummy), cols) && i < |cols|
    ensures !Misplaced(m, dummy, i, cols[i])
  {
    var r := Retreat(m, dummy, cols);
    RetreatAssigns(m, dummy, cols);
    forall k | 0 <= k < |cols|
      ensures Value(m, Some(dummy), k, cols[k]) <= Value(m, Some(dummy), k, r[k])
      ensures Misplaced(m, dummy, k, cols[k]) ==> Value(m, Some(dummy), k, cols[k]) < Value(m, Some(dummy), k, r[k])
    {
      FloorBelow(m, Some(dummy), k, cols[k]);
    }
    NoImprovement(m, Some(dummy), cols, r);
  }

  /** Row `k` has column `j` and scores there at least as well as row `i`. */
  predicate Outbids(m: Matrix, cols: seq<nat>, k: nat, i: nat, j: nat)
    requires m.Valid() && |cols| == |m.rows| && i < |cols| && k < |cols| && j < m.width
  {
    cols[k] == j && m.rows[k][j].Some? && m.rows[i][j].Some? && m.rows[k][j].value >= m.rows[i][j].value
  }

  /** A row sits on a dummy only if each column it scores above the dummy score went to a row that
  scores there at least as well. */
  lemma OutbidOnly(m: Matrix, dummy: real, cols: seq<nat>, i: nat, j: nat)
    requires m.Valid() && Optimal(m, Some(dummy), cols) && i < |cols| && cols[i] >= m.width && j < m.width
    requires m.rows[i][j].Some? && m.rows[i][j].value > dummy
    ensures exists k :: 0 <= k < |cols| && k != i && Outbids(m, cols, k, i, j)
  {
    NothingMisplaced(m, dummy, cols, i);
    if k :| 0 <= k < |cols| && cols[k] == j {
      NothingMisplaced(m, dummy, cols, k);
      var swapped := cols[i := j][k := m.width + k];
      forall x | 0 <= x < |cols|
        ensures cols[x] != m.width + k
      {
        NothingMisplaced(m, dummy, cols, x);
      }
      assert Assigns(m, swapped);
      TwoRowsDiffer(m, Some(dummy), cols, swapped, i, k, |cols|);
      assert Outbids(m, cols, k, i, j);
    } else {
      var taken := cols[i := j];
      assert Assigns(m, taken);
      assert Value(m, Some(dummy), i, cols[i]) < Value(m, Some(dummy), i, taken[i]);
      NoImprovement(m, Some(dummy), cols, taken);
    }
  }

  /** The totals of two assignments that differ in two rows. */
  lemma {:induction false} TwoRowsDiffer(m: Matrix, dummy: Score, a: seq<nat>, b: seq<nat>, i: nat, k: nat, n: nat)
    requires m.Valid() && Assigns(m, a) && Assigns(m, b) && i < |a| && k < |a| && i != k && n <= |a|
    requires forall x :: 0 <= x < |a| && x != i && x != k ==> a[x] == b[x]
    ensures Total(m, dummy, b, n) - Total(m, dummy, a, n)
      == (if i < n then Value(m, dummy, i, b[i]) - Value(m, dummy, i, a[i]) else 0.0)
       + (if k < n then Value(m, dummy, k, b[k]) - Value(m, dummy, k, a[k]) else 0.0)
  {
    if n > 0 {
      TwoRowsDiffer(m, dummy, a, b, i, k, n - 1);
    }
  }

  // ---- Without a dummy score --------------------------------------------------------------

  /** Finite cells are exactly a set of rows times a set of columns. */
  ghost predicate Grid(m: Matrix, rows: set<nat>, cols: set<nat>)
    requires m.Valid()
  {
    && (forall i :: i in rows ==> i < |m.rows|)
    && (forall j :: j in cols ==> j < m.width)
    && forall i: nat, j: nat :: i < |m.rows| && j < m.width ==> (m.rows[i][j].Some? <==> i in rows && j in cols)
  }

  ghost predicate Placed(m: Matrix, cols: seq<nat>, i: nat)
    requires m.Valid() && Assigns(m, cols) && i < |m.rows|
  {
    Cell(m, None, i, cols[i]).Some?
  }

  lemma {:induction false} ImageSize(cols: seq<nat>, rows: set<nat>)
    requires forall i :: i in rows ==> i < |cols|
    ensures |set i | i in rows :: cols[i]| <= |rows|
    ensures Distinct(cols) ==> |set i | i in rows :: cols[i]| == |rows|
  {
    if rows != {} {
      var x :| x in rows;
      var rest := rows - {x};
      ImageSize(cols, rest);
      var image := set i | i in rest :: cols[i];
      assert (set i | i in rows :: cols[i]) == image + {cols[x]};
      assert Distinct(cols) ==> cols[x] !in image;
    }
  }

  lemma SubsetSize(a: set<nat>, b: set<nat>)
    requires a <= b
    ensures |a| <= |b|
  {
    assert b == a + (b - a);
  }

  /** A column of the grid that no other row of the grid uses. */
  lemma SpareColumn(m: Matrix, rows: set<nat>, columns: set<nat>, cols: seq<nat>, i: nat) returns (j: nat)
    requires m.Valid() && Grid(m, rows, columns) && Assigns(m, cols) && i in rows && |columns| >= |rows|
    ensures j in columns && forall k :: k in rows && k != i ==> cols[k] != j
  {
    var others := rows - {i};
    ImageSize(cols, others);
    var used := set k | k in others :: cols[k];
    if columns <= used {
      SubsetSize(columns, used);
    }
    j :| j in columns && j !in used;
  }

  /** With enough columns every optimal assignment without a dummy score places every grid row. */
  lemma GridRowPlaced(m: Matrix, rows: set<nat>, columns: set<nat>, cols: seq<nat>, i: nat)
    requires m.Valid() && Grid(m, rows, columns) && Optimal(m, None, cols) && i in rows && |columns| >= |rows|
    ensures Placed(m, cols, i)
  {
    var j := SpareColumn(m, rows, columns, cols, i);
    ExchangeImproves(m, rows, columns, cols, i, j);
  }

  lemma OutsideGrid(m: Matrix, rows: set<nat>, columns: set<nat>, i: nat, j: nat)
    requires m.Valid() && Grid(m, rows, columns) && i < |m.rows| && j < m.width + |m.rows|
    ensures Cell(m, None, i, j).Some? <==> i in rows && j in columns
  {
    if j < m.width {
      assert m.rows[i][j].Some? <==> i in rows && j in columns;
    } else {
      assert j !in columns;
    }
  }

  lemma ExchangeImproves(m: Matrix, rows: set<nat>, columns: set<nat>, cols: seq<nat>, i: nat, j: nat)
    requires m.Valid() && Grid(m, rows, columns) && Optimal(m, None, cols) && i in rows && j in columns
    requires forall k :: k in rows && k != i ==> cols[k] != j
    ensures Placed(m, cols, i)
  {
    OutsideGrid(m, rows, columns, i, j);
    if k :| 0 <= k < |cols| && cols[k] == j && k != i {
      var better := cols[i := j][k := cols[i]];
      assert Assigns(m, better);
      OutsideGrid(m, rows, columns, k, better[k]);
      OutsideGrid(m, rows, columns, k, cols[k]);
      hide Grid, Distinct;
      NoImprovementIf(m, cols, better, i, j);
    } else {
      var better := cols[i := j];
      assert Assigns(m, better);
      hide Grid, Distinct;
      NoImprovementIf(m, cols, better, i, j);
    }
  }

  lemma NoImprovementIf(m: Matrix, cols: seq<nat>, better: seq<nat>, i: nat, j: nat)
    requires m.Valid() && Optimal(m, None, cols) && Assigns(m, better) && i < |cols| && better[i] == j
    requires Cell(m, None, i, j).Some?
    requires forall x :: 0 <= x < |cols| && x != i ==> Value(m, None, x, cols[x]) == Value(m, None, x, better[x])
    ensures Placed(m, cols, i)
  {
    FloorBelow(m, None, i, j);
    if Value(m, None, i, cols[i]) <= Value(m, None, i, j) {
      NoImprovement(m, None, cols, better);
    } else {
      FloorBelow(m, None, i, cols[i]);
    }
  }

  /** All grid rows are placed exactly when there are at least as many columns as rows. */
  lemma AllPlacedIff(m: Matrix, rows: set<nat>, columns: set<nat>, cols: seq<nat>)
    requires m.Valid() && Grid(m, rows, columns) && Optimal(m, None, cols)
    ensures (forall i :: i in rows ==> Placed(m, cols, i)) <==> |columns| >= |rows|
  {
    if |columns| >= |rows| {
      forall i | i in rows
        ensures Placed(m, cols, i)
      {
        GridRowPlaced(m, rows, columns, cols, i);
      }
    }
    if forall i :: i in rows ==> Placed(m, cols, i) {
      var image := set i | i in rows :: cols[i];
      ImageSize(cols, rows);
      SubsetSize(image, columns);
    }
  }

  // ---- An optimal assignment exists -------------------------------------------------------

  ghost function Choices(n: nat, width: nat): (r: set<seq<nat>>)
    ensures forall s :: s in r <==> |s| == n && forall i :: 0 <= i < n ==> s[i] < width
  {
    if n == 0 then {[]}
    else
      var shorter := Choices(n - 1, width);
      var r := set s, c: nat | s in shorter && c < width :: s + [c];
      assert forall s: seq<nat> :: |s| == n ==> s == s[..n - 1] + [s[n - 1]];
      r
  }

  lemma {:induction false} BestOf(m: Matrix, dummy: Score, candidates: set<seq<nat>>) returns (best: seq<nat>)
    requires m.Valid() && candidates != {} && forall s :: s in candidates ==> Assigns(m, s)
    ensures best in candidates
    ensures forall s :: s in candidates ==>
      Total(m, dummy, s, |m.rows|) <= Total(m, dummy, best, |m.rows|)
  {
    var x :| x in candidates;
    if candidates == {x} {
      best := x;
    } else {
      var rest := candidates - {x};
      assert rest != {};
      var y := BestOf(m, dummy, rest);
      best := if Total(m, dummy, x, |m.rows|) <= Total(m, dummy, y, |m.rows|) then y else x;
    }
  }

  /** Whatever the scores, there is an optimal assignment. */
  lemma OptimalExists(m: Matrix, dummy: Score)
    requires m.Valid()
    ensures exists cols :: Optimal(m, dummy, cols)
  {
    var n := |m.rows|;
    var all := Choices(n, m.width + n);
    var valid := set s | s in all && Assigns(m, s);
    var own := seq(n, i requires 0 <= i < n => m.width + i);
    assert Assigns(m, own) && own in valid;
    var best := BestOf(m, dummy, valid);
    forall other | Assigns(m, other)
      ensures Total(m, dummy, other, n) <= Total(m, dummy, best, n)
    {
      assert other in valid;
    }
    assert Optimal(m, dummy, best);
  }
}
