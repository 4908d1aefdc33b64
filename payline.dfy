/** The payline rule of `Spin`: which rows win, what a winning row adds to the
    total coefficient, and the text line a row is shown as. */
module Payline {
  import opened Models

  /** The distinct display values among the row's non-wildcard symbols. */
  function NonWildcardValues(row: seq<Symbol>): set<char>
  {
    set i | 0 <= i < |row| && !row[i].isWildcard :: row[i].value
  }

  /** A row wins when its non-wildcard symbols show exactly one distinct
      display value. */
  predicate RowIsWinning(row: seq<Symbol>)
  {
    |NonWildcardValues(row)| == 1
  }

  /** Every non-wildcard symbol of the row shows `v`. */
  predicate AllNonWildcardsShow(row: seq<Symbol>, v: char)
  {
    forall i :: 0 <= i < |row| && !row[i].isWildcard ==> row[i].value == v
  }

  lemma {:induction false} SingletonSet<T>(s: set<T>)
    requires |s| == 1
    ensures exists v :: s == {v}
  {
    var v :| v in s;
    assert |s - {v}| == 0;
    assert s == {v};
  }

  /** The payline rule without counting: a row wins exactly when it holds a
      non-wildcard symbol and every non-wildcard symbol shows the same value
      as that one. */
  lemma {:induction false} RowIsWinningIff(row: seq<Symbol>)
    ensures RowIsWinning(row) <==>
              exists i :: 0 <= i < |row| && !row[i].isWildcard && AllNonWildcardsShow(row, row[i].value)
  {
    var values := NonWildcardValues(row);
    if RowIsWinning(row) {
      SingletonSet(values);
      var v :| values == {v};
      assert v in values;
      var i :| 0 <= i < |row| && !row[i].isWildcard && row[i].value == v;
      forall j | 0 <= j < |row| && !row[j].isWildcard ensures row[j].value == v {
        assert row[j].value in values;
      }
    }
    if exists i :: 0 <= i < |row| && !row[i].isWildcard && AllNonWildcardsShow(row, row[i].value) {
      var i :| 0 <= i < |row| && !row[i].isWildcard && AllNonWildcardsShow(row, row[i].value);
      assert values == {row[i].value};
    }
  }

  /** A row made only of wildcards loses: no non-wildcard value remains. */
  lemma {:induction false} AllWildcardRowLoses(row: seq<Symbol>)
    requires forall i :: 0 <= i < |row| ==> row[i].isWildcard
    ensures !RowIsWinning(row)
  {
    RowIsWinningIff(row);
  }

  /** Two non-wildcard symbols with different values make the row lose, even
      when a wildcard could stand for either. */
  lemma {:induction false} MismatchedRowLoses(row: seq<Symbol>, i: nat, j: nat)
    requires i < |row| && j < |row|
    requires !row[i].isWildcard && !row[j].isWildcard && row[i].value != row[j].value
    ensures !RowIsWinning(row)
  {
    RowIsWinningIff(row);
  }

  /** `row.Sum(symbol => symbol.Coefficient)`: wildcards included. */
  function CoefficientSum(row: seq<Symbol>): real
  {
    if row == [] then 0.0 else CoefficientSum(row[..|row| - 1]) + row[|row| - 1].coefficient
  }

  /** What one row adds to the total coefficient. */
  function RowCoefficient(row: seq<Symbol>): real
  {
    if RowIsWinning(row) then CoefficientSum(row) else 0.0
  }

  /** The total coefficient of a spin: the coefficient sums of the winning
      rows, in row order. */
  function TotalCoefficient(grid: seq<seq<Symbol>>): real
  {
    if grid == [] then 0.0
    else TotalCoefficient(grid[..|grid| - 1]) + RowCoefficient(grid[|grid| - 1])
  }

  lemma {:induction false} CoefficientSumNonNegative(row: seq<Symbol>)
    requires NonNegativeCoefficients(row)
    ensures CoefficientSum(row) >= 0.0
  {
    if row != [] {
      CoefficientSumNonNegative(row[..|row| - 1]);
    }
  }

  /** A row whose symbols all pay, with at least one paying strictly, has a
      positive coefficient sum. */
  lemma {:induction false} CoefficientSumPositive(row: seq<Symbol>, k: nat)
    requires NonNegativeCoefficients(row)
    requires k < |row| && row[k].coefficient > 0.0
    ensures CoefficientSum(row) > 0.0
  {
    var init := row[..|row| - 1];
    if k == |row| - 1 {
      CoefficientSumNonNegative(init);
    } else {
      CoefficientSumPositive(init, k);
    }
  }

  /** With non-negative coefficients a spin never pays a negative amount. */
  lemma {:induction false} TotalCoefficientNonNegative(grid: seq<seq<Symbol>>)
    requires forall r :: 0 <= r < |grid| ==> NonNegativeCoefficients(grid[r])
    ensures TotalCoefficient(grid) >= 0.0
  {
    if grid != [] {
      TotalCoefficientNonNegative(grid[..|grid| - 1]);
      CoefficientSumNonNegative(grid[|grid| - 1]);
    }
  }

  /** When no row wins, the spin pays nothing. */
  lemma {:induction false} NoWinningRowPaysNothing(grid: seq<seq<Symbol>>)
    requires forall r :: 0 <= r < |grid| ==> !RowIsWinning(grid[r])
    ensures TotalCoefficient(grid) == 0.0
  {
    if grid != [] {
      NoWinningRowPaysNothing(grid[..|grid| - 1]);
    }
  }

  /** When every non-wildcard symbol pays something and none pays a negative
      amount, a spin pays exactly when some row wins. */
  lemma {:induction false} PaysIffSomeRowWins(grid: seq<seq<Symbol>>)
    requires forall r :: 0 <= r < |grid| ==> NonNegativeCoefficients(grid[r])
    requires forall r, c :: 0 <= r < |grid| && 0 <= c < |grid[r]| && !grid[r][c].isWildcard ==>
               grid[r][c].coefficient > 0.0
    ensures TotalCoefficient(grid) > 0.0 <==> exists r :: 0 <= r < |grid| && RowIsWinning(grid[r])
  {
    if grid != [] {
      var init, last := grid[..|grid| - 1], grid[|grid| - 1];
      PaysIffSomeRowWins(init);
      TotalCoefficientNonNegative(init);
      CoefficientSumNonNegative(last);
      if RowIsWinning(last) {
        RowIsWinningIff(last);
        var k :| 0 <= k < |last| && !last[k].isWildcard && AllNonWildcardsShow(last, last[k].value);
        CoefficientSumPositive(last, k);
      }
      if exists r :: 0 <= r < |init| && RowIsWinning(init[r]) {
        var r :| 0 <= r < |init| && RowIsWinning(init[r]);
        assert grid[r] == init[r];
      }
      if exists r :: 0 <= r < |grid| && RowIsWinning(grid[r]) {
        var r :| 0 <= r < |grid| && RowIsWinning(grid[r]);
        if r < |init| {
          assert init[r] == grid[r];
        }
      }
    }
  }

  /** `string.Concat(row.Select(symbol => symbol.Value))`: the row's display
      values side by side, without separator. */
  function RowLine(row: seq<Symbol>): (line: string)
    ensures |line| == |row|
  {
    if row == [] then [] else [row[0].value] + RowLine(row[1..])
  }

  /** Character i of a row's line is the display value of its symbol i. */
  lemma {:induction false} RowLineShowsValues(row: seq<Symbol>)
    ensures forall i :: 0 <= i < |row| ==> RowLine(row)[i] == row[i].value
  {
    if row != [] {
      RowLineShowsValues(row[1..]);
      assert RowLine(row) == [row[0].value] + RowLine(row[1..]);
    }
  }

  /** The lines a sequence of rows is shown as, one per row. */
  function RowLines(grid: seq<seq<Symbol>>): (lines: seq<string>)
    ensures |lines| == |grid|
  {
    if grid == [] then [] else RowLines(grid[..|grid| - 1]) + [RowLine(grid[|grid| - 1])]
  }

  /** Line r of a grid's lines shows row r. */
  lemma {:induction false} RowLinesShowRows(grid: seq<seq<Symbol>>)
    ensures forall r :: 0 <= r < |grid| ==> RowLines(grid)[r] == RowLine(grid[r])
  {
    if grid != [] {
      RowLinesShowRows(grid[..|grid| - 1]);
    }
  }

  /** Showing one more row adds its line at the end. */
  lemma {:induction false} RowLinesAppend(grid: seq<seq<Symbol>>, row: seq<Symbol>)
    ensures RowLines(grid + [row]) == RowLines(grid) + [RowLine(row)]
  {
    assert (grid + [row])[..|grid|] == grid;
  }

  /** Scoring one more row adds what that row pays. */
  lemma {:induction false} TotalCoefficientAppend(grid: seq<seq<Symbol>>, row: seq<Symbol>)
    ensures TotalCoefficient(grid + [row]) == TotalCoefficient(grid) + RowCoefficient(row)
  {
    assert (grid + [row])[..|grid|] == grid;
  }
}
