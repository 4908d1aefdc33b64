/** What one `Spin` does, as a function of the symbol draws and the settings:
    the grid is filled row by row, column by column, one draw per cell; the
    first draw no band holds aborts the spin with the sampler's fault. The
    lines are what the spin writes to the output.

    A row is stated over `draws`, the result of the draw at each position
    (`GetRandomSymbol`); `SampledBy` says that these are the results of the
    weighted sampler applied to the random numbers. A grid is stated over
    `rowAt`, the row drawn from each position; `RowsDrawnBy` says that these
    are the rows `DrawRow` draws. */
module SpinModel {
  import opened Models
  import opened Sampling
  import opened Payline

  /** The cells drawn for one row from the draws at `start`, `start + 1`, ...;
      `used` counts the draws consumed, the faulting one included. */
  datatype RowDraw = RowDraw(cells: seq<Symbol>, fault: Option<SamplerFault>, used: nat)

  /** The complete rows drawn, the fault that stopped the grid if any, and the
      draws consumed. */
  datatype GridDraw = GridDraw(rows: seq<seq<Symbol>>, fault: Option<SamplerFault>, used: nat)

  /** The outcome of a spin: its total coefficient (or the sampler's fault),
      the draws it consumed and the lines it wrote. */
  datatype SpinRun = SpinRun(coefficient: Result<real>, used: nat, lines: seq<string>)

  /** The symbol the draw at position `k` selects (`GetRandomSymbol`). */
  function DrawnSymbol(symbols: seq<Symbol>, rng: nat -> Percent, k: nat): Result<Symbol>
  {
    Sample(symbols, rng(k))
  }

  /** `draws` holds, at every position, what the sampler makes of the random
      number drawn there. */
  ghost predicate SampledBy(draws: nat -> Result<Symbol>, symbols: seq<Symbol>, rng: nat -> Percent)
  {
    forall k {:trigger DrawnSymbol(symbols, rng, k)} :: draws(k) == DrawnSymbol(symbols, rng, k)
  }

  /** Every symbol drawn is a symbol of the catalog. */
  ghost predicate DrawsFrom(draws: nat -> Result<Symbol>, symbols: seq<Symbol>)
  {
    forall k :: draws(k).Ok? ==> draws(k).value in symbols
  }

  /** Every cell of the row is a symbol of the catalog. */
  predicate CellsFrom(row: seq<Symbol>, symbols: seq<Symbol>)
  {
    forall c :: 0 <= c < |row| ==> row[c] in symbols
  }

  /** The sampler only returns catalog symbols. */
  lemma {:induction false} SampledDrawsFromCatalog(draws: nat -> Result<Symbol>, symbols: seq<Symbol>, rng: nat -> Percent)
    requires SampledBy(draws, symbols, rng)
    ensures DrawsFrom(draws, symbols)
  {
    forall k | draws(k).Ok? ensures draws(k).value in symbols {
      assert draws(k) == DrawnSymbol(symbols, rng, k);
    }
  }

  function DrawRow(draws: nat -> Result<Symbol>, start: nat, cols: nat): RowDraw
    decreases cols
  {
    if cols == 0 then RowDraw([], None, 0)
    else
      match draws(start)
      case Err(f) => RowDraw([], Some(f), 1)
      case Ok(s) =>
        var rest := DrawRow(draws, start + 1, cols - 1);
        RowDraw([s] + rest.cells, rest.fault, 1 + rest.used)
  }

  /** A row either completes with `cols` cells, one draw each, or stops at
      its first draw that faults; every cell is the symbol drawn for it. */
  lemma {:induction false} DrawRowShape(draws: nat -> Result<Symbol>, start: nat, cols: nat)
    ensures var d := DrawRow(draws, start, cols);
            && (d.fault.None? ==> |d.cells| == cols && d.used == cols)
            && (d.fault.Some? ==> d.used == |d.cells| + 1 <= cols && draws(start + |d.cells|) == Err(d.fault.value))
            && (forall c :: 0 <= c < |d.cells| ==> draws(start + c) == Ok(d.cells[c]))
    decreases cols
  {
    if cols > 0 && draws(start).Ok? {
      var d := DrawRow(draws, start, cols);
      var rest := DrawRow(draws, start + 1, cols - 1);
      DrawRowShape(draws, start + 1, cols - 1);
      assert d.cells == [draws(start).value] + rest.cells;
      forall c | 0 <= c < |d.cells| ensures draws(start + c) == Ok(d.cells[c]) {
        if c > 0 {
          assert d.cells[c] == rest.cells[c - 1];
        }
      }
    }
  }

  /** A row completes exactly when every one of its `cols` draws is matched. */
  lemma {:induction false} DrawRowCompletesIffAllMatched(draws: nat -> Result<Symbol>, start: nat, cols: nat)
    ensures DrawRow(draws, start, cols).fault.None? <==> forall k :: start <= k < start + cols ==> draws(k).Ok?
    decreases cols
  {
    if cols > 0 && draws(start).Ok? {
      DrawRowCompletesIffAllMatched(draws, start + 1, cols - 1);
    }
  }

  /** With catalog draws, every cell of a row is a catalog symbol. */
  lemma {:induction false} DrawRowFromCatalog(draws: nat -> Result<Symbol>, symbols: seq<Symbol>, start: nat, cols: nat)
    requires DrawsFrom(draws, symbols)
    ensures CellsFrom(DrawRow(draws, start, cols).cells, symbols)
  {
    var d := DrawRow(draws, start, cols);
    DrawRowShape(draws, start, cols);
    forall c | 0 <= c < |d.cells| ensures d.cells[c] in symbols {
      assert draws(start + c) == Ok(d.cells[c]);
    }
  }

  /** A row draw preceded by the cells `prefix` already drawn. */
  function AfterCells(prefix: seq<Symbol>, d: RowDraw): RowDraw
  {
    RowDraw(prefix + d.cells, d.fault, |prefix| + d.used)
  }

  /** Drawing a row cell by cell: a matched draw moves one cell into the
      prefix; an unmatched one ends the row with its fault. */
  lemma {:induction false} DrawRowStep(draws: nat -> Result<Symbol>, k: nat, n: nat, prefix: seq<Symbol>)
    requires n > 0
    ensures match draws(k)
            case Ok(s) => AfterCells(prefix, DrawRow(draws, k, n)) == AfterCells(prefix + [s], DrawRow(draws, k + 1, n - 1))
            case Err(f) => AfterCells(prefix, DrawRow(draws, k, n)) == RowDraw(prefix, Some(f), |prefix| + 1)
  {
    match draws(k)
    case Ok(s) =>
      var rest := DrawRow(draws, k + 1, n - 1);
      assert prefix + ([s] + rest.cells) == (prefix + [s]) + rest.cells;
    case Err(f) =>
      assert prefix + [] == prefix;
  }

  /** `rowAt` holds, at every position, the row drawn from there. */
  ghost predicate RowsDrawnBy(rowAt: nat -> RowDraw, draws: nat -> Result<Symbol>, cols: nat)
  {
    forall k {:trigger DrawRow(draws, k, cols)} :: rowAt(k) == DrawRow(draws, k, cols)
  }

  /** Every cell of every row is a symbol of the catalog. */
  ghost predicate RowsFromCatalog(rowAt: nat -> RowDraw, symbols: seq<Symbol>)
  {
    forall k :: CellsFrom(rowAt(k).cells, symbols)
  }

  /** Rows drawn by the sampler hold only catalog symbols. */
  lemma {:induction false} SampledRowsFromCatalog(rowAt: nat -> RowDraw, draws: nat -> Result<Symbol>,
                                                  symbols: seq<Symbol>, rng: nat -> Percent, cols: nat)
    requires SampledBy(draws, symbols, rng) && RowsDrawnBy(rowAt, draws, cols)
    ensures RowsFromCatalog(rowAt, symbols)
  {
    SampledDrawsFromCatalog(draws, symbols, rng);
    forall k ensures CellsFrom(rowAt(k).cells, symbols) {
      assert rowAt(k) == DrawRow(draws, k, cols);
      DrawRowFromCatalog(draws, symbols, k, cols);
    }
  }

  /** The rows of a grid, drawn one after another from position `start`:
      a row that faults ends the grid, a completed one took `cols` draws. */
  function DrawGrid(rowAt: nat -> RowDraw, start: nat, rows: nat, cols: nat): GridDraw
    decreases rows
  {
    if rows == 0 then GridDraw([], None, 0)
    else
      var row := rowAt(start);
      if row.fault.Some? then GridDraw([], row.fault, row.used)
      else
        var rest := DrawGrid(rowAt, start + cols, rows - 1, cols);
        GridDraw([row.cells] + rest.rows, rest.fault, cols + rest.used)
  }

  /** A grid holds only complete rows of `cols` cells: all `rows` of them, or
      fewer when a draw stopped it, and then its fault is that draw's. */
  lemma {:induction false} DrawGridShape(rowAt: nat -> RowDraw, draws: nat -> Result<Symbol>, start: nat, rows: nat, cols: nat)
    requires RowsDrawnBy(rowAt, draws, cols)
    ensures var g := DrawGrid(rowAt, start, rows, cols);
            && (g.fault.None? ==> |g.rows| == rows)
            && (g.fault.Some? ==> |g.rows| < rows && exists k :: start <= k && draws(k) == Err(g.fault.value))
            && (forall r :: 0 <= r < |g.rows| ==> |g.rows[r]| == cols)
    decreases rows
  {
    if rows > 0 {
      var g := DrawGrid(rowAt, start, rows, cols);
      var row := DrawRow(draws, start, cols);
      assert rowAt(start) == row;
      DrawRowShape(draws, start, cols);
      if row.fault.None? {
        var rest := DrawGrid(rowAt, start + cols, rows - 1, cols);
        DrawGridShape(rowAt, draws, start + cols, rows - 1, cols);
        assert g == GridDraw([row.cells] + rest.rows, rest.fault, cols + rest.used);
        forall r | 0 <= r < |g.rows| ensures |g.rows[r]| == cols {
          if r > 0 {
            assert g.rows[r] == rest.rows[r - 1];
          }
        }
      } else {
        assert draws(start + |row.cells|) == Err(g.fault.value);
      }
    }
  }

  /** With catalog rows, every cell of the grid is a catalog symbol. */
  lemma {:induction false} DrawGridFromCatalog(rowAt: nat -> RowDraw, symbols: seq<Symbol>, start: nat, rows: nat, cols: nat)
    requires RowsFromCatalog(rowAt, symbols)
    ensures forall r :: 0 <= r < |DrawGrid(rowAt, start, rows, cols).rows| ==>
              CellsFrom(DrawGrid(rowAt, start, rows, cols).rows[r], symbols)
    decreases rows
  {
    if rows > 0 {
      var g := DrawGrid(rowAt, start, rows, cols);
      var row := rowAt(start);
      if row.fault.None? {
        var rest := DrawGrid(rowAt, start + cols, rows - 1, cols);
        DrawGridFromCatalog(rowAt, symbols, start + cols, rows - 1, cols);
        assert g == GridDraw([row.cells] + rest.rows, rest.fault, cols + rest.used);
        forall r | 0 <= r < |g.rows| ensures CellsFrom(g.rows[r], symbols) {
          if r == 0 {
            assert g.rows[0] == row.cells;
          } else {
            assert g.rows[r] == rest.rows[r - 1];
          }
        }
      }
    }
  }

  /** A grid drawn without a fault consumes exactly one draw per cell. */
  lemma {:induction false} DrawGridUsesOneDrawPerCell(rowAt: nat -> RowDraw, start: nat, rows: nat, cols: nat)
    requires DrawGrid(rowAt, start, rows, cols).fault.None?
    ensures DrawGrid(rowAt, start, rows, cols).used == rows * cols
    decreases rows
  {
    if rows > 0 {
      DrawGridUsesOneDrawPerCell(rowAt, start + cols, rows - 1, cols);
      assert rows * cols == cols + (rows - 1) * cols;
    }
  }

  /** A grid draw preceded by the rows `done` already drawn, which used
      `used` draws. */
  function AfterRows(done: seq<seq<Symbol>>, used: nat, g: GridDraw): GridDraw
  {
    GridDraw(done + g.rows, g.fault, used + g.used)
  }

  /** Drawing a grid row by row: a completed row moves into the rows drawn. */
  lemma {:induction false} DrawGridStep(rowAt: nat -> RowDraw, k: nat, rows: nat, cols: nat,
                                        done: seq<seq<Symbol>>, used: nat)
    requires rows > 0 && rowAt(k).fault.None?
    ensures AfterRows(done, used, DrawGrid(rowAt, k, rows, cols))
              == AfterRows(done + [rowAt(k).cells], used + cols, DrawGrid(rowAt, k + cols, rows - 1, cols))
  {
    var rest := DrawGrid(rowAt, k + cols, rows - 1, cols);
    assert done + ([rowAt(k).cells] + rest.rows) == (done + [rowAt(k).cells]) + rest.rows;
  }

  /** A row that meets an unmatched draw ends the grid with its fault. */
  lemma {:induction false} DrawGridStops(rowAt: nat -> RowDraw, k: nat, rows: nat, cols: nat,
                                         done: seq<seq<Symbol>>, used: nat)
    requires rows > 0 && rowAt(k).fault.Some?
    ensures AfterRows(done, used, DrawGrid(rowAt, k, rows, cols)) == GridDraw(done, rowAt(k).fault, used + rowAt(k).used)
  {
    assert done + [] == done;
  }

  /** One spin starting at draw position `start`: a blank line, one line per
      completed row, and a closing blank line when no draw faulted. The spin
      pays the stake times `coefficient`, the total coefficient of its grid. */
  function SpinSpec(settings: Settings, rowAt: nat -> RowDraw, start: nat): (run: SpinRun)
  {
    var g := DrawGrid(rowAt, start, settings.rows, settings.symbolsPerRow);
    match g.fault
    case None => SpinRun(Ok(TotalCoefficient(g.rows)), g.used, [""] + RowLines(g.rows) + [""])
    case Some(f) => SpinRun(Err(f), g.used, [""] + RowLines(g.rows))
  }

  /** `spinAt` holds, at every draw position, the spin that starts there. */
  ghost predicate SpinsDrawnBy(spinAt: nat -> SpinRun, settings: Settings, rowAt: nat -> RowDraw)
  {
    forall k {:trigger SpinSpec(settings, rowAt, k)} :: spinAt(k) == SpinSpec(settings, rowAt, k)
  }

  /** The grid a spin draws (meaningful when the spin did not fault). */
  function SpinGrid(settings: Settings, rowAt: nat -> RowDraw, start: nat): seq<seq<Symbol>>
  {
    DrawGrid(rowAt, start, settings.rows, settings.symbolsPerRow).rows
  }

  /** A completed spin draws `rows` rows of `symbolsPerRow` symbols, one draw
      per cell, writes `rows + 2` lines (a blank line, each row's display
      values in row order, a blank line) and its coefficient is the total
      coefficient of that grid. */
  lemma {:induction false} SpinShape(settings: Settings, rowAt: nat -> RowDraw, draws: nat -> Result<Symbol>, start: nat)
    requires RowsDrawnBy(rowAt, draws, settings.symbolsPerRow)
    requires SpinSpec(settings, rowAt, start).coefficient.Ok?
    ensures var run := SpinSpec(settings, rowAt, start);
            var grid := SpinGrid(settings, rowAt, start);
            && |grid| == settings.rows
            && (forall r :: 0 <= r < settings.rows ==> |grid[r]| == settings.symbolsPerRow)
            && run.used == settings.rows * settings.symbolsPerRow
            && run.coefficient.value == TotalCoefficient(grid)
            && |run.lines| == settings.rows + 2
            && run.lines[0] == "" && run.lines[settings.rows + 1] == ""
            && (forall r :: 0 <= r < settings.rows ==> run.lines[r + 1] == RowLine(grid[r]))
  {
    var grid := SpinGrid(settings, rowAt, start);
    DrawGridShape(rowAt, draws, start, settings.rows, settings.symbolsPerRow);
    DrawGridUsesOneDrawPerCell(rowAt, start, settings.rows, settings.symbolsPerRow);
    var lines := [""] + RowLines(grid) + [""];
    assert SpinSpec(settings, rowAt, start).lines == lines;
    RowLinesShowRows(grid);
    forall r | 0 <= r < settings.rows ensures lines[r + 1] == RowLine(grid[r]) {
      assert lines[r + 1] == RowLines(grid)[r];
    }
  }

  /** A spin faults only on a random number beyond every band, and reports
      that number. */
  lemma {:induction false} SpinFaultsBeyondWeights(settings: Settings, rowAt: nat -> RowDraw, draws: nat -> Result<Symbol>,
                                                   rng: nat -> Percent, start: nat)
    requires SampledBy(draws, settings.symbols, rng) && RowsDrawnBy(rowAt, draws, settings.symbolsPerRow)
    ensures var run := SpinSpec(settings, rowAt, start);
            run.coefficient.Err? ==> WeightSum(settings.symbols) <= run.coefficient.fault.draw < 100
  {
    var g := DrawGrid(rowAt, start, settings.rows, settings.symbolsPerRow);
    DrawGridShape(rowAt, draws, start, settings.rows, settings.symbolsPerRow);
    if g.fault.Some? {
      var k :| start <= k && draws(k) == Err(g.fault.value);
      assert draws(k) == DrawnSymbol(settings.symbols, rng, k);
      SampleFaultsBeyondWeights(settings.symbols, rng(k));
    }
  }

  /** So a catalog whose weights reach 100 never faults. */
  lemma {:induction false} FullCatalogNeverFaults(settings: Settings, rowAt: nat -> RowDraw, draws: nat -> Result<Symbol>,
                                                  rng: nat -> Percent, start: nat)
    requires SampledBy(draws, settings.symbols, rng) && RowsDrawnBy(rowAt, draws, settings.symbolsPerRow)
    requires WeightSum(settings.symbols) >= 100
    ensures SpinSpec(settings, rowAt, start).coefficient.Ok?
  {
    SpinFaultsBeyondWeights(settings, rowAt, draws, rng, start);
  }

  /** With non-negative coefficients and catalog rows, the total coefficient
      of a spin is never negative. */
  lemma {:induction false} SpinCoefficientNonNegative(settings: Settings, rowAt: nat -> RowDraw, start: nat)
    requires NonNegativeCoefficients(settings.symbols) && RowsFromCatalog(rowAt, settings.symbols)
    ensures var run := SpinSpec(settings, rowAt, start);
            run.coefficient.Ok? ==> run.coefficient.value >= 0.0
  {
    var grid := SpinGrid(settings, rowAt, start);
    DrawGridFromCatalog(rowAt, settings.symbols, start, settings.rows, settings.symbolsPerRow);
    assert grid == DrawGrid(rowAt, start, settings.rows, settings.symbolsPerRow).rows;
    forall r | 0 <= r < |grid| ensures NonNegativeCoefficients(grid[r]) {
      assert CellsFrom(grid[r], settings.symbols);
      forall c | 0 <= c < |grid[r]| ensures grid[r][c].coefficient >= 0.0 {
        assert grid[r][c] in settings.symbols;
      }
    }
    TotalCoefficientNonNegative(grid);
  }

  /** A spin in which no row wins has total coefficient zero: it pays nothing. */
  lemma {:induction false} LosingSpinPaysZero(settings: Settings, rowAt: nat -> RowDraw, start: nat)
    requires forall r :: 0 <= r < |SpinGrid(settings, rowAt, start)| ==> !RowIsWinning(SpinGrid(settings, rowAt, start)[r])
    ensures var run := SpinSpec(settings, rowAt, start);
            run.coefficient.Ok? ==> run.coefficient.value == 0.0
  {
    NoWinningRowPaysNothing(SpinGrid(settings, rowAt, start));
  }
}
