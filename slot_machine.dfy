/** `SimplifiedSlotMachine`: the machine object whose balance, input position,
    random-draw position and output the methods below update in place. Each
    method is proved to do what the matching function of `Sampling`,
    `SpinModel`, `Requests` or `Session` says. */
module SlotMachineCore {
  import opened Models
  import opened Sampling
  import opened Payline
  import opened SpinModel
  import opened Requests
  import opened Session

  class SimplifiedSlotMachine {
    const settings: Settings
    const texts: Texts
    /** The random draws by position (`_random.Next(0, 100)`). */
    const rng: nat -> Percent
    /** The lines the input callback returns, in order. */
    const input: seq<Option<string>>
    /** How the won amount and the balance are printed. */
    const formatMoney: real -> string
    /** The symbol each draw position yields: the sampler applied to `rng`. */
    ghost const draws: nat -> Result<Symbol>
    /** The row drawn from each draw position. */
    ghost const rowAt: nat -> RowDraw
    /** The spin that starts at each draw position. */
    ghost const spinAt: nat -> SpinRun

    /** `Balance`, which callers may also set directly. */
    var balance: real
    /** Random draws consumed so far. */
    var drawn: nat
    /** Input lines consumed so far. */
    var readCount: nat
    /** Everything written to the output callback so far. */
    var output: seq<string>

    ghost predicate Valid()
      reads this
    {
      readCount <= |input| && Sampled()
    }

    /** `draws` is what `GetRandomSymbol` makes of the random numbers,
        `rowAt` the rows drawn from them and `spinAt` the spins. */
    ghost predicate Sampled()
    {
      && SampledBy(draws, settings.symbols, rng)
      && RowsDrawnBy(rowAt, draws, settings.symbolsPerRow)
      && SpinsDrawnBy(spinAt, settings, rowAt)
    }

    /** The collaborators, bundled as the session functions take them. */
    ghost function Env(): Environment
    {
      Environment(spinAt, input, formatMoney)
    }

    function State(): Machine
      reads this
    {
      Machine(balance, readCount, drawn, output)
    }

    constructor (settings: Settings, texts: Texts, rng: nat -> Percent,
                 input: seq<Option<string>>, formatMoney: real -> string)
      ensures Valid()
      ensures this.settings == settings && this.texts == texts && this.rng == rng
      ensures this.input == input && this.formatMoney == formatMoney
      ensures State() == Machine(0.0, 0, 0, [])
    {
      this.settings := settings;
      this.texts := texts;
      this.rng, this.input, this.formatMoney := rng, input, formatMoney;
      ghost var sampled := (k: nat) => DrawnSymbol(settings.symbols, rng, k);
      draws := sampled;
      ghost var rows := (k: nat) => DrawRow(sampled, k, settings.symbolsPerRow);
      rowAt := rows;
      spinAt := (k: nat) => SpinSpec(settings, rows, k);
      balance := 0.0;
      drawn := 0;
      readCount := 0;
      output := [];
    }

    method RequestDeposit() returns (deposit: Option<real>)
      requires Valid()
      modifies this`readCount, this`output
      ensures Valid()
      ensures var r := MoneyRequest(input, old(readCount), texts.enterDepositAmount, texts.invalidAmount);
              deposit == r.amount && readCount == r.next && output == old(output) + r.lines
    {
      deposit := RequestMoneyAmount(texts.enterDepositAmount, texts.invalidAmount);
    }

    /** Requests amounts until one the balance covers; `None` when the input
        runs out first. */
    method RequestStake() returns (stake: Option<real>)
      requires Valid()
      modifies this`readCount, this`output
      ensures Valid()
      ensures var r := StakeRequest(input, old(readCount), balance, texts);
              stake == r.amount && readCount == r.next && output == old(output) + r.lines
    {
      ghost var funds, written := balance, output;
      ghost var whole := StakeRequest(input, readCount, funds, texts);
      // `from`: where the latest amount request started reading;
      // `start`: the output before that request.
      ghost var from: nat, start := readCount, output;
      stake := RequestMoneyAmount(texts.enterStakeAmount, texts.invalidAmount);
      while stake.Some? && stake.value > balance
        invariant from <= readCount <= |input|
        invariant var m := MoneyRequest(input, from, texts.enterStakeAmount, texts.invalidAmount);
                  stake == m.amount && readCount == m.next && output == start + m.lines
        invariant var rest := StakeRequest(input, from, funds, texts);
                  whole.amount == rest.amount && whole.next == rest.next && written + whole.lines == start + rest.lines
        decreases |input| - readCount, if stake.Some? then 1 else 0
      {
        ghost var m := MoneyRequest(input, from, texts.enterStakeAmount, texts.invalidAmount);
        StakeRequestRetries(input, from, funds, texts);
        AppendAssociative(start, m.lines + [texts.insufficientFunds], StakeRequest(input, m.next, funds, texts).lines);
        AppendAssociative(start, m.lines, [texts.insufficientFunds]);
        output := output + [texts.insufficientFunds];
        from, start := readCount, output;
        stake := RequestMoneyAmount(texts.enterStakeAmount, texts.invalidAmount);
      }
    }

    /** Writes the prompt, then skips every line that does not parse to a
        positive amount, writing the error text and the prompt again for
        each. `None` when the input runs out before an accepted line. */
    method RequestMoneyAmount(requestText: string, errorText: string) returns (amount: Option<real>)
      requires Valid()
      modifies this`readCount, this`output
      ensures Valid()
      ensures var r := MoneyRequest(input, old(readCount), requestText, errorText);
              amount == r.amount && readCount == r.next && output == old(output) + r.lines
    {
      output := output + [requestText];
      while readCount < |input| && !Meets(Positive, input[readCount])
        invariant old(readCount) <= readCount <= |input|
        invariant forall k :: old(readCount) <= k < readCount ==> !Meets(Positive, input[k])
        invariant output == old(output) + [requestText] + Rejections(readCount - old(readCount), requestText, errorText)
        decreases |input| - readCount
      {
        readCount := readCount + 1;
        output := output + [errorText, requestText];
      }
      FirstWhereSkips(input, old(readCount), Positive, readCount);
      if readCount == |input| {
        return None;
      }
      amount := Accept(input[readCount]);
      readCount := readCount + 1;
    }

    /** Resets the balance, adds the deposit and runs the betting loop. */
    method Start() returns (ending: Ending)
      requires Valid()
      modifies this
      ensures Valid()
      ensures Run(ending, State()) == Starting(texts, Env(), old(State()))
    {
      balance := 0.0;
      var deposit := RequestDeposit();
      if deposit.None? {
        return InputExhausted;
      }
      balance := balance + deposit.value;
      ending := StartSpinning();
    }

    /** While the balance is positive: stake, spin, pay out, report; then
        game over. */
    method StartSpinning() returns (ending: Ending)
      requires Valid()
      modifies this
      ensures Valid()
      ensures Run(ending, State()) == Spinning(texts, Env(), old(State()))
    {
      ghost var goal := Spinning(texts, Env(), State());
      while balance > 0.0
        invariant Valid()
        invariant goal == Spinning(texts, Env(), State())
        decreases |input| - readCount
      {
        var stop := PlayRound();
        if stop.Some? {
          return stop.value;
        }
      }
      output := output + [texts.gameOver];
      return GameOver;
    }

    /** One pass of the betting loop: request a stake, take it from the
        balance, spin, add the winnings and report them. `Some(ending)` when
        the pass stopped the session. */
    method PlayRound() returns (stop: Option<Ending>)
      requires Valid()
      modifies this
      ensures Valid()
      ensures match Round(texts, Env(), old(State()))
              case Continue(next) => stop == None && State() == next
              case Stop(ending, last) => stop == Some(ending) && State() == last
    {
      var stakeAmount := RequestStake();
      if stakeAmount.None? {
        return Some(InputExhausted);
      }
      stop := Settle(stakeAmount.value);
    }

    /** Lines 68-75: take the stake from the balance, spin, and pay out
        the winnings with a report, or stop on the sampler's fault. */
    method Settle(stake: real) returns (stop: Option<Ending>)
      requires Sampled()
      modifies this`balance, this`drawn, this`output
      ensures match Session.Settle(texts, Env(), old(State()), stake)
              case Continue(next) => stop == None && State() == next
              case Stop(ending, last) => stop == Some(ending) && State() == last
    {
      balance := balance - stake;
      var result := Spin(stake);
      if result.Err? {
        return Some(Faulted(result.fault));
      }
      balance := balance + result.value;
      output := output + Report(texts, formatMoney, result.value, balance);
      return None;
    }

    /** Writes a blank line, fills `rows` rows of `symbolsPerRow` symbols
        writing each row's display values, writes a blank line, and pays the
        stake times the summed coefficients of the winning rows. */
    method Spin(stakeAmount: real) returns (r: Result<real>)
      requires Sampled()
      modifies this`drawn, this`output
      ensures var run := spinAt(old(drawn));
              && drawn == old(drawn) + run.used
              && output == old(output) + run.lines
              && r == match run.coefficient
                      case Ok(c) => Ok(Winnings(c, stakeAmount))
                      case Err(f) => Err(f)
    {
      assert spinAt(drawn) == SpinSpec(settings, rowAt, drawn);
      output := output + [""];
      var total := FillRows();
      if total.Err? {
        return Err(total.fault);
      }
      output := output + [""];
      return Ok(Winnings(total.value, stakeAmount));
    }

    /** The row loop of `Spin`: each row is filled, its display values are
        written, and its coefficient sum counts when it wins. Stops at the
        first fault. */
    method FillRows() returns (total: Result<real>)
      requires Sampled()
      modifies this`drawn, this`output
      ensures var g := DrawGrid(rowAt, old(drawn), settings.rows, settings.symbolsPerRow);
              && drawn == old(drawn) + g.used
              && output == old(output) + RowLines(g.rows)
              && total == match g.fault
                          case None => Ok(TotalCoefficient(g.rows))
                          case Some(f) => Err(f)
    {
      ghost var start, written := drawn, output;
      ghost var grid := DrawGrid(rowAt, drawn, settings.rows, settings.symbolsPerRow);
      // `done`: the rows drawn so far, `used` the draws they took, `left` the
      // rows still to draw.
      ghost var done: seq<seq<Symbol>> := [];
      ghost var used: nat, left: nat := 0, settings.rows;
      var totalCoefficient := 0.0;
      assert [] + grid.rows == grid.rows;
      for rowIndex := 0 to settings.rows
        invariant left == settings.rows - rowIndex && drawn == start + used
        invariant grid == AfterRows(done, used, DrawGrid(rowAt, drawn, left, settings.symbolsPerRow))
        invariant output == written + RowLines(done)
        invariant totalCoefficient == TotalCoefficient(done)
      {
        ghost var k := drawn;
        var cells, fault, rowTotal := SpinRow(totalCoefficient);
        if fault.Some? {
          DrawGridStops(rowAt, k, left, settings.symbolsPerRow, done, used);
          return Err(fault.value);
        }
        DrawGridStep(rowAt, k, left, settings.symbolsPerRow, done, used);
        RowLinesAppend(done, cells);
        TotalCoefficientAppend(done, cells);
        totalCoefficient := rowTotal;
        done, used, left := done + [cells], used + settings.symbolsPerRow, left - 1;
      }
      assert done + [] == done;
      return Ok(totalCoefficient);
    }

    /** The body of the row loop of `Spin`: fill a row, write its display
        values, and add its coefficient sum to `totalCoefficient` when it
        wins. */
    method SpinRow(totalCoefficient: real) returns (cells: seq<Symbol>, fault: Option<SamplerFault>, newTotal: real)
      requires Sampled()
      modifies this`drawn, this`output
      ensures var d := rowAt(old(drawn));
              && drawn == old(drawn) + d.used
              && fault == d.fault
              && (fault.Some? ==> output == old(output))
              && (fault.None? ==> cells == d.cells && d.used == settings.symbolsPerRow
                                  && output == old(output) + [RowLine(cells)]
                                  && newTotal == totalCoefficient + RowCoefficient(cells))
    {
      newTotal := totalCoefficient;
      cells, fault := FillRow();
      if fault.Some? {
        return;
      }
      output := output + [RowLine(cells)];
      if RowIsWinning(cells) {
        newTotal := newTotal + CoefficientSum(cells);
      }
    }

    /** One row of `Spin`: a new array of `symbolsPerRow` symbols filled by
        the inner loop, one `GetRandomSymbol()` per column, stopping at the
        first fault. */
    method FillRow() returns (cells: seq<Symbol>, fault: Option<SamplerFault>)
      requires SampledBy(draws, settings.symbols, rng)
      modifies this`drawn
      ensures var d := DrawRow(draws, old(drawn), settings.symbolsPerRow);
              && drawn == old(drawn) + d.used
              && fault == d.fault
              && (fault.None? ==> cells == d.cells && d.used == settings.symbolsPerRow)
    {
      var row := new Symbol[settings.symbolsPerRow];
      ghost var start := drawn;
      ghost var whole := DrawRow(draws, drawn, row.Length);
      // `prefix`: the cells drawn so far.
      ghost var prefix: seq<Symbol> := [];
      assert [] + whole.cells == whole.cells;
      for colIndex := 0 to row.Length
        invariant |prefix| == colIndex && drawn == start + colIndex
        invariant forall j :: 0 <= j < colIndex ==> row[j] == prefix[j]
        invariant whole == AfterCells(prefix, DrawRow(draws, drawn, row.Length - colIndex))
      {
        DrawRowStep(draws, drawn, row.Length - colIndex, prefix);
        var symbol := GetRandomSymbol();
        if symbol.Err? {
          return [], Some(symbol.fault);
        }
        row[colIndex] := symbol.value;
        prefix := prefix + [symbol.value];
      }
      assert row[..] == prefix + [];
      return row[..], None;
    }

    /** Draws the next random number and returns the symbol whose band holds
        it, or the fault when none does. */
    method GetRandomSymbol() returns (r: Result<Symbol>)
      modifies this`drawn
      ensures drawn == old(drawn) + 1
      ensures r == DrawnSymbol(settings.symbols, rng, old(drawn))
    {
      var randomNumber := rng(drawn);
      drawn := drawn + 1;
      r := PickSymbol(settings.symbols, randomNumber);
    }
  }
}
