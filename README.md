# Simplified slot machine, modelled in Dafny

This project models `SimplifiedSlotMachine`, the console slot machine's game
object. It takes a deposit, then plays rounds while the balance is positive:
ask for a stake, subtract it, spin a grid of `Rows` x `SymbolsPerRow` random
symbols, and pay the stake times the summed coefficients of the winning rows.
A row wins when all its non-wildcard symbols show one and the same display
value. The game ends with the game-over text.

The machine is the class `SlotMachineCore.SimplifiedSlotMachine`
(`slot_machine.dfy`). Its fields are the balance, the position in the input,
the number of random draws used so far, and everything written so far. Each
method of the class is proved equal to a function over values:

- `Sampling` (`sampling.dfy`): the symbol catalog as cumulative weight bands,
  and `Sample`, the symbol a random number picks, or the fault when no band
  holds it.
- `Payline` (`payline.dfy`): when a row wins, what a row and a grid pay, and
  the line each row prints.
- `AmountParsing` (`amount_parsing.dfy`): the subset of `decimal.TryParse`
  that the input loops rely on, and `ToString()` for whole amounts.
- `Requests` (`requests.dfy`): the deposit and stake request loops as
  functions of the input lines.
- `SpinModel` (`spin_model.dfy`): the rows and the grid one spin draws, and
  what the spin pays.
- `Session` (`session.dfy`): one round, the betting loop, and a whole game.
- `Models` (`models.dfy`): the value types.

The machine's collaborators are supplied when the object is built:

- the random generator becomes `rng`, the value of the k-th
  `Random.Next(0, 100)`;
- the input callback becomes `input`, the lines it returns in order, with
  `None` for a null line;
- the output callback becomes the `output` field, every line written;
- the way money is printed becomes `formatMoney`.

The class also keeps three ghost views of `rng`:

- `draws`: the symbol (or fault) each draw position yields;
- `rowAt`: the row drawn from each position;
- `spinAt`: the spin that starts at each position.

All three are tied to `rng` by `Valid()`. They keep the proofs of the row,
grid and round loops from unfolding the sampler and the spin.

## Model

| member | source | states |
|---|---|---|
| Sampling.BandIndex | SlotMachine.Core/SimplifiedSlotMachine.cs:112-123 | Reference definition of the catalog walk: try each band in order, shifting the draw past every band it misses. A found index is a catalog index. |
| Sampling.BandIndexFindsBand | SlotMachine.Core/SimplifiedSlotMachine.cs:112-123 | The loop over the catalog finds the band `[BandStart(i), BandStart(i+1))` that holds the draw. It finds none exactly when the draw is at or beyond the sum of all weights. |
| Sampling.Sample | SlotMachine.Core/SimplifiedSlotMachine.cs:113-125 | A sampled symbol is always a catalog symbol. A failed sample reports the unmatched random number. |
| Sampling.SampleFaultsBeyondWeights | SlotMachine.Core/SimplifiedSlotMachine.cs:113-125 | The sampler throws exactly when the draw is at or beyond the sum of the weights (both directions). |
| Sampling.SampleInBand | SlotMachine.Core/SimplifiedSlotMachine.cs:113-123 | A draw in symbol i's band returns symbol i. Every earlier band lies below the draw, so the first match wins. |
| Sampling.SampledFromBand | SlotMachine.Core/SimplifiedSlotMachine.cs:113-118 | Any symbol the sampler returns is the symbol at the index whose band holds the draw. |
| Sampling.PickSymbol | SlotMachine.Core/SimplifiedSlotMachine.cs:112-125 | The loop with a running band edge returns exactly what `Sample` specifies, including the fault. |
| Payline.RowIsWinning | SlotMachine.Core/SimplifiedSlotMachine.cs:97 | Reference definition, no contract of its own: the non-wildcard symbols of the row show exactly one distinct display value. `RowIsWinningIff` states what that means. |
| Payline.CoefficientSum | SlotMachine.Core/SimplifiedSlotMachine.cs:99 | Reference definition, no contract of its own: the sum of the coefficients of every symbol in the row, wildcards included. |
| Payline.TotalCoefficient | SlotMachine.Core/SimplifiedSlotMachine.cs:83-100 | Reference definition, no contract of its own: starting from 0, add the coefficient sum of each winning row, in row order. |
| Payline.RowLines | SlotMachine.Core/SimplifiedSlotMachine.cs:95 | The lines a spin prints for its rows: one line per row. |
| Payline.RowIsWinningIff | SlotMachine.Core/SimplifiedSlotMachine.cs:97 | A row wins exactly when it has a non-wildcard symbol and every non-wildcard symbol shows that symbol's value. |
| Payline.AllWildcardRowLoses | SlotMachine.Core/SimplifiedSlotMachine.cs:97 | A row made only of wildcards does not win: the distinct count is 0, not 1. |
| Payline.MismatchedRowLoses | SlotMachine.Tests/SlotMachineCoreTests.cs:320-348 | Two non-wildcard symbols with different values make the row lose, with or without a wildcard in it. |
| Payline.CoefficientSumNonNegative | SlotMachine.Core/SimplifiedSlotMachine.cs:99 | The coefficient sum of a row of non-negative coefficients is non-negative. |
| Payline.CoefficientSumPositive | SlotMachine.Core/SimplifiedSlotMachine.cs:99 | If one symbol of such a row pays strictly, the row's coefficient sum is positive. |
| Payline.TotalCoefficientNonNegative | SlotMachine.Core/SimplifiedSlotMachine.cs:97-100 | A grid of non-negative coefficients never has a negative total coefficient. |
| Payline.NoWinningRowPaysNothing | SlotMachine.Core/SimplifiedSlotMachine.cs:97-100 | A grid with no winning row has total coefficient 0. |
| Payline.PaysIffSomeRowWins | SlotMachine.Core/SimplifiedSlotMachine.cs:97-100 | Suppose coefficients are non-negative and positive on non-wildcards. Then the total is positive exactly when some row wins. |
| Payline.RowLine | SlotMachine.Core/SimplifiedSlotMachine.cs:95 | The printed line of a row has one character per symbol. |
| Payline.RowLineShowsValues | SlotMachine.Core/SimplifiedSlotMachine.cs:95 | Character i of a row's line is the display value of symbol i. |
| Payline.RowLinesShowRows | SlotMachine.Core/SimplifiedSlotMachine.cs:87-101 | Line r of a spin's grid lines is the line of row r. |
| Payline.RowLinesAppend | SlotMachine.Core/SimplifiedSlotMachine.cs:95 | Proof step for `FillRows`: printing one more row appends its line to the grid's lines. |
| Payline.TotalCoefficientAppend | SlotMachine.Core/SimplifiedSlotMachine.cs:97-100 | Proof step for `FillRows`: scoring one more row adds exactly that row's payout (its coefficient sum if it wins, else 0). |
| AmountParsing.ParseDecimal | SlotMachine.Core/SimplifiedSlotMachine.cs:44 | The `decimal.TryParse` subset: one sign, leading or trailing, then digits with at most one decimal point. A line that parses is present and not empty. |
| AmountParsing.FormatInteger | SlotMachine.Tests/SlotMachineCoreTests.cs:28 | Reference definition, no contract of its own: the text `ToString()` gives a whole amount, as the tests type it in. Negative amounts get a leading minus. |
| AmountParsing.ParseFormatInteger | SlotMachine.Core/SimplifiedSlotMachine.cs:44 | Round trip: the text of any whole amount, negative ones included, parses back to that amount. |
| AmountParsing.MalformedLinesDoNotParse | SlotMachine.Tests/SlotMachineCoreTests.cs:79-92 | A null line, the empty line, "abc", "a123" and "--123" do not parse. |
| AmountParsing.TrailingSignParses | SlotMachine.Core/SimplifiedSlotMachine.cs:44 | A trailing sign is accepted, as `NumberStyles.Number` allows: "5+" parses as 5 and "5-" as -5. A line with both a leading and a trailing sign does not parse. |
| Requests.Accept | SlotMachine.Core/SimplifiedSlotMachine.cs:44 | Reference definition, no contract of its own: the loop condition. A line is accepted when it parses and the amount is above 0. |
| Requests.FirstWhere | SlotMachine.Core/SimplifiedSlotMachine.cs:44-48 | The line a request loop stops at lies in the remaining input and meets what the loop waits for. |
| Requests.FirstWhereIsFirst | SlotMachine.Core/SimplifiedSlotMachine.cs:44-48 | Every line before that one fails the test. With no such line, every remaining line fails it. |
| Requests.FirstWhereSkips | SlotMachine.Core/SimplifiedSlotMachine.cs:44-48 | Skipping lines that fail the test does not change the line found. |
| Requests.Rejections | SlotMachine.Core/SimplifiedSlotMachine.cs:46-47 | n rejected lines write 2n lines. |
| Requests.RejectionsAlternate | SlotMachine.Core/SimplifiedSlotMachine.cs:44-48 | Those 2n lines alternate between the error text and the prompt. |
| Requests.MoneyRequest | SlotMachine.Core/SimplifiedSlotMachine.cs:38-51 | An accepted amount is strictly positive. It is the parse of the last line read. Without one, the whole input is consumed. |
| Requests.MoneyRequestSkipsRejected | SlotMachine.Core/SimplifiedSlotMachine.cs:42-48 | The request writes the prompt, then an error and prompt pair per rejected line. It returns the first line that parses to a positive amount. |
| Requests.StakeRequest | SlotMachine.Core/SimplifiedSlotMachine.cs:25-36 | A stake is strictly positive and never exceeds the balance. |
| Requests.StakeRequestRetries | SlotMachine.Core/SimplifiedSlotMachine.cs:29-33 | Proof step: an amount above the balance writes the insufficient-funds text and asks again from the next line. |
| Requests.StakeIsFirstAffordable | SlotMachine.Core/SimplifiedSlotMachine.cs:25-36 | The stake is the first accepted amount that the balance covers. |
| Requests.InsufficientFundsPerOverBalanceAmount | SlotMachine.Core/SimplifiedSlotMachine.cs:29-33 | The insufficient-funds text appears in a stake request's output exactly once per accepted amount above the balance. This holds when that text differs from the prompt and the error text. |
| Requests.OccurrencesAppend | SlotMachine.Core/SimplifiedSlotMachine.cs:29-33 | Proof step: counting a text in two outputs written one after the other adds the two counts. |
| Requests.RejectionsOmit | SlotMachine.Core/SimplifiedSlotMachine.cs:46-47 | Proof step: the error and prompt pairs of rejected lines never contain a third text. |
| Requests.OverBalanceSkipsRejected | SlotMachine.Core/SimplifiedSlotMachine.cs:44-48 | Proof step: lines the money validator rejects add nothing to the count of over-balance amounts. |
| Requests.AcceptFormatInteger | SlotMachine.Core/SimplifiedSlotMachine.cs:44 | A whole amount typed in is accepted exactly when it is positive. |
| Requests.AcceptsValidAmount | SlotMachine.Tests/SlotMachineCoreTests.cs:21-32 | A positive whole deposit is returned as typed, after the prompt alone. |
| Requests.RejectedLineShowsError | SlotMachine.Tests/SlotMachineCoreTests.cs:34-47 | A rejected line makes the request write the error text right after the prompt. |
| Requests.RetriesAfterNonPositiveAmount | SlotMachine.Tests/SlotMachineCoreTests.cs:49-77 | A zero or negative amount followed by a positive one yields the positive one, with one error and prompt pair written. |
| Requests.RetriesAfterInsufficientFunds | SlotMachine.Tests/SlotMachineCoreTests.cs:185-212 | A stake above the balance followed by an affordable one yields the affordable one. The insufficient-funds text is written in between. |
| SpinModel.SampledDrawsFromCatalog | SlotMachine.Core/SimplifiedSlotMachine.cs:113-117 | Every symbol `GetRandomSymbol` yields is a catalog symbol. |
| SpinModel.DrawRow | SlotMachine.Core/SimplifiedSlotMachine.cs:89-93 | Reference definition, no contract of its own: draw `SymbolsPerRow` cells from consecutive positions, stopping at the first unmatched draw. |
| SpinModel.DrawRowShape | SlotMachine.Core/SimplifiedSlotMachine.cs:89-93 | A row either completes with `SymbolsPerRow` cells, one draw each, or stops at its first unmatched draw. Each cell is the symbol drawn for it. |
| SpinModel.DrawRowCompletesIffAllMatched | SlotMachine.Core/SimplifiedSlotMachine.cs:90-93 | A row completes exactly when each of its draws is matched. |
| SpinModel.DrawRowFromCatalog | SlotMachine.Core/SimplifiedSlotMachine.cs:92 | With catalog draws, every cell of a row is a catalog symbol. |
| SpinModel.DrawRowStep | SlotMachine.Core/SimplifiedSlotMachine.cs:90-93 | Proof step for `FillRow`: filling a row column by column: a matched draw moves one cell into the prefix, and an unmatched one ends the row with its fault. |
| SpinModel.SampledRowsFromCatalog | SlotMachine.Core/SimplifiedSlotMachine.cs:89-93 | Rows drawn through the sampler hold only catalog symbols. |
| SpinModel.DrawGrid | SlotMachine.Core/SimplifiedSlotMachine.cs:87-101 | Reference definition, no contract of its own: draw `Rows` rows one after another, stopping at the first row that faults. |
| SpinModel.DrawGridShape | SlotMachine.Core/SimplifiedSlotMachine.cs:87-101 | A grid holds complete rows only: all `Rows` of them, or fewer when some draw faulted, and then the fault is that draw's. |
| SpinModel.DrawGridFromCatalog | SlotMachine.Core/SimplifiedSlotMachine.cs:87-93 | Every cell of the grid is a catalog symbol. |
| SpinModel.DrawGridUsesOneDrawPerCell | SlotMachine.Core/SimplifiedSlotMachine.cs:87-93 | A spin without a fault consumes exactly `Rows * SymbolsPerRow` random numbers. |
| SpinModel.DrawGridStep | SlotMachine.Core/SimplifiedSlotMachine.cs:87-101 | Proof step for `FillRows`: a completed row moves into the rows drawn, and the rest of the grid is drawn after it. |
| SpinModel.DrawGridStops | SlotMachine.Core/SimplifiedSlotMachine.cs:87-93 | Proof step for `FillRows`: a row that faults ends the grid with that fault. |
| SpinModel.SpinSpec | SlotMachine.Core/SimplifiedSlotMachine.cs:81-106 | Reference definition, no contract of its own: a blank line, the grid's row lines and a closing blank line, and the grid's total coefficient or its fault. |
| SpinModel.SpinShape | SlotMachine.Core/SimplifiedSlotMachine.cs:83-105 | A spin that completes writes a blank line, one line per row and a blank line. Its coefficient is the total of that grid. |
| SpinModel.SpinFaultsBeyondWeights | SlotMachine.Core/SimplifiedSlotMachine.cs:110-125 | A spin faults only on a random number at or beyond the sum of the weights, and reports that number. |
| SpinModel.FullCatalogNeverFaults | SlotMachine.Core/SimplifiedSlotMachine.cs:113-125 | A catalog whose weights reach 100 never makes a spin fault. |
| SpinModel.SpinCoefficientNonNegative | SlotMachine.Core/SimplifiedSlotMachine.cs:97-100 | With non-negative coefficients a spin's total coefficient is never negative. |
| SpinModel.LosingSpinPaysZero | SlotMachine.Core/SimplifiedSlotMachine.cs:97-105 | A spin in which no row wins has total coefficient 0. |
| Session.Winnings | SlotMachine.Core/SimplifiedSlotMachine.cs:105 | Reference definition, no contract of its own: the stake times the total coefficient. |
| Session.Report | SlotMachine.Core/SimplifiedSlotMachine.cs:73-75 | After a spin, three lines are written, the last blank. |
| Session.Settle | SlotMachine.Core/SimplifiedSlotMachine.cs:68-75 | The rest of a pass once a stake is in hand. It goes on exactly when the spin completes. It reads no input and only appends output. |
| Session.Round | SlotMachine.Core/SimplifiedSlotMachine.cs:65-76 | A loop pass that continues consumes input and only appends output. A pass that stops never stops with game over. |
| Session.Spinning | SlotMachine.Core/SimplifiedSlotMachine.cs:63-79 | The betting loop only appends output. When it reaches game over, the balance is at most 0 and the last line is the game-over text. |
| Session.Starting | SlotMachine.Core/SimplifiedSlotMachine.cs:53-61 | A whole game only appends output and reads within the input. When it reaches game over, the balance is at most 0 and the last line is the game-over text. |
| Session.NoSpinWithoutBalance | SlotMachine.Tests/SlotMachineCoreTests.cs:216-226 | With no positive balance the loop writes only the game-over text. |
| Session.RoundBalanceUpdate | SlotMachine.Core/SimplifiedSlotMachine.cs:67-71 | A completed pass takes a stake in (0, balance]. It sets the balance to balance - stake + stake * total coefficient. |
| Session.RoundKeepsBalanceNonNegative | SlotMachine.Core/SimplifiedSlotMachine.cs:67-71 | With non-negative coefficients a pass keeps a non-negative balance non-negative, however it ends. |
| Session.SpinningKeepsBalanceNonNegative | SlotMachine.Core/SimplifiedSlotMachine.cs:65-76 | Loop invariant: the balance never goes negative, so game over is reached with a balance of exactly 0. |
| Session.StartingKeepsBalanceNonNegative | SlotMachine.Core/SimplifiedSlotMachine.cs:53-61 | A whole game ends with a non-negative balance, and with exactly 0 at game over. |
| SlotMachineCore.SimplifiedSlotMachine.constructor | SlotMachine.Core/SimplifiedSlotMachine.cs:12-16 | The new machine keeps its collaborators. It has balance 0, has read and drawn nothing, and has written nothing. |
| SlotMachineCore.SimplifiedSlotMachine.RequestDeposit | SlotMachine.Core/SimplifiedSlotMachine.cs:20-23 | Returns the deposit request's amount, input position and written lines. |
| SlotMachineCore.SimplifiedSlotMachine.RequestStake | SlotMachine.Core/SimplifiedSlotMachine.cs:25-36 | The retry loop returns exactly what `StakeRequest` specifies: amount, input position and written lines. |
| SlotMachineCore.SimplifiedSlotMachine.RequestMoneyAmount | SlotMachine.Core/SimplifiedSlotMachine.cs:38-51 | The reading loop returns exactly what `MoneyRequest` specifies: amount, input position and written lines. |
| SlotMachineCore.SimplifiedSlotMachine.Start | SlotMachine.Core/SimplifiedSlotMachine.cs:53-61 | The ending and the final state are those of `Starting` from the initial state. |
| SlotMachineCore.SimplifiedSlotMachine.StartSpinning | SlotMachine.Core/SimplifiedSlotMachine.cs:63-79 | The ending and the final state are those of `Spinning` from the initial state. |
| SlotMachineCore.SimplifiedSlotMachine.PlayRound | SlotMachine.Core/SimplifiedSlotMachine.cs:67-75 | One loop pass leaves the state `Round` gives, or stops with its ending. |
| SlotMachineCore.SimplifiedSlotMachine.Settle | SlotMachine.Core/SimplifiedSlotMachine.cs:68-75 | Takes the stake, spins, and pays out with a report, leaving the state `Settle` gives. On a fault it stops with that fault. |
| SlotMachineCore.SimplifiedSlotMachine.Spin | SlotMachine.Core/SimplifiedSlotMachine.cs:81-106 | Does what `spinAt` (that is, `SpinSpec`) gives for the current draw position: consumes the spin's draws, writes its lines, and returns stake * total coefficient, or the fault. |
| SlotMachineCore.SimplifiedSlotMachine.FillRows | SlotMachine.Core/SimplifiedSlotMachine.cs:87-101 | The row loop consumes the grid's draws and writes one line per row. It returns the grid's total coefficient, or the fault. |
| SlotMachineCore.SimplifiedSlotMachine.SpinRow | SlotMachine.Core/SimplifiedSlotMachine.cs:89-100 | One row-loop pass draws the row, writes its line, and adds its coefficient sum if it wins. On a fault it writes nothing. |
| SlotMachineCore.SimplifiedSlotMachine.FillRow | SlotMachine.Core/SimplifiedSlotMachine.cs:89-93 | The column loop fills the new array with the row's drawn symbols, one draw per column, stopping at the first fault. |
| SlotMachineCore.SimplifiedSlotMachine.GetRandomSymbol | SlotMachine.Core/SimplifiedSlotMachine.cs:108-126 | Consumes one random number and returns the symbol of its band, or the fault. |

## Left out

- The random generator is a parameter (`rng`, the sequence of `Random.Next(0, 100)` values). The .NET algorithm, its seeding and the exact results of seeded games are not modelled.
- `decimal.TryParse` uses `NumberStyles.Number`. The model covers one sign, leading or trailing, then digits with at most one decimal point. Culture rules, group separators, leading and trailing white space, and the `decimal` range are left out.
- Money is a `real`. The 28-digit precision and overflow of `decimal` are not modelled.
- `ProbabilityPercent` is a `double` in the source. The model uses a natural-number weight, which covers every configuration with whole percentages.
- How an amount is printed (`{result}`, `{Balance}`) is the `formatMoney` parameter. Culture-dependent `ToString` is not modelled. The code uses the default `ToString` and not a fixed two decimal places, and the model follows the code.
- Calls through `_textOutput?.Invoke` and `_textInput?.Invoke` with a null callback are not modelled. Output is always recorded, and a null line is `None`.
- Once the input is used up, every read returns null and the source would ask again forever. The model ends such a request with `None` and the session with `InputExhausted`.
- The `ArgumentOutOfRangeException` thrown on an unmatched draw, and its propagation out of `Start`, are not modelled as exceptions. The model ends the game as `Faulted` with the unmatched number.
- `InputRetryAmount` and `RandomSeed` are never read by this class, so neither is modelled. The tests build the machine with a different constructor that takes texts and settings.
- `Program.cs`, `Texts.cs` and `GameSettings.cs` supply configuration. They are not part of this model. Settings and texts are constructor parameters, and `Rows`/`SymbolsPerRow` are read from them rather than from static members.
- `PlayRound`, `Settle`, `FillRows`, `SpinRow` and `FillRow` are loop bodies of `StartSpinning` and `Spin`, or parts of one, written as their own methods. The array `row` lives inside `FillRow`.
- Session.Spinning: says the last line of a session that reaches game over is the game-over text. It does not say that this text is written nowhere else.
