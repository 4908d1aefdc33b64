/** The betting session of `Start` and `StartSpinning` as a function of the
    machine's state: deposit, then rounds of stake, spin and payout while the
    balance is positive, then the game-over text. */
module Session {
  import opened Models
  import opened Payline
  import opened SpinModel
  import opened Requests

  /** The collaborators the machine is wired to: the spin that starts at
      each draw position (see `SpinsDrawnBy`), the lines the input callback
      returns in order, and the money formatting used in the won-amount and
      balance lines. */
  datatype Environment = Environment(
    spinAt: nat -> SpinRun,
    input: seq<Option<string>>,
    formatMoney: real -> string)

  /** The mutable state of the machine: the balance, how many input lines
      and random draws have been consumed, and everything written so far. */
  datatype Machine = Machine(balance: real, readCount: nat, drawn: nat, output: seq<string>)

  /** How a session ends: the game-over text is written; or the input ran
      out in a request loop, which the source would then repeat forever; or
      the sampler raised its fault, which ends the program. */
  datatype Ending = GameOver | InputExhausted | Faulted(fault: SamplerFault)

  datatype Run = Run(ending: Ending, machine: Machine)

  /** One pass of the betting loop: either the next state, or the way the
      session stopped inside the pass. */
  datatype Step = Continue(next: Machine) | Stop(ending: Ending, last: Machine)

  /** Winnings of a spin: `totalCoefficient * stakeAmount`. */
  function Winnings(coefficient: real, stake: real): real
  {
    coefficient * stake
  }

  /** The three lines written after a spin: the won amount, the new balance
      and a blank line. */
  function Report(texts: Texts, formatMoney: real -> string, won: real, balance: real): (lines: seq<string>)
    ensures |lines| == 3 && lines[2] == ""
  {
    [texts.wonAmount + " " + formatMoney(won), texts.currentBalance + " " + formatMoney(balance), ""]
  }

  /** The second half of a round, once a stake is in hand: take it from the
      balance, spin, and either stop on the sampler's fault or add the
      winnings and write the won amount, the balance and a blank line. */
  function Settle(texts: Texts, env: Environment, m: Machine, stake: real): (s: Step)
    ensures s.Continue? <==> env.spinAt(m.drawn).coefficient.Ok?
    ensures s.Continue? ==> s.next.readCount == m.readCount && m.output <= s.next.output
    ensures s.Stop? ==> s.last.readCount == m.readCount && m.output <= s.last.output
  {
    var spin := env.spinAt(m.drawn);
    var spun := m.(balance := m.balance - stake, drawn := m.drawn + spin.used, output := m.output + spin.lines);
    match spin.coefficient
    case Err(f) => Stop(Faulted(f), spun)
    case Ok(c) =>
      var won := Winnings(c, stake);
      var balance := spun.balance + won;
      Continue(spun.(balance := balance, output := spun.output + Report(texts, env.formatMoney, won, balance)))
  }

  /** The body of the `while (Balance > 0)` loop: request a stake, then
      settle it. */
  function Round(texts: Texts, env: Environment, m: Machine): (s: Step)
    requires m.readCount <= |env.input|
    ensures s.Continue? ==> m.readCount < s.next.readCount <= |env.input| && m.output <= s.next.output
    ensures s.Stop? ==> s.ending != GameOver && s.last.readCount <= |env.input| && m.output <= s.last.output
  {
    var stake := StakeRequest(env.input, m.readCount, m.balance, texts);
    var asked := m.(readCount := stake.next, output := m.output + stake.lines);
    match stake.amount
    case None => Stop(InputExhausted, asked)
    case Some(s) => Settle(texts, env, asked, s)
  }

  /** `StartSpinning()` from state `m`. The output only grows; a session that
      reaches game over has a balance of zero or less and ends with the
      game-over text. */
  function Spinning(texts: Texts, env: Environment, m: Machine): (r: Run)
    requires m.readCount <= |env.input|
    ensures m.output <= r.machine.output
    ensures m.readCount <= r.machine.readCount <= |env.input|
    ensures r.ending == GameOver ==>
              r.machine.balance <= 0.0 && |r.machine.output| > |m.output| &&
              r.machine.output[|r.machine.output| - 1] == texts.gameOver
    decreases |env.input| - m.readCount
  {
    if m.balance <= 0.0 then Run(GameOver, m.(output := m.output + [texts.gameOver]))
    else
      match Round(texts, env, m)
      case Continue(next) => Spinning(texts, env, next)
      case Stop(ending, last) => Run(ending, last)
  }

  /** `Start()` from state `m`: the balance is reset, the deposit requested
      and added, and the betting loop runs. */
  function Starting(texts: Texts, env: Environment, m: Machine): (r: Run)
    requires m.readCount <= |env.input|
    ensures m.output <= r.machine.output
    ensures m.readCount <= r.machine.readCount <= |env.input|
    ensures r.ending == GameOver ==>
              r.machine.balance <= 0.0 && |r.machine.output| > |m.output| &&
              r.machine.output[|r.machine.output| - 1] == texts.gameOver
  {
    var deposit := MoneyRequest(env.input, m.readCount, texts.enterDepositAmount, texts.invalidAmount);
    var asked := m.(balance := 0.0, readCount := deposit.next, output := m.output + deposit.lines);
    match deposit.amount
    case None => Run(InputExhausted, asked)
    case Some(d) => Spinning(texts, env, asked.(balance := 0.0 + d))
  }

  /** With no positive balance the loop does not run: the only line written
      is the game-over text. */
  lemma {:induction false} NoSpinWithoutBalance(texts: Texts, env: Environment, m: Machine)
    requires m.readCount <= |env.input| && m.balance <= 0.0
    ensures Spinning(texts, env, m) == Run(GameOver, m.(output := m.output + [texts.gameOver]))
  {
  }

  /** A completed round takes a stake the balance covers and sets the
      balance to balance - stake + stake * total coefficient. */
  lemma {:induction false} RoundBalanceUpdate(texts: Texts, env: Environment, m: Machine)
    requires m.readCount <= |env.input|
    requires Round(texts, env, m).Continue?
    ensures var stake := StakeRequest(env.input, m.readCount, m.balance, texts).amount;
            var spin := env.spinAt(m.drawn);
            && stake.Some? && 0.0 < stake.value <= m.balance
            && spin.coefficient.Ok?
            && Round(texts, env, m).next.balance
                 == m.balance - stake.value + Winnings(spin.coefficient.value, stake.value)
  {
  }

  /** With non-negative coefficients, a round started on a non-negative
      balance leaves it non-negative, however it ends. */
  lemma {:induction false} RoundKeepsBalanceNonNegative(settings: Settings, rowAt: nat -> RowDraw, texts: Texts, env: Environment, m: Machine)
    requires m.readCount <= |env.input| && m.balance >= 0.0
    requires NonNegativeCoefficients(settings.symbols) && RowsFromCatalog(rowAt, settings.symbols)
    requires SpinsDrawnBy(env.spinAt, settings, rowAt)
    ensures match Round(texts, env, m)
            case Continue(next) => next.balance >= 0.0
            case Stop(_, last) => last.balance >= 0.0
  {
    var stake := StakeRequest(env.input, m.readCount, m.balance, texts);
    if stake.amount.Some? {
      var spin := env.spinAt(m.drawn);
      SpinCoefficientNonNegative(settings, rowAt, m.drawn);
      assert spin == SpinSpec(settings, rowAt, m.drawn);
      if spin.coefficient.Ok? {
        assert Winnings(spin.coefficient.value, stake.amount.value) >= 0.0;
      }
    }
  }

  /** The balance invariant of the betting loop: with non-negative
      coefficients the balance never goes below zero, so a session that
      reaches game over ends with a balance of exactly zero. */
  lemma {:induction false} SpinningKeepsBalanceNonNegative(settings: Settings, rowAt: nat -> RowDraw, texts: Texts, env: Environment, m: Machine)
    requires m.readCount <= |env.input| && m.balance >= 0.0
    requires NonNegativeCoefficients(settings.symbols) && RowsFromCatalog(rowAt, settings.symbols)
    requires SpinsDrawnBy(env.spinAt, settings, rowAt)
    ensures Spinning(texts, env, m).machine.balance >= 0.0
    ensures Spinning(texts, env, m).ending == GameOver ==> Spinning(texts, env, m).machine.balance == 0.0
    decreases |env.input| - m.readCount
  {
    if m.balance > 0.0 {
      RoundKeepsBalanceNonNegative(settings, rowAt, texts, env, m);
      match Round(texts, env, m)
      case Continue(next) => SpinningKeepsBalanceNonNegative(settings, rowAt, texts, env, next);
      case Stop(_, _) =>
    }
  }

  /** A whole game started on any state with non-negative coefficients ends
      with a non-negative balance, and at zero when it reaches game over. */
  lemma {:induction false} StartingKeepsBalanceNonNegative(settings: Settings, rowAt: nat -> RowDraw, texts: Texts, env: Environment, m: Machine)
    requires m.readCount <= |env.input|
    requires NonNegativeCoefficients(settings.symbols) && RowsFromCatalog(rowAt, settings.symbols)
    requires SpinsDrawnBy(env.spinAt, settings, rowAt)
    ensures Starting(texts, env, m).machine.balance >= 0.0
    ensures Starting(texts, env, m).ending == GameOver ==> Starting(texts, env, m).machine.balance == 0.0
  {
    var deposit := MoneyRequest(env.input, m.readCount, texts.enterDepositAmount, texts.invalidAmount);
    if deposit.amount.Some? {
      var asked := m.(balance := 0.0 + deposit.amount.value, readCount := deposit.next, output := m.output + deposit.lines);
      SpinningKeepsBalanceNonNegative(settings, rowAt, texts, env, asked);
    }
  }
}
