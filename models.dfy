/** The value types the slot machine works with: the configured symbols, the
    game settings and prompt texts, and the small wrappers used for results
    that may be missing (a null line, an unparsable amount) or failed (a random
    draw no symbol band covers). */
module Models {

  datatype Option<+T> = None | Some(value: T)

  /** A draw of `Random.Next(0, 100)`: an integer in [0, 100). */
  type Percent = x: int | 0 <= x < 100

  /** One symbol of the catalog. The source stores the probability as a
      `double` percentage; every configuration uses whole percentages, so the
      model keeps a natural-number weight. */
  datatype Symbol = Symbol(
    name: string,
    value: char,
    coefficient: real,
    weight: nat,
    isWildcard: bool)

  /** The exception `GetRandomSymbol` throws when no band holds the draw. */
  datatype SamplerFault = Unmatched(draw: int)

  datatype Result<+T> = Ok(value: T) | Err(fault: SamplerFault)

  /** The part of the game settings the core reads. */
  datatype Settings = Settings(symbols: seq<Symbol>, rows: nat, symbolsPerRow: nat)

  /** The prompt texts the core emits. */
  datatype Texts = Texts(
    enterDepositAmount: string,
    enterStakeAmount: string,
    invalidAmount: string,
    insufficientFunds: string,
    wonAmount: string,
    currentBalance: string,
    gameOver: string)

  /** Every coefficient in the catalog is non-negative. The balance results
      assume this; `SimplifiedSlotMachine` does not check it. */
  predicate NonNegativeCoefficients(symbols: seq<Symbol>)
  {
    forall i :: 0 <= i < |symbols| ==> symbols[i].coefficient >= 0.0
  }

  /** Appending to an output is associative; stated once so that the loop
      proofs over long outputs need not rediscover it element by element. */
  lemma AppendAssociative<T>(a: seq<T>, b: seq<T>, c: seq<T>)
    ensures (a + b) + c == a + (b + c)
  {
  }
}
