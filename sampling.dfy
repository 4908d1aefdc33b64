/** The weighted symbol sampler of `GetRandomSymbol`: inverse-CDF sampling over
    the catalog. Symbol i owns the band [BandStart(i), BandStart(i + 1)) of
    draws, where BandStart(i) is the sum of the weights before it; a draw that
    lies beyond the last band is a configuration fault. */
module Sampling {
  import opened Models

  /** Sum of the weights of `symbols`. */
  function WeightSum(symbols: seq<Symbol>): nat
  {
    if symbols == [] then 0
    else WeightSum(symbols[..|symbols| - 1]) + symbols[|symbols| - 1].weight
  }

  /** The lowest draw of symbol i's band: the weights of the symbols before it. */
  function BandStart(symbols: seq<Symbol>, i: nat): nat
    requires i <= |symbols|
  {
    WeightSum(symbols[..i])
  }

  /** The bands after the first symbol are the bands of the rest of the
      catalog, shifted up by the first symbol's weight. */
  lemma {:induction false} BandStartTail(symbols: seq<Symbol>, i: nat)
    requires i < |symbols|
    ensures BandStart(symbols, i + 1) == symbols[0].weight + BandStart(symbols[1..], i)
  {
    if i > 0 {
      BandStartTail(symbols, i - 1);
      assert symbols[..i + 1][..i] == symbols[..i];
      assert symbols[1..][..i][..i - 1] == symbols[1..][..i - 1];
    } else {
      assert symbols[..1][..0] == [];
    }
  }

  /** Band edges never go down: the weights are natural numbers. */
  lemma {:induction false} BandStartMonotonic(symbols: seq<Symbol>, i: nat, j: nat)
    requires i <= j <= |symbols|
    ensures BandStart(symbols, i) <= BandStart(symbols, j)
  {
    if i < j {
      BandStartMonotonic(symbols, i, j - 1);
      assert symbols[..j][..j - 1] == symbols[..j - 1];
    }
  }

  lemma {:induction false} BandStartWhole(symbols: seq<Symbol>)
    ensures BandStart(symbols, |symbols|) == WeightSum(symbols)
  {
    assert symbols[..|symbols|] == symbols;
  }

  /** The index of the band that holds `draw`, found by walking the catalog
      front to back and shifting the draw past each band it misses. */
  function BandIndex(symbols: seq<Symbol>, draw: nat): (r: Option<nat>)
    ensures r.Some? ==> r.value < |symbols|
    decreases |symbols|
  {
    if symbols == [] then None
    else if draw < symbols[0].weight then Some(0)
    else
      match BandIndex(symbols[1..], draw - symbols[0].weight)
      case None => None
      case Some(i) => Some(i + 1)
  }

  /** The walk finds the band that holds the draw, and finds none exactly
      when the draw lies at or beyond the sum of all weights. */
  lemma {:induction false} BandIndexFindsBand(symbols: seq<Symbol>, draw: nat)
    ensures var r := BandIndex(symbols, draw);
            && (r.Some? ==> BandStart(symbols, r.value) <= draw < BandStart(symbols, r.value + 1))
            && (r.None? <==> draw >= WeightSum(symbols))
    decreases |symbols|
  {
    if symbols != [] {
      BandStartWhole(symbols);
      BandStartWhole(symbols[1..]);
      BandStartTail(symbols, |symbols| - 1);
      if draw < symbols[0].weight {
        BandStartTail(symbols, 0);
      } else {
        BandIndexFindsBand(symbols[1..], draw - symbols[0].weight);
        match BandIndex(symbols[1..], draw - symbols[0].weight)
        case None =>
        case Some(i) =>
          BandStartTail(symbols, i);
          BandStartTail(symbols, i + 1);
      }
    }
  }

  /** The reference sampler: the symbol whose band holds the draw, or the
      fault the source raises when no band does. */
  function Sample(symbols: seq<Symbol>, draw: nat): (r: Result<Symbol>)
    ensures r.Ok? ==> r.value in symbols
    ensures r.Err? ==> r.fault == Unmatched(draw)
  {
    match BandIndex(symbols, draw)
    case Some(i) => Ok(symbols[i])
    case None => Err(Unmatched(draw))
  }

  /** The sampler faults exactly on draws at or beyond the sum of all weights. */
  lemma {:induction false} SampleFaultsBeyondWeights(symbols: seq<Symbol>, draw: nat)
    ensures Sample(symbols, draw).Err? <==> draw >= WeightSum(symbols)
  {
    BandIndexFindsBand(symbols, draw);
  }

  /** Bands are disjoint and cover [0, WeightSum): a draw in symbol i's band
      samples symbol i, and i is the least index whose band ends above the
      draw. */
  lemma {:induction false} SampleInBand(symbols: seq<Symbol>, draw: nat, i: nat)
    requires i < |symbols|
    requires BandStart(symbols, i) <= draw < BandStart(symbols, i + 1)
    ensures Sample(symbols, draw) == Ok(symbols[i])
    ensures forall j :: 0 < j <= i ==> BandStart(symbols, j) <= draw
  {
    BandStartMonotonic(symbols, i + 1, |symbols|);
    BandStartWhole(symbols);
    BandIndexFindsBand(symbols, draw);
    var j := BandIndex(symbols, draw).value;
    if j < i {
      BandStartMonotonic(symbols, j + 1, i);
    } else if j > i {
      BandStartMonotonic(symbols, i + 1, j);
    }
    forall k | 0 < k <= i ensures BandStart(symbols, k) <= draw {
      BandStartMonotonic(symbols, k, i);
    }
  }

  /** Whatever the sampler returns is the symbol of the band holding the draw. */
  lemma {:induction false} SampledFromBand(symbols: seq<Symbol>, draw: nat)
    requires Sample(symbols, draw).Ok?
    ensures exists i ::
              0 <= i < |symbols| && Sample(symbols, draw) == Ok(symbols[i]) &&
              BandStart(symbols, i) <= draw < BandStart(symbols, i + 1)
  {
    BandIndexFindsBand(symbols, draw);
    var i := BandIndex(symbols, draw).value;
    assert Sample(symbols, draw) == Ok(symbols[i]);
  }

  /** The loop of `GetRandomSymbol` for one draw: walk the catalog keeping
      the running weight total and stop at the first band the draw falls
      below. */
  method PickSymbol(symbols: seq<Symbol>, draw: Percent) returns (r: Result<Symbol>)
    ensures r == Sample(symbols, draw)
  {
    var running: nat := 0;
    for i := 0 to |symbols|
      invariant running == BandStart(symbols, i)
      invariant running <= draw
    {
      assert symbols[..i + 1][..i] == symbols[..i];
      if draw < running + symbols[i].weight {
        SampleInBand(symbols, draw, i);
        return Ok(symbols[i]);
      }
      running := running + symbols[i].weight;
    }
    BandStartWhole(symbols);
    SampleFaultsBeyondWeights(symbols, draw);
    return Err(Unmatched(draw));
  }
}
