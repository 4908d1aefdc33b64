/** The two input loops of the machine, as functions of the input lines
    (the callback's answers, in order; `None` is a null line) and the position
    of the next line to read. A `Request` is what a loop returns, the position
    after the last line it read, and the lines it wrote. Once the input is used
    up, every further read would be null and the source would loop forever;
    such a request ends with `amount == None` at the end of the input. */
module Requests {
  import opened Models
  import opened AmountParsing

  datatype Request = Request(amount: Option<real>, next: nat, lines: seq<string>)

  /** The amount `RequestMoneyAmount` accepts from one line: it must parse
      and be strictly positive. */
  function Accept(line: Option<string>): Option<real>
  {
    match ParseDecimal(line)
    case Some(v) => if v > 0.0 then Some(v) else None
    case None => None
  }

  /** What a request loop is looking for in a line: an accepted amount, or
      an accepted amount that `balance` covers. */
  datatype Wanted = Positive | Covered(balance: real)

  predicate Meets(w: Wanted, line: Option<string>)
  {
    match w
    case Positive => Accept(line).Some?
    case Covered(balance) => Accept(line).Some? && Accept(line).value <= balance
  }

  /** The first position at or after `from` whose line is wanted. */
  function FirstWhere(input: seq<Option<string>>, from: nat, w: Wanted): (r: Option<nat>)
    requires from <= |input|
    ensures r.Some? ==> from <= r.value < |input| && Meets(w, input[r.value])
    decreases |input| - from
  {
    if from == |input| then None
    else if Meets(w, input[from]) then Some(from)
    else FirstWhere(input, from + 1, w)
  }

  /** `FirstWhere` skips exactly the unwanted lines: none before its answer is
      wanted, and with no answer none at all is. */
  lemma {:induction false} FirstWhereIsFirst(input: seq<Option<string>>, from: nat, w: Wanted)
    requires from <= |input|
    ensures match FirstWhere(input, from, w)
            case Some(k) => forall j :: from <= j < k ==> !Meets(w, input[j])
            case None => forall j :: from <= j < |input| ==> !Meets(w, input[j])
    decreases |input| - from
  {
    if from < |input| && !Meets(w, input[from]) {
      FirstWhereIsFirst(input, from + 1, w);
    }
  }

  /** Conversely, skipping unwanted lines does not change the answer. */
  lemma {:induction false} FirstWhereSkips(input: seq<Option<string>>, from: nat, w: Wanted, k: nat)
    requires from <= k <= |input|
    requires forall j :: from <= j < k ==> !Meets(w, input[j])
    ensures FirstWhere(input, from, w) == FirstWhere(input, k, w)
    decreases k - from
  {
    if from < k {
      FirstWhereSkips(input, from + 1, w, k);
    }
  }

  /** The first line the money validator accepts. */
  function FirstAccepted(input: seq<Option<string>>, from: nat): Option<nat>
    requires from <= |input|
  {
    FirstWhere(input, from, Positive)
  }

  /** What `n` rejected lines add to the output: the error text, then the
      prompt again, for each. */
  function Rejections(n: nat, requestText: string, errorText: string): (lines: seq<string>)
    ensures |lines| == 2 * n
  {
    if n == 0 then [] else Rejections(n - 1, requestText, errorText) + [errorText, requestText]
  }

  /** The rejection lines alternate: the error text, then the prompt, once
      per rejected line. */
  lemma {:induction false} RejectionsAlternate(n: nat, requestText: string, errorText: string)
    ensures var lines := Rejections(n, requestText, errorText);
            && |lines| == 2 * n
            && forall j :: 0 <= j < n ==> lines[2 * j] == errorText && lines[2 * j + 1] == requestText
  {
    if n > 0 {
      RejectionsAlternate(n - 1, requestText, errorText);
    }
  }

  /** `RequestMoneyAmount(requestText, errorText)` reading from `from`: the
      prompt, then for every line before the first accepted one the error text
      and the prompt again; the result is the accepted amount. */
  function MoneyRequest(input: seq<Option<string>>, from: nat, requestText: string, errorText: string): (r: Request)
    requires from <= |input|
    ensures from <= r.next <= |input|
    ensures r.amount.Some? ==> r.amount.value > 0.0 && from < r.next && Accept(input[r.next - 1]) == r.amount
    ensures r.amount.None? ==> r.next == |input|
  {
    match FirstAccepted(input, from)
    case Some(k) => Request(Accept(input[k]), k + 1, [requestText] + Rejections(k - from, requestText, errorText))
    case None => Request(None, |input|, [requestText] + Rejections(|input| - from, requestText, errorText))
  }

  /** Every line a money request reads before the one it returns was
      rejected, each answered by the error text and the prompt again. */
  lemma {:induction false} MoneyRequestSkipsRejected(input: seq<Option<string>>, from: nat, requestText: string, errorText: string)
    requires from <= |input|
    ensures var r := MoneyRequest(input, from, requestText, errorText);
            var rejected := if r.amount.Some? then r.next - 1 - from else r.next - from;
            && (forall k :: from <= k < from + rejected ==> Accept(input[k]).None?)
            && r.lines == [requestText] + Rejections(rejected, requestText, errorText)
  {
    FirstWhereIsFirst(input, from, Positive);
  }

  /** `RequestStake()` with balance `balance`, reading from `from`: request an
      amount; while it exceeds the balance, write the insufficient-funds text
      and request again. */
  function StakeRequest(input: seq<Option<string>>, from: nat, balance: real, texts: Texts): (r: Request)
    requires from <= |input|
    ensures from <= r.next <= |input|
    ensures r.amount.Some? ==> 0.0 < r.amount.value <= balance && from < r.next
    ensures r.amount.None? ==> r.next == |input|
    decreases |input| - from
  {
    var m := MoneyRequest(input, from, texts.enterStakeAmount, texts.invalidAmount);
    if m.amount.Some? && m.amount.value > balance then
      var rest := StakeRequest(input, m.next, balance, texts);
      Request(rest.amount, rest.next, m.lines + [texts.insufficientFunds] + rest.lines)
    else m
  }

  /** A requested amount above the balance is answered by the
      insufficient-funds text, and the stake flow starts over after it. */
  lemma {:induction false} StakeRequestRetries(input: seq<Option<string>>, from: nat, balance: real, texts: Texts)
    requires from <= |input|
    requires var m := MoneyRequest(input, from, texts.enterStakeAmount, texts.invalidAmount);
             m.amount.Some? && m.amount.value > balance
    ensures var m := MoneyRequest(input, from, texts.enterStakeAmount, texts.invalidAmount);
            var rest := StakeRequest(input, m.next, balance, texts);
            StakeRequest(input, from, balance, texts) == Request(rest.amount, rest.next, m.lines + [texts.insufficientFunds] + rest.lines)
  {
  }

  /** How many of `lines` are `t`. */
  function Occurrences(lines: seq<string>, t: string): nat
  {
    if lines == [] then 0
    else Occurrences(lines[..|lines| - 1], t) + (if lines[|lines| - 1] == t then 1 else 0)
  }

  lemma {:induction false} OccurrencesAppend(a: seq<string>, b: seq<string>, t: string)
    ensures Occurrences(a + b, t) == Occurrences(a, t) + Occurrences(b, t)
    decreases |b|
  {
    if b == [] {
      assert a + b == a;
    } else {
      assert (a + b)[..|a + b| - 1] == a + b[..|b| - 1];
      assert (a + b)[|a + b| - 1] == b[|b| - 1];
      OccurrencesAppend(a, b[..|b| - 1], t);
    }
  }

  /** Rejected lines write only the error text and the prompt. */
  lemma {:induction false} RejectionsOmit(n: nat, requestText: string, errorText: string, t: string)
    requires t != requestText && t != errorText
    ensures Occurrences(Rejections(n, requestText, errorText), t) == 0
  {
    if n > 0 {
      RejectionsOmit(n - 1, requestText, errorText, t);
      OccurrencesAppend(Rejections(n - 1, requestText, errorText), [errorText, requestText], t);
      assert Occurrences([errorText, requestText], t) == 0 by {
        assert [errorText][..0] == [];
        assert Occurrences([errorText], t) == 0;
        assert [errorText, requestText][..1] == [errorText];
      }
    }
  }

  /** How many lines in [from, to) the validator accepts but `balance` does
      not cover. */
  function OverBalance(input: seq<Option<string>>, from: nat, to: nat, balance: real): nat
    requires from <= to <= |input|
    decreases |input| - from
  {
    if from == to then 0
    else (if Accept(input[from]).Some? && Accept(input[from]).value > balance then 1 else 0)
         + OverBalance(input, from + 1, to, balance)
  }

  /** Rejected lines are never over the balance. */
  lemma {:induction false} OverBalanceSkipsRejected(input: seq<Option<string>>, from: nat, k: nat, to: nat, balance: real)
    requires from <= k <= to <= |input|
    requires forall j :: from <= j < k ==> Accept(input[j]).None?
    ensures OverBalance(input, from, to, balance) == OverBalance(input, k, to, balance)
    decreases k - from
  {
    if from < k {
      OverBalanceSkipsRejected(input, from + 1, k, to, balance);
    }
  }

  /** The stake flow writes the insufficient-funds text once for every
      accepted amount above the balance that it reads, and at no other time
      (when that text differs from the prompt and the error text). */
  lemma {:induction false} InsufficientFundsPerOverBalanceAmount(input: seq<Option<string>>, from: nat, balance: real, texts: Texts)
    requires from <= |input|
    requires texts.insufficientFunds != texts.enterStakeAmount && texts.insufficientFunds != texts.invalidAmount
    ensures var r := StakeRequest(input, from, balance, texts);
            Occurrences(r.lines, texts.insufficientFunds) == OverBalance(input, from, r.next, balance)
    decreases |input| - from
  {
    var t := texts.insufficientFunds;
    var m := MoneyRequest(input, from, texts.enterStakeAmount, texts.invalidAmount);
    MoneyRequestSkipsRejected(input, from, texts.enterStakeAmount, texts.invalidAmount);
    var rejected := if m.amount.Some? then m.next - 1 - from else m.next - from;
    RejectionsOmit(rejected, texts.enterStakeAmount, texts.invalidAmount, t);
    OccurrencesAppend([texts.enterStakeAmount], Rejections(rejected, texts.enterStakeAmount, texts.invalidAmount), t);
    assert Occurrences(m.lines, t) == 0;
    if m.amount.Some? && m.amount.value > balance {
      var rest := StakeRequest(input, m.next, balance, texts);
      InsufficientFundsPerOverBalanceAmount(input, m.next, balance, texts);
      OccurrencesAppend(m.lines, [t], t);
      OccurrencesAppend(m.lines + [t], rest.lines, t);
      OverBalanceSkipsRejected(input, from, m.next - 1, rest.next, balance);
    } else if m.amount.Some? {
      OverBalanceSkipsRejected(input, from, m.next - 1, m.next, balance);
    } else {
      OverBalanceSkipsRejected(input, from, m.next, m.next, balance);
    }
  }

  /** The first line that the validator accepts and the balance covers. */
  function FirstAffordable(input: seq<Option<string>>, from: nat, balance: real): Option<nat>
    requires from <= |input|
  {
    FirstWhere(input, from, Covered(balance))
  }

  /** The stake flow returns the first positive amount the balance covers,
      whatever lines before it were rejected or too large, and stops reading
      right after it. */
  lemma {:induction false} StakeIsFirstAffordable(input: seq<Option<string>>, from: nat, balance: real, texts: Texts)
    requires from <= |input|
    ensures var r := StakeRequest(input, from, balance, texts);
            match FirstAffordable(input, from, balance)
            case Some(k) => r.amount == Accept(input[k]) && r.next == k + 1
            case None => r.amount == None && r.next == |input|
    decreases |input| - from
  {
    var m := MoneyRequest(input, from, texts.enterStakeAmount, texts.invalidAmount);
    FirstWhereIsFirst(input, from, Positive);
    if m.amount.Some? {
      FirstWhereSkips(input, from, Covered(balance), m.next - 1);
      if m.amount.value > balance {
        StakeIsFirstAffordable(input, m.next, balance, texts);
      }
    } else {
      FirstWhereSkips(input, from, Covered(balance), |input|);
    }
  }

  /** A whole amount typed as `ToString()` prints it is accepted exactly when
      it is positive. */
  lemma {:induction false} AcceptFormatInteger(i: int)
    ensures Accept(Some(FormatInteger(i))) == if i > 0 then Some(i as real) else None
  {
    ParseFormatInteger(i);
  }

  /** A valid amount on the first line is returned at once, after the prompt
      alone. */
  lemma {:induction false} AcceptsValidAmount(input: seq<Option<string>>, from: nat, n: int, requestText: string, errorText: string)
    requires from < |input| && n > 0 && input[from] == Some(FormatInteger(n))
    ensures MoneyRequest(input, from, requestText, errorText) == Request(Some(n as real), from + 1, [requestText])
  {
    AcceptFormatInteger(n);
    
  }

  /** A line that does not parse, or parses to zero or less, is answered by
      the error text and the prompt again. */
  lemma {:induction false} RejectedLineShowsError(input: seq<Option<string>>, from: nat, requestText: string, errorText: string)
    requires from < |input| && Accept(input[from]).None?
    ensures var lines := MoneyRequest(input, from, requestText, errorText).lines;
            |lines| >= 3 && lines[..3] == [requestText, errorText, requestText]
  {
    var r := MoneyRequest(input, from, requestText, errorText);
    var rejected := if r.amount.Some? then r.next - 1 - from else |input| - from;
    var tail := Rejections(rejected, requestText, errorText);
    assert r.lines == [requestText] + tail;
    assert tail[0] == errorText && tail[1] == requestText by {
      assert rejected > 0;
      RejectionsAlternate(rejected, requestText, errorText);
      assert tail[2 * 0] == errorText && tail[2 * 0 + 1] == requestText;
    }
    assert r.lines[..3] == [requestText, tail[0], tail[1]];
  }

  /** A non-positive amount followed by a valid one: one rejection, then the
      valid amount is returned. */
  lemma {:induction false} RetriesAfterNonPositiveAmount(input: seq<Option<string>>, from: nat, i: int, n: int, requestText: string, errorText: string)
    requires from + 1 < |input| && i <= 0 && n > 0
    requires input[from] == Some(FormatInteger(i)) && input[from + 1] == Some(FormatInteger(n))
    ensures MoneyRequest(input, from, requestText, errorText)
              == Request(Some(n as real), from + 2, [requestText, errorText, requestText])
  {
    AcceptFormatInteger(i);
    AcceptFormatInteger(n);
    FirstWhereSkips(input, from, Positive, from + 1);
    assert Rejections(1, requestText, errorText) == [errorText, requestText];
  }

  /** A stake above the balance followed by one it covers: the
      insufficient-funds text is shown once, between the two prompts. */
  lemma {:induction false} RetriesAfterInsufficientFunds(input: seq<Option<string>>, from: nat, balance: int, a: int, b: int, texts: Texts)
    requires from + 1 < |input| && 0 < b <= balance < a
    requires input[from] == Some(FormatInteger(a)) && input[from + 1] == Some(FormatInteger(b))
    ensures StakeRequest(input, from, balance as real, texts)
              == Request(Some(b as real), from + 2, [texts.enterStakeAmount, texts.insufficientFunds, texts.enterStakeAmount])
  {
    AcceptsValidAmount(input, from, a, texts.enterStakeAmount, texts.invalidAmount);
    AcceptsValidAmount(input, from + 1, b, texts.enterStakeAmount, texts.invalidAmount);
  }
}
