/** Laws of the cost computation: what merging usage records does to the cost, how the tiers partition
    the tokens, and in which sense an incomplete price list gives a lower bound. */
module PricingLaws {
  import opened Statuses
  import opened Pricing

  lemma TotalByTier(u: Usage, s: Semantics, p: Rates)
    ensures Total(u, s, p) == Charge(Tokens(u, s, Input), Rate(p, Input)) + Charge(Tokens(u, s, CacheRead), Rate(p, CacheRead))
                            + Charge(Tokens(u, s, CacheWrite), Rate(p, CacheWrite)) + Charge(Tokens(u, s, Output), Rate(p, Output))
                            + Charge(Tokens(u, s, Reasoning), Rate(p, Reasoning))
  {
    var o := Order();
    assert o[..0] == [];
    OneMore(u, s, p, o, 0);
    OneMore(u, s, p, o, 1);
    OneMore(u, s, p, o, 2);
    OneMore(u, s, p, o, 3);
    OneMore(u, s, p, o, 4);
    assert o[..5] == o;
  }

  /** Reasoning tokens that a merge stops billing: one record reports them instead of an output, the other
      reports an output. */
  function DroppedReasoning(a: Usage, b: Usage): nat {
    (if Count(a, Output).None? && Count(b, Output).Some? then CountOr0(a, Reasoning) else 0) +
    (if Count(b, Output).None? && Count(a, Output).Some? then CountOr0(b, Reasoning) else 0)
  }

  /** Input tokens billed separately but not after a merge. */
  function InputLoss(a: Usage, b: Usage, s: Semantics): int {
    Tokens(a, s, Input) + Tokens(b, s, Input) - Tokens(Merged(a, b), s, Input)
  }

  lemma MergedCounts(a: Usage, b: Usage, f: Field)
    requires Counts(a) && Counts(b)
    ensures Count(Merged(a, b), f).None? <==> Count(a, f).None? && Count(b, f).None?
    ensures CountOr0(Merged(a, b), f) == CountOr0(a, f) + CountOr0(b, f)
  {
    GetMerged(a, b, f);
  }

  lemma ChargeSplits(m: nat, n: nat, rate: Option<real>)
    ensures Charge(m + n, rate) == Charge(m, rate) + Charge(n, rate)
  {
  }

  function Scaled(n: int, rate: Option<real>): real {
    if rate.Some? then n as real * rate.value else 0.0
  }

  lemma OutputTokens(a: Usage, b: Usage, s: Semantics)
    requires Counts(a) && Counts(b)
    ensures var m := Merged(a, b);
            Tokens(a, s, Output) + Tokens(a, s, Reasoning) + Tokens(b, s, Output) + Tokens(b, s, Reasoning)
            == Tokens(m, s, Output) + Tokens(m, s, Reasoning) + DroppedReasoning(a, b)
  {
    MergedCounts(a, b, Output);
    MergedCounts(a, b, Reasoning);
  }

  lemma OutputSide(a: Usage, b: Usage, s: Semantics, rate: Option<real>)
    requires Counts(a) && Counts(b)
    ensures var m := Merged(a, b);
            Charge(Tokens(a, s, Output), rate) + Charge(Tokens(a, s, Reasoning), rate)
            + Charge(Tokens(b, s, Output), rate) + Charge(Tokens(b, s, Reasoning), rate)
            == Charge(Tokens(m, s, Output), rate) + Charge(Tokens(m, s, Reasoning), rate) + Charge(DroppedReasoning(a, b), rate)
  {
    var m := Merged(a, b);
    OutputTokens(a, b, s);
    ChargeSum(Tokens(a, s, Output), Tokens(a, s, Reasoning), Tokens(b, s, Output), Tokens(b, s, Reasoning), rate);
    ChargeSum(Tokens(m, s, Output), Tokens(m, s, Reasoning), DroppedReasoning(a, b), 0, rate);
  }

  lemma ChargeSum(w: nat, x: nat, y: nat, z: nat, rate: Option<real>)
    ensures Charge(w, rate) + Charge(x, rate) + Charge(y, rate) + Charge(z, rate) == Charge(w + x + y + z, rate)
  {
    ChargeSplits(w, x, rate);
    ChargeSplits(w + x, y, rate);
    ChargeSplits(w + x + y, z, rate);
  }

  lemma ScaledDifference(x: nat, y: nat, z: nat, rate: Option<real>)
    ensures Charge(x, rate) + Charge(y, rate) == Charge(z, rate) + Scaled(x + y - z, rate)
  {
    if rate.Some? {
      assert (x + y - z) as real == x as real + y as real - z as real;
    }
  }

  lemma InputSide(a: Usage, b: Usage, s: Semantics, rate: Option<real>)
    ensures Charge(Tokens(a, s, Input), rate) + Charge(Tokens(b, s, Input), rate)
            == Charge(Tokens(Merged(a, b), s, Input), rate) + Scaled(InputLoss(a, b, s), rate)
  {
    ScaledDifference(Tokens(a, s, Input), Tokens(b, s, Input), Tokens(Merged(a, b), s, Input), rate);
  }

  /** The exact cost of merging, under any semantics: the separate costs sum up to the merged one plus
      the input tokens the merge stops billing and the reasoning tokens it drops. */
  lemma MergeIdentity(a: Usage, b: Usage, s: Semantics, p: Rates)
    requires Counts(a) && Counts(b)
    ensures Total(a, s, p) + Total(b, s, p) ==
            Total(Merged(a, b), s, p) + Scaled(InputLoss(a, b, s), p.prompt) + Charge(DroppedReasoning(a, b), p.completion)
  {
    var m := Merged(a, b);
    TotalByTier(a, s, p);
    TotalByTier(b, s, p);
    TotalByTier(m, s, p);
    InputSide(a, b, s, p.prompt);
    OutputSide(a, b, s, p.completion);
    MergedCounts(a, b, CacheRead);
    MergedCounts(a, b, CacheWrite);
    ChargeSplits(Tokens(a, s, CacheRead), Tokens(b, s, CacheRead), Rate(p, CacheRead));
    ChargeSplits(Tokens(a, s, CacheWrite), Tokens(b, s, CacheWrite), Rate(p, CacheWrite));
  }

  // ---------- the bill, by what was reported ----------

  predicate Reports(u: Usage, f: Field) {
    f in u && u[f].Some?
  }

  /** The reported count, negative ones taken for zero. */
  function Reported(u: Usage, f: Field): nat {
    if f in u && u[f].Some? && u[f].value > 0 then u[f].value else 0
  }

  /** The input tokens that are billed as such: all of them if the caches are counted apart, what the caches leave
      of them if they are counted in; and a guess takes caches larger than the input to be counted apart. */
  function BilledInput(u: Usage, s: Semantics): nat {
    var input, cached := Reported(u, Input), Reported(u, CacheRead) + Reported(u, CacheWrite);
    if !Reports(u, Input) then 0
    else match s
         case Disjoint => input
         case Inclusive => if cached > input then 0 else input - cached
         case Auto => if cached > input then input else input - cached
  }

  /** Reasoning tokens are billed where no output is reported. */
  function BilledReasoning(u: Usage): nat {
    if Reports(u, Output) then 0 else Reported(u, Reasoning)
  }

  /** A missing rate bills nothing. */
  function OrFree(rate: Option<real>): real {
    if rate.Some? then rate.value else 0.0
  }

  function WriteRate(p: Rates): Option<real> {
    if p.cacheWrite.None? then p.prompt else p.cacheWrite
  }

  lemma ChargedAt(tokens: nat, rate: Option<real>)
    ensures Charge(tokens, rate) == tokens as real * OrFree(rate)
  {
  }

  lemma RatesOfTiers(p: Rates)
    ensures Rate(p, Input) == p.prompt && Rate(p, CacheRead) == p.cacheRead && Rate(p, CacheWrite) == WriteRate(p)
    ensures Rate(p, Output) == p.completion && Rate(p, Reasoning) == p.completion
  {
  }

  /** The bill in one formula: every reported count at its own rate, cache writes without a rate at the prompt's,
      reasoning at the completion's. */
  lemma BillByReported(u: Usage, s: Semantics, p: Rates)
    ensures Total(u, s, p) == BilledInput(u, s) as real * OrFree(p.prompt)
                              + Reported(u, CacheRead) as real * OrFree(p.cacheRead)
                              + Reported(u, CacheWrite) as real * OrFree(WriteRate(p))
                              + Reported(u, Output) as real * OrFree(p.completion)
                              + BilledReasoning(u) as real * OrFree(p.completion)
  {
    TiersAreReported(u, s);
    RatesOfTiers(p);
    ChargedAt(BilledInput(u, s), p.prompt);
    ChargedAt(Reported(u, CacheRead), p.cacheRead);
    ChargedAt(Reported(u, CacheWrite), WriteRate(p));
    ChargedAt(Reported(u, Output), p.completion);
    ChargedAt(BilledReasoning(u), p.completion);
    TotalByTier(u, s, p);
  }

  /** And the tokens that are not billed for want of a rate. */
  lemma UnpricedByReported(u: Usage, s: Semantics, p: Rates)
    ensures Unpriced(u, s, p, Order()) == (if p.prompt.None? then BilledInput(u, s) else 0)
                                          + (if p.cacheRead.None? then Reported(u, CacheRead) else 0)
                                          + (if WriteRate(p).None? then Reported(u, CacheWrite) else 0)
                                          + (if p.completion.None? then Reported(u, Output) + BilledReasoning(u) else 0)
  {
    TiersAreReported(u, s);
    RatesOfTiers(p);
    UnpricedByTier(u, s, p);
  }

  lemma TiersAreReported(u: Usage, s: Semantics)
    ensures Tokens(u, s, Input) == BilledInput(u, s) && Tokens(u, s, Reasoning) == BilledReasoning(u)
    ensures Tokens(u, s, CacheRead) == Reported(u, CacheRead) && Tokens(u, s, CacheWrite) == Reported(u, CacheWrite)
    ensures Tokens(u, s, Output) == Reported(u, Output)
  {
  }

  lemma UnpricedByTier(u: Usage, s: Semantics, p: Rates)
    ensures Unpriced(u, s, p, Order()) ==
            (if Rate(p, Input).None? then Tokens(u, s, Input) else 0)
            + (if Rate(p, CacheRead).None? then Tokens(u, s, CacheRead) else 0)
            + (if Rate(p, CacheWrite).None? then Tokens(u, s, CacheWrite) else 0)
            + (if Rate(p, Output).None? then Tokens(u, s, Output) else 0)
            + (if Rate(p, Reasoning).None? then Tokens(u, s, Reasoning) else 0)
  {
    var order := Order();
    OneMore(u, s, p, order, 0);
    OneMore(u, s, p, order, 1);
    OneMore(u, s, p, order, 2);
    OneMore(u, s, p, order, 3);
    OneMore(u, s, p, order, 4);
    assert order[..0] == [] && order[..5] == order;
  }

  // ---------- disjoint semantics ----------

  /** With disjoint semantics the cost is additive exactly if no reasoning-only record meets one with an
      output, or the model has no completion rate or a zero one. */
  lemma DisjointIsAdditive(a: Usage, b: Usage, p: Rates)
    requires Counts(a) && Counts(b)
    ensures Total(Merged(a, b), Disjoint, p) == Total(a, Disjoint, p) + Total(b, Disjoint, p) <==>
            (DroppedReasoning(a, b) == 0 || p.completion.None? || p.completion.value == 0.0)
  {
    MergedCounts(a, b, Input);
    assert InputLoss(a, b, Disjoint) == 0;
    MergeIdentity(a, b, Disjoint, p);
    ZeroCharge(DroppedReasoning(a, b), p.completion);
  }

  lemma ZeroCharge(n: nat, rate: Option<real>)
    ensures Charge(n, rate) == 0.0 <==> n == 0 || rate.None? || rate.value == 0.0
  {
    if rate.Some? && n > 0 && rate.value != 0.0 {
      assert n as real >= 1.0;
      assert n as real * rate.value != 0.0;
    }
  }

  // ---------- inclusive semantics ----------

  /** The condition under which an inclusive merge bills every input token: the caches of both records are
      on the same side of their inputs; a record without an input brings no cached tokens either, unless
      the other one's input is used up already. */
  predicate SameSide(a: Usage, b: Usage) {
    var ia, ib, ca, cb := CountOr0(a, Input), CountOr0(b, Input), CachedTokens(a), CachedTokens(b);
    if Count(a, Input).Some? && Count(b, Input).Some? then !(ca > ia && cb < ib) && !(ca < ia && cb > ib)
    else if Count(a, Input).Some? then cb == 0 || ia <= ca
    else if Count(b, Input).Some? then ca == 0 || ib <= cb
    else true
  }

  lemma InclusiveInput(u: Usage)
    ensures Tokens(u, Inclusive, Input) == if Count(u, Input).None? then 0 else Max0(CountOr0(u, Input) - CachedTokens(u))
  {
  }

  lemma InclusiveLoss(a: Usage, b: Usage)
    requires Counts(a) && Counts(b)
    ensures InputLoss(a, b, Inclusive) >= 0
    ensures InputLoss(a, b, Inclusive) == 0 <==> SameSide(a, b)
  {
    MergedCounts(a, b, Input);
    MergedCounts(a, b, CacheRead);
    MergedCounts(a, b, CacheWrite);
    InclusiveInput(a);
    InclusiveInput(b);
    InclusiveInput(Merged(a, b));
  }

  predicate NonNegative(p: Rates) {
    forall f: Field :: Rate(p, f).Some? ==> Rate(p, f).value >= 0.0
  }

  lemma ScaledSign(n: int, rate: Option<real>)
    requires n >= 0 && (rate.Some? ==> rate.value >= 0.0)
    ensures Scaled(n, rate) >= 0.0
    ensures Scaled(n, rate) == 0.0 <==> n == 0 || rate.None? || rate.value == 0.0
  {
    ZeroCharge(n, rate);
    assert Scaled(n, rate) == Charge(n, rate);
    if rate.Some? {
      assert n as real >= 0.0;
      assert n as real * rate.value >= 0.0;
    }
  }

  /** With inclusive semantics and non-negative rates merging never raises the cost, and keeps it exactly
      if no billed input and no billed reasoning gets lost. */
  lemma InclusiveIsAdditive(a: Usage, b: Usage, p: Rates)
    requires Counts(a) && Counts(b) && NonNegative(p)
    ensures Total(Merged(a, b), Inclusive, p) <= Total(a, Inclusive, p) + Total(b, Inclusive, p)
    ensures Total(Merged(a, b), Inclusive, p) == Total(a, Inclusive, p) + Total(b, Inclusive, p) <==>
            (&& (SameSide(a, b) || p.prompt.None? || p.prompt.value == 0.0)
             && (DroppedReasoning(a, b) == 0 || p.completion.None? || p.completion.value == 0.0))
  {
    var input, dropped := InputLoss(a, b, Inclusive), DroppedReasoning(a, b);
    assert Total(a, Inclusive, p) + Total(b, Inclusive, p) ==
           Total(Merged(a, b), Inclusive, p) + Scaled(input, p.prompt) + Scaled(dropped, p.completion) by {
      MergeIdentity(a, b, Inclusive, p);
      assert Charge(dropped, p.completion) == Scaled(dropped, p.completion);
    }
    assert input >= 0 && (input == 0 <==> SameSide(a, b)) by {
      InclusiveLoss(a, b);
    }
    assert Rate(p, Input) == p.prompt && Rate(p, Output) == p.completion;
    ScaledSign(input, p.prompt);
    ScaledSign(dropped, p.completion);
  }

  // ---------- guessed semantics ----------

  /** Two records of which the guesses fit together: with two inputs, both are guessed alike, or the inclusive one
      has no cached tokens and the sum is still guessed disjoint; a record without an input brings no cached
      tokens, or the other one's guess does not change by them. */
  predicate GuessesFit(a: Usage, b: Usage) {
    var ia, ib, ca, cb := CountOr0(a, Input), CountOr0(b, Input), CachedTokens(a), CachedTokens(b);
    if Count(a, Input).Some? && Count(b, Input).Some? then
      || (ca > ia && cb > ib) || (ca <= ia && cb <= ib)
      || (ca > ia && cb == 0 && ca > ia + ib) || (cb > ib && ca == 0 && cb > ia + ib)
    else if Count(a, Input).Some? then cb == 0 || ca > ia || (ca == 0 && cb > ia)
    else if Count(b, Input).Some? then ca == 0 || cb > ib || (cb == 0 && ca > ib)
    else true
  }

  lemma GuessedInput(u: Usage)
    ensures Tokens(u, Auto, Input) ==
            if Count(u, Input).None? then 0
            else if CachedTokens(u) > CountOr0(u, Input) then CountOr0(u, Input)
            else CountOr0(u, Input) - CachedTokens(u)
  {
  }

  /** Guessing the semantics per record is not additive: the merge bills all input of two records exactly if
      their guesses fit. */
  lemma AutoLoss(a: Usage, b: Usage)
    requires Counts(a) && Counts(b)
    ensures InputLoss(a, b, Auto) == 0 <==> GuessesFit(a, b)
  {
    MergedCounts(a, b, Input);
    MergedCounts(a, b, CacheRead);
    MergedCounts(a, b, CacheWrite);
    GuessedInput(a);
    GuessedInput(b);
    GuessedInput(Merged(a, b));
  }

  // ---------- partition ----------

  /** Every token of a tier is either priced or counted as unpriced. */
  function Priced(u: Usage, s: Semantics, p: Rates, fields: seq<Field>): nat {
    if fields == [] then 0
    else
      var f := fields[|fields| - 1];
      Priced(u, s, p, fields[..|fields| - 1]) + if Rate(p, f).Some? then Tokens(u, s, f) else 0
  }

  function AllTokens(u: Usage, s: Semantics, fields: seq<Field>): nat {
    if fields == [] then 0 else AllTokens(u, s, fields[..|fields| - 1]) + Tokens(u, s, fields[|fields| - 1])
  }

  lemma {:induction false} PricedAndUnpriced(u: Usage, s: Semantics, p: Rates, fields: seq<Field>)
    ensures Priced(u, s, p, fields) + Unpriced(u, s, p, fields) == AllTokens(u, s, fields)
  {
    if fields != [] {
      PricedAndUnpriced(u, s, p, fields[..|fields| - 1]);
    }
  }

  /** Inclusive tiers split the reported input: the three input-side tiers add up to it exactly if the
      cached tokens do not exceed it. */
  lemma InclusiveTiersPartitionInput(u: Usage)
    requires Count(u, Input).Some?
    ensures Tokens(u, Inclusive, Input) + Tokens(u, Inclusive, CacheRead) + Tokens(u, Inclusive, CacheWrite) == CountOr0(u, Input)
            <==> CachedTokens(u) <= CountOr0(u, Input)
  {
  }

  // ---------- lower bound ----------

  /** `q` keeps every rate that `p` has for a tier and fills some of the others. */
  predicate Fills(p: Rates, q: Rates) {
    forall f: Field :: Rate(p, f).Some? ==> Rate(q, f) == Rate(p, f)
  }

  lemma {:induction false} DollarsGrow(u: Usage, s: Semantics, p: Rates, q: Rates, fields: seq<Field>)
    requires Fills(p, q) && NonNegative(q)
    ensures Dollars(u, s, p, fields) <= Dollars(u, s, q, fields)
    ensures Unpriced(u, s, p, fields) == 0 ==> Dollars(u, s, p, fields) == Dollars(u, s, q, fields)
  {
    if fields != [] {
      var n := |fields| - 1;
      var f := fields[n];
      DollarsGrow(u, s, p, q, fields[..n]);
      if Rate(p, f).None? {
        ScaledSign(Tokens(u, s, f), Rate(q, f));
        assert Charge(Tokens(u, s, f), Rate(q, f)) == Scaled(Tokens(u, s, f), Rate(q, f));
      }
    }
  }

  /** The reported total is a lower bound for every non-negative way to fill the missing rates, and exact if
      nothing is unpriced. */
  lemma TotalIsLowerBound(u: Usage, s: Semantics, p: Rates, q: Rates)
    requires Fills(p, q) && NonNegative(q)
    ensures Total(u, s, p) <= Total(u, s, q)
    ensures Unpriced(u, s, p, Order()) == 0 ==> Total(u, s, p) == Total(u, s, q)
  {
    DollarsGrow(u, s, p, q, Order());
  }

  /** A missing cache-write rate is not a missing rate in this sense: it is charged at the prompt rate, so
      the total is above the true cost exactly if the true write rate is lower. */
  lemma WriteFallbackMayExceed(u: Usage, s: Semantics, p: Rates, write: real)
    requires p.cacheWrite.None? && p.prompt.Some? && CountOr0(u, CacheWrite) > 0
    ensures Total(u, s, p) > Total(u, s, p.(cacheWrite := Some(write))) <==> write < p.prompt.value
  {
    var q := p.(cacheWrite := Some(write));
    TotalByTier(u, s, p);
    TotalByTier(u, s, q);
    SameTiers(u, s, p, write);
    var n := Tokens(u, s, CacheWrite) as real;
    Difference(n, p.prompt.value, write, Charge(Tokens(u, s, CacheWrite), Rate(p, CacheWrite)), Charge(Tokens(u, s, CacheWrite), Rate(q, CacheWrite)));
  }

  lemma SameTiers(u: Usage, s: Semantics, p: Rates, write: real)
    requires p.cacheWrite.None? && p.prompt.Some?
    ensures var q := p.(cacheWrite := Some(write));
            && Rate(q, Input) == Rate(p, Input) && Rate(q, CacheRead) == Rate(p, CacheRead)
            && Rate(q, Output) == Rate(p, Output) && Rate(q, Reasoning) == Rate(p, Reasoning)
            && Charge(Tokens(u, s, CacheWrite), Rate(p, CacheWrite)) == Tokens(u, s, CacheWrite) as real * p.prompt.value
            && Charge(Tokens(u, s, CacheWrite), Rate(q, CacheWrite)) == Tokens(u, s, CacheWrite) as real * write
            && Tokens(u, s, CacheWrite) == CountOr0(u, CacheWrite)
  {
  }

  lemma Difference(n: real, x: real, y: real, nx: real, ny: real)
    requires n > 0.0 && nx == n * x && ny == n * y
    ensures nx > ny <==> y < x
  {
    assert nx - ny == n * (x - y);
    if y < x {
      assert n * (x - y) > 0.0;
    } else {
      assert n * (x - y) <= 0.0;
    }
  }
}
