/** Token usage and what it costs: coercing and merging usage records, billing tiers, rates. Amounts are
    exact rationals. */
module Pricing {
  import opened Statuses

  datatype Field = Input | Output | CacheRead | CacheWrite | Reasoning

  /** The order in which the tiers are charged. */
  function Order(): seq<Field> {
    [Input, CacheRead, CacheWrite, Output, Reasoning]
  }

  /** A usage dictionary; a field may be absent or present without a value. */
  type Usage = map<Field, Option<int>>

  function Get(u: Usage, f: Field): Option<int> {
    if f in u then u[f] else None
  }

  // ---------- coercion and merging ----------

  /** A value of a producer's event. */
  datatype Raw = Missing | Bool(b: bool) | Number(n: int) | NotANumber

  /** `coerce_token_count`: no value is not zero, a truth value is not a number, a count is not negative. */
  function Coerce(v: Raw): Option<int> {
    match v
    case Number(n) => Some(if n < 0 then 0 else n)
    case _ => None
  }

  predicate Counts(u: Usage) {
    forall f :: f in u && u[f].Some? ==> u[f].value >= 0
  }

  function Add(a: Option<int>, b: Option<int>): Option<int> {
    if a.None? then b else if b.None? then a else Some(a.value + b.value)
  }

  function Merged(a: Usage, b: Usage): Usage {
    map f | f in a.Keys + b.Keys :: Add(Get(a, f), Get(b, f))
  }

  /** `merge_usage`. */
  method MergeUsage(base: Option<Usage>, delta: Usage) returns (out: Usage)
    ensures out == if base.None? then delta else Merged(base.value, delta)
  {
    if base.None? {
      return delta;
    }
    var todo := base.value.Keys + delta.Keys;
    out := map[];
    while todo != {}
      invariant todo <= base.value.Keys + delta.Keys
      invariant out == map f | f in base.value.Keys + delta.Keys - todo :: Add(Get(base.value, f), Get(delta, f))
    {
      var f :| f in todo;
      out := out[f := Add(Get(base.value, f), Get(delta, f))];
      todo := todo - {f};
    }
  }

  lemma GetMerged(a: Usage, b: Usage, f: Field)
    ensures Get(Merged(a, b), f) == Add(Get(a, f), Get(b, f))
  {
  }

  lemma MergedKeys(a: Usage, b: Usage)
    ensures Merged(a, b).Keys == a.Keys + b.Keys
  {
  }

  /** `usage_from_event`: every field is present, with or without a value. */
  function FromEvent(event: map<Field, Raw>): Usage {
    map f: Field | true :: Coerce(if f in event then event[f] else Missing)
  }

  /** What a session reports: the merge of all its events. */
  function Session(events: seq<map<Field, Raw>>): Option<Usage> {
    if events == [] then None
    else
      var before, last := Session(events[..|events| - 1]), FromEvent(events[|events| - 1]);
      Some(if before.None? then last else Merged(before.value, last))
  }

  /** Whatever producers send, a session reports counts: no negative number, no truth value, and a field without
      a value exactly if no event has a number for it. */
  lemma {:induction false} SessionsReportCounts(events: seq<map<Field, Raw>>, f: Field)
    ensures Session(events).Some? ==> Counts(Session(events).value)
    ensures Session(events).Some? ==>
              (Get(Session(events).value, f).Some? <==> exists e: map<Field, Raw> :: e in events && f in e && e[f].Number?)
  {
    if events != [] {
      var front, last := events[..|events| - 1], events[|events| - 1];
      assert events == front + [last];
      SessionsReportCounts(front, f);
      if Session(front).Some? {
        forall g | g in Merged(Session(front).value, FromEvent(last))
          ensures Get(Session(events).value, g).Some? ==> Get(Session(events).value, g).value >= 0
        {
          GetMerged(Session(front).value, FromEvent(last), g);
        }
        GetMerged(Session(front).value, FromEvent(last), f);
      } else {
        assert front == [];
      }
    }
  }

  lemma GroupingAt(a: Usage, b: Usage, c: Usage, f: Field)
    ensures Get(Merged(Merged(a, b), c), f) == Get(Merged(a, Merged(b, c)), f)
  {
    GetMerged(a, b, f);
    GetMerged(b, c, f);
    GetMerged(Merged(a, b), c, f);
    GetMerged(a, Merged(b, c), f);
  }

  /** Records can be merged in any grouping. */
  lemma MergeAssociates(a: Usage, b: Usage, c: Usage)
    ensures Merged(Merged(a, b), c) == Merged(a, Merged(b, c))
  {
    var ab, bc := Merged(a, b), Merged(b, c);
    MergedKeys(a, b);
    MergedKeys(b, c);
    var left, right := Merged(ab, c), Merged(a, bc);
    MergedKeys(ab, c);
    MergedKeys(a, bc);
    assert left.Keys == right.Keys;
    forall f | f in left
      ensures left[f] == right[f]
    {
      GroupingAt(a, b, c, f);
      assert Get(left, f) == left[f] && Get(right, f) == right[f];
    }
  }

  // ---------- billing tiers ----------

  datatype Semantics = Auto | Inclusive | Disjoint

  function Max0(n: int): nat {
    if n < 0 then 0 else n
  }

  /** `_nonnegative_int`. */
  function Count(u: Usage, f: Field): Option<nat> {
    var v := Get(u, f);
    if v.None? then None else Some(Max0(v.value))
  }

  function CountOr0(u: Usage, f: Field): nat {
    if Count(u, f).Some? then Count(u, f).value else 0
  }

  function CachedTokens(u: Usage): nat {
    CountOr0(u, CacheRead) + CountOr0(u, CacheWrite)
  }

  /** `billable_input_tokens`. */
  function Billable(u: Usage, semantics: Semantics): Option<nat> {
    var total := Count(u, Input);
    if total.None? then None
    else if semantics == Disjoint || CachedTokens(u) == 0 then total
    else if semantics == Auto && CachedTokens(u) > total.value then total
    else Some(Max0(total.value - CachedTokens(u)))
  }

  /** The non-overlapping tiers; reasoning tokens are billed only where no output is reported. */
  function Tier(u: Usage, semantics: Semantics, f: Field): Option<nat> {
    match f
    case Input => Billable(u, semantics)
    case Reasoning => if Count(u, Output).Some? then None else Count(u, Reasoning)
    case _ => Count(u, f)
  }

  function Tokens(u: Usage, semantics: Semantics, f: Field): nat {
    if Tier(u, semantics, f).Some? then Tier(u, semantics, f).value else 0
  }

  // ---------- rates ----------

  /** Dollars per token; no rate is not zero. */
  datatype Rates = Rates(model: string, prompt: Option<real>, completion: Option<real>,
                         cacheRead: Option<real>, cacheWrite: Option<real>)

  /** The rate of a tier: a missing cache-write rate falls back to the prompt rate. */
  function Rate(p: Rates, f: Field): Option<real> {
    match f
    case Input => p.prompt
    case Output => p.completion
    case Reasoning => p.completion
    case CacheRead => p.cacheRead
    case CacheWrite => if p.cacheWrite.None? then p.prompt else p.cacheWrite
  }

  function Charge(tokens: nat, rate: Option<real>): real {
    if rate.Some? then tokens as real * rate.value else 0.0
  }

  /** The cost of the tiers `fields`, and the tokens among them without a rate. */
  function Dollars(u: Usage, s: Semantics, p: Rates, fields: seq<Field>): real {
    if fields == [] then 0.0
    else
      var f := fields[|fields| - 1];
      Dollars(u, s, p, fields[..|fields| - 1]) + Charge(Tokens(u, s, f), Rate(p, f))
  }

  function Unpriced(u: Usage, s: Semantics, p: Rates, fields: seq<Field>): nat {
    if fields == [] then 0
    else
      var f := fields[|fields| - 1];
      Unpriced(u, s, p, fields[..|fields| - 1]) + if Rate(p, f).None? then Tokens(u, s, f) else 0
  }

  function Total(u: Usage, s: Semantics, p: Rates): real {
    Dollars(u, s, p, Order())
  }

  datatype Breakdown = Breakdown(model: string, total: real, byField: map<Field, real>, unpriced: nat, priced: bool)

  /** The tiers that show up in `by_field`. */
  predicate Itemized(u: Usage, s: Semantics, p: Rates, f: Field) {
    Tokens(u, s, f) > 0 && Rate(p, f).Some?
  }

  /** `by_field` restricted to `fields`. */
  predicate ItemsOf(items: map<Field, real>, u: Usage, s: Semantics, p: Rates, fields: seq<Field>) {
    && (forall f: Field :: f in items <==> f in fields && Itemized(u, s, p, f))
    && forall f :: f in items ==> items[f] == Charge(Tokens(u, s, f), Rate(p, f))
  }

  /** `compute_cost` once the rates of the model are known. */
  method ComputeCost(u: Usage, s: Semantics, p: Rates) returns (r: Option<Breakdown>)
    ensures r.None? <==> u == map[]
    ensures r.Some? ==>
              && r.value.model == p.model
              && r.value.total == Total(u, s, p) && r.value.unpriced == Unpriced(u, s, p, Order())
              && (r.value.priced <==> r.value.unpriced == 0)
              && ItemsOf(r.value.byField, u, s, p, Order())
  {
    if u == map[] {
      return None;
    }
    var order := Order();
    var byField: map<Field, real>, total, unpriced := map[], 0.0, 0;
    var i := 0;
    while i < |order|
      invariant 0 <= i <= |order|
      invariant total == Dollars(u, s, p, order[..i]) && unpriced == Unpriced(u, s, p, order[..i])
      invariant ItemsOf(byField, u, s, p, order[..i])
    {
      var f := order[i];
      OneMore(u, s, p, order, i);
      ItemsGrow(byField, u, s, p, order, i);
      if !Itemized(u, s, p, f) {
        NoTokens(u, s, p, f);
      }
      var tokens, rate := Tokens(u, s, f), Rate(p, f);
      if tokens > 0 {
        if rate.None? {
          unpriced := unpriced + tokens;
        } else {
          var cost := Charge(tokens, rate);
          byField := byField[f := cost];
          total := total + cost;
        }
      }
      i := i + 1;
    }
    assert order[..i] == order;
    return Some(Breakdown(p.model, total, byField, unpriced, unpriced == 0));
  }

  lemma NoTokens(u: Usage, s: Semantics, p: Rates, f: Field)
    requires Tokens(u, s, f) == 0 || Rate(p, f).None?
    ensures Charge(Tokens(u, s, f), Rate(p, f)) == 0.0
  {
  }

  lemma OneMore(u: Usage, s: Semantics, p: Rates, order: seq<Field>, i: nat)
    requires i < |order|
    ensures Dollars(u, s, p, order[..i + 1]) == Dollars(u, s, p, order[..i]) + Charge(Tokens(u, s, order[i]), Rate(p, order[i]))
    ensures Unpriced(u, s, p, order[..i + 1]) ==
            Unpriced(u, s, p, order[..i]) + if Rate(p, order[i]).None? then Tokens(u, s, order[i]) else 0
    ensures forall f :: f in order[..i + 1] <==> f in order[..i] || f == order[i]
  {
    assert order[..i + 1][..i] == order[..i];
    assert order[..i + 1] == order[..i] + [order[i]];
  }

  lemma ItemsGrow(items: map<Field, real>, u: Usage, s: Semantics, p: Rates, order: seq<Field>, i: nat)
    requires i < |order| && ItemsOf(items, u, s, p, order[..i])
    ensures var f := order[i];
            if Itemized(u, s, p, f) then ItemsOf(items[f := Charge(Tokens(u, s, f), Rate(p, f))], u, s, p, order[..i + 1])
            else ItemsOf(items, u, s, p, order[..i + 1])
  {
    OneMore(u, s, p, order, i);
  }
}
