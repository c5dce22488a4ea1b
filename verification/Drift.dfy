/** `apps/proxy-server/src/drift-cli.ts`: grouping recorded rows, and what truncating once per group costs. */
module Drift {
  import opened Base
  import opened Text

  /** The four priced tiers. */
  datatype Tokens = Tokens(input: nat, output: nat, cacheRead: nat, cacheWrite: nat)

  datatype Row = Row(day: string, channel: string, model: string, turns: nat, usage: Tokens, reportedNanoUsd: nat)

  datatype Price = Price(input: nat, output: nat, cacheRead: nat, cacheWrite: nat)

  type Prices = map<string, Price>

  /** `computedNanoUsd` is absent when the table cannot price the model. */
  datatype Comparison = Comparison(
    key: string, turns: nat, tokens: Tokens, reportedNanoUsd: nat, computedNanoUsd: Option<nat>)

  const TOKENS_PER_PRICE_UNIT: nat := 1_000_000

  // ---------------------------------------------------------------------------
  // One comparison.
  // ---------------------------------------------------------------------------

  function Sum(rows: seq<Row>, of: Row -> nat): nat {
    if rows == [] then 0 else Sum(rows[..|rows| - 1], of) + of(Last(rows))
  }

  function Turns(r: Row): nat { r.turns }
  function Input(r: Row): nat { r.usage.input }
  function Output(r: Row): nat { r.usage.output }
  function CacheRead(r: Row): nat { r.usage.cacheRead }
  function CacheWrite(r: Row): nat { r.usage.cacheWrite }
  function Reported(r: Row): nat { r.reportedNanoUsd }

  function SumTokens(rows: seq<Row>): Tokens {
    Tokens(Sum(rows, Input), Sum(rows, Output), Sum(rows, CacheRead), Sum(rows, CacheWrite))
  }

  /** Millionths of a micro-USD: what the counts cost before the one truncation. */
  function Exact(price: Price, tokens: Tokens): nat {
    tokens.input * price.input + tokens.output * price.output
    + tokens.cacheRead * price.cacheRead + tokens.cacheWrite * price.cacheWrite
  }

  function CostMicroUsd(price: Price, tokens: Tokens): nat {
    Exact(price, tokens) / TOKENS_PER_PRICE_UNIT
  }

  /** `compare`: the rows' summed counts, priced once, at the price of the first row's model. */
  function Compare(key: string, rows: seq<Row>, prices: Prices): Comparison {
    var tokens, model := SumTokens(rows), if rows == [] then "" else rows[0].model;
    Comparison(key, Sum(rows, Turns), tokens, Sum(rows, Reported),
               if model in prices then Some(CostMicroUsd(prices[model], tokens) * 1000) else None)
  }

  // ---------------------------------------------------------------------------
  // Groups.
  // ---------------------------------------------------------------------------

  predicate HasRow(rows: seq<Row>, on: Row -> string, key: string) {
    exists r | r in rows :: on(r) == key
  }

  /** `rows.filter(row => of(row) === key)`. */
  function Where(rows: seq<Row>, of: Row -> string, key: string): seq<Row> {
    if rows == [] then []
    else Where(rows[..|rows| - 1], of, key) + (if of(Last(rows)) == key then [Last(rows)] else [])
  }

  predicate Ascending(keys: seq<string>) {
    forall i, j | 0 <= i < j < |keys| :: Less(keys[i], keys[j])
  }

  function Insert(key: string, keys: seq<string>): seq<string> {
    if keys == [] then [key]
    else if key == keys[0] then keys
    else if Less(key, keys[0]) then [key] + keys
    else [keys[0]] + Insert(key, keys[1..])
  }

  /** `[...new Set(rows.map(of))].sort()`. */
  function Keys(rows: seq<Row>, of: Row -> string): seq<string> {
    if rows == [] then [] else Insert(of(Last(rows)), Keys(rows[..|rows| - 1], of))
  }

  function Model(row: Row): string { row.model }
  function Day(row: Row): string { row.day }
  function Channel(row: Row): string { row.channel }

  function Comparisons(keys: seq<string>, rows: seq<Row>, of: Row -> string, prices: Prices): seq<Comparison> {
    if keys == [] then []
    else
      Comparisons(keys[..|keys| - 1], rows, of, prices)
      + [Compare(Last(keys), Where(rows, of, Last(keys)), prices)]
  }

  lemma ComparisonsSnoc(keys: seq<string>, key: string, rows: seq<Row>, on: Row -> string, prices: Prices)
    ensures Comparisons(keys + [key], rows, on, prices) ==
            Comparisons(keys, rows, on, prices) + [Compare(key, Where(rows, on, key), prices)]
  {
    assert (keys + [key])[..|keys|] == keys;
  }

  /** The loop both commands print in: one comparison a key. */
  method PrintGroups(rows: seq<Row>, on: Row -> string, prices: Prices) returns (printed: seq<Comparison>)
    ensures printed == Comparisons(Keys(rows, on), rows, on, prices)
  {
    hide *;
    printed := [];
    NoComparisons(rows, on, prices);
    var keys := Keys(rows, on);
    for i := 0 to |keys|
      invariant printed == Comparisons(keys[..i], rows, on, prices)
    {
      ComparisonsSnoc(keys[..i], keys[i], rows, on, prices);
      assert keys[..i + 1] == keys[..i] + [keys[i]];
      printed := printed + [Compare(keys[i], Where(rows, on, keys[i]), prices)];
    }
    assert keys[..|keys|] == keys;
  }

  lemma NoComparisons(rows: seq<Row>, on: Row -> string, prices: Prices)
    ensures Comparisons([], rows, on, prices) == []
    ensures rows == [] ==> Keys(rows, on) == []
  {
  }

  /** `show`: one comparison a model, of one channel's rows or of all. */
  method Show(all: seq<Row>, prices: Prices, channel: Option<string>) returns (printed: seq<Comparison>)
    ensures
      var rows := if channel.Some? then Where(all, Channel, channel.value) else all;
      printed == Comparisons(Keys(rows, Model), rows, Model, prices)
  {
    hide *;
    var rows := if channel.Some? then Where(all, Channel, channel.value) else all;
    printed := PrintGroups(rows, Model, prices);
  }

  /** `days`: one comparison a day, of one model's rows. */
  method Days(all: seq<Row>, prices: Prices, model: string) returns (printed: seq<Comparison>)
    ensures
      var rows := Where(all, Model, model);
      printed == Comparisons(Keys(rows, Day), rows, Day, prices)
  {
    hide *;
    printed := PrintGroups(Where(all, Model, model), Day, prices);
  }

  // ---------------------------------------------------------------------------
  // The keys are the rows' keys, each once, in order.
  // ---------------------------------------------------------------------------

  lemma {:induction false} InsertIs(key: string, keys: seq<string>)
    requires Ascending(keys)
    ensures Ascending(Insert(key, keys))
    ensures forall k :: k in Insert(key, keys) <==> k == key || k in keys
  {
    if keys == [] || key == keys[0] {
    } else if Less(key, keys[0]) {
      var r := [key] + keys;
      forall i, j | 0 <= i < j < |r| ensures Less(r[i], r[j]) {
        LessIsOrder(key, keys[0], r[j]);
      }
    } else {
      InsertIs(key, keys[1..]);
      LessIsOrder(keys[0], key, "");
      var rest := Insert(key, keys[1..]);
      var r := [keys[0]] + rest;
      assert keys == [keys[0]] + keys[1..];
      forall i, j | 0 <= i < j < |r| ensures Less(r[i], r[j]) {
        if i == 0 {
          assert rest[j - 1] in rest;
          if rest[j - 1] != key {
            var k :| 0 <= k < |keys[1..]| && keys[1..][k] == rest[j - 1];
            assert keys[k + 1] == rest[j - 1];
          }
        }
      }
    }
  }

  lemma {:induction false} KeysAre(rows: seq<Row>, of: Row -> string)
    ensures Ascending(Keys(rows, of))
    ensures forall k :: k in Keys(rows, of) <==> HasRow(rows, of, k)
  {
    if rows != [] {
      var init, l := rows[..|rows| - 1], Last(rows);
      KeysAre(init, of);
      InsertIs(of(l), Keys(init, of));
      assert rows == init + [l];
    }
  }

  // ---------------------------------------------------------------------------
  // Conservation.
  // ---------------------------------------------------------------------------

  /** The groups' sums, added up. */
  function SumOver(keys: seq<string>, rows: seq<Row>, on: Row -> string, of: Row -> nat): nat {
    if keys == [] then 0
    else SumOver(keys[..|keys| - 1], rows, on, of) + Sum(Where(rows, on, Last(keys)), of)
  }

  lemma SumSnoc(rows: seq<Row>, r: Row, of: Row -> nat)
    ensures Sum(rows + [r], of) == Sum(rows, of) + of(r)
  {
    assert (rows + [r])[..|rows|] == rows;
  }

  lemma WhereSnoc(rows: seq<Row>, r: Row, on: Row -> string, key: string)
    ensures Where(rows + [r], on, key) == Where(rows, on, key) + if on(r) == key then [r] else []
  {
    assert (rows + [r])[..|rows|] == rows;
  }

  lemma GroupMore(rows: seq<Row>, r: Row, on: Row -> string, key: string, of: Row -> nat)
    ensures Sum(Where(rows + [r], on, key), of) == Sum(Where(rows, on, key), of) + if on(r) == key then of(r) else 0
  {
    WhereSnoc(rows, r, on, key);
    SumSnoc(Where(rows, on, key), r, of);
    hide Where, Sum;
    assert Where(rows, on, key) + [] == Where(rows, on, key);
  }

  lemma LastKeyIsNew(keys: seq<string>)
    requires Ascending(keys) && keys != []
    ensures Ascending(keys[..|keys| - 1]) && Last(keys) !in keys[..|keys| - 1]
    ensures forall k :: k in keys <==> k in keys[..|keys| - 1] || k == Last(keys)
  {
    hide Less;
    var init, k := keys[..|keys| - 1], Last(keys);
    assert keys == init + [k];
    LessIsOrder(k, k, k);
    forall j | 0 <= j < |init| ensures init[j] != k {
      assert Less(keys[j], keys[|init|]);
    }
  }

  lemma SumOverSnoc(keys: seq<string>, rows: seq<Row>, on: Row -> string, of: Row -> nat)
    requires keys != []
    ensures SumOver(keys, rows, on, of) ==
            SumOver(keys[..|keys| - 1], rows, on, of) + Sum(Where(rows, on, Last(keys)), of)
  {
  }

  lemma {:induction false} SumOverMore(keys: seq<string>, rows: seq<Row>, r: Row, on: Row -> string, of: Row -> nat)
    requires Ascending(keys)
    ensures SumOver(keys, rows + [r], on, of) == SumOver(keys, rows, on, of) + if on(r) in keys then of(r) else 0
  {
    if keys != [] {
      hide *;
      SumOverMore(keys[..|keys| - 1], rows, r, on, of) by { LastKeyIsNew(keys); }
      LastKeyIsNew(keys);
      GroupMore(rows, r, on, Last(keys), of);
      SumOverSnoc(keys, rows, on, of);
      SumOverSnoc(keys, rows + [r], on, of);
    }
  }

  lemma {:induction false} SumOverNothing(keys: seq<string>, on: Row -> string, of: Row -> nat)
    ensures SumOver(keys, [], on, of) == 0
  {
    if keys != [] {
      SumOverNothing(keys[..|keys| - 1], on, of);
    }
  }

  /** The groups partition the rows: whatever is counted, the groups' counts add up to the rows'. */
  lemma {:induction false} GroupsPartition(keys: seq<string>, rows: seq<Row>, on: Row -> string, of: Row -> nat)
    requires Ascending(keys) && forall r | r in rows :: on(r) in keys
    ensures SumOver(keys, rows, on, of) == Sum(rows, of)
  {
    if rows == [] {
      SumOverNothing(keys, on, of);
    } else {
      var init, l := rows[..|rows| - 1], Last(rows);
      assert rows == init + [l];
      GroupsPartition(keys, init, on, of);
      SumOverMore(keys, init, l, on, of);
      SumSnoc(init, l, of);
      hide Ascending, SumOver, Sum;
    }
  }

  lemma KeysPartition(rows: seq<Row>, on: Row -> string, of: Row -> nat)
    ensures SumOver(Keys(rows, on), rows, on, of) == Sum(rows, of)
  {
    KeysAre(rows, on);
    GroupsPartition(Keys(rows, on), rows, on, of);
  }

  /** One figure of every printed line, added up. */
  function Total(printed: seq<Comparison>, figure: Comparison -> nat): nat {
    if printed == [] then 0 else Total(printed[..|printed| - 1], figure) + figure(Last(printed))
  }

  lemma {:induction false} TotalIsSum(keys: seq<string>, rows: seq<Row>, on: Row -> string, prices: Prices,
                                      figure: Comparison -> nat, of: Row -> nat)
    requires forall key, group :: figure(Compare(key, group, prices)) == Sum(group, of)
    ensures Total(Comparisons(keys, rows, on, prices), figure) == SumOver(keys, rows, on, of)
  {
    hide Compare, Sum, Where;
    if keys != [] {
      var init, k := keys[..|keys| - 1], Last(keys);
      TotalIsSum(init, rows, on, prices, figure, of);
      assert Comparisons(keys, rows, on, prices) ==
             Comparisons(init, rows, on, prices) + [Compare(k, Where(rows, on, k), prices)];
    }
  }

  function TurnsOf(c: Comparison): nat { c.turns }
  function InputOf(c: Comparison): nat { c.tokens.input }
  function OutputOf(c: Comparison): nat { c.tokens.output }
  function CacheReadOf(c: Comparison): nat { c.tokens.cacheRead }
  function CacheWriteOf(c: Comparison): nat { c.tokens.cacheWrite }
  function ReportedOf(c: Comparison): nat { c.reportedNanoUsd }
  function ComputedOf(c: Comparison): nat { c.computedNanoUsd.UnwrapOr(0) }

  /** Grouped by model or by day: turns, each token tier and the reported cost are conserved. */
  lemma GroupingConserves(rows: seq<Row>, on: Row -> string, prices: Prices)
    ensures
      var printed := Comparisons(Keys(rows, on), rows, on, prices);
      && Total(printed, TurnsOf) == Sum(rows, Turns)
      && Total(printed, InputOf) == Sum(rows, Input)
      && Total(printed, OutputOf) == Sum(rows, Output)
      && Total(printed, CacheReadOf) == Sum(rows, CacheRead)
      && Total(printed, CacheWriteOf) == Sum(rows, CacheWrite)
      && Total(printed, ReportedOf) == Sum(rows, Reported)
  {
    hide Sum, Keys, SumOver, Total, Comparisons;
    var keys := Keys(rows, on);
    TotalIsSum(keys, rows, on, prices, TurnsOf, Turns);
    TotalIsSum(keys, rows, on, prices, InputOf, Input);
    TotalIsSum(keys, rows, on, prices, OutputOf, Output);
    TotalIsSum(keys, rows, on, prices, CacheReadOf, CacheRead);
    TotalIsSum(keys, rows, on, prices, CacheWriteOf, CacheWrite);
    TotalIsSum(keys, rows, on, prices, ReportedOf, Reported);
    KeysPartition(rows, on, Turns);
    KeysPartition(rows, on, Input);
    KeysPartition(rows, on, Output);
    KeysPartition(rows, on, CacheRead);
    KeysPartition(rows, on, CacheWrite);
    KeysPartition(rows, on, Reported);
  }

  // ---------------------------------------------------------------------------
  // What truncating once per group costs.
  // ---------------------------------------------------------------------------

  function RowCost(price: Price): Row -> nat {
    (r: Row) => Exact(price, r.usage)
  }

  lemma {:induction false} CostIsLinear(price: Price, rows: seq<Row>)
    ensures Exact(price, SumTokens(rows)) == Sum(rows, RowCost(price))
  {
    if rows != [] {
      var init, u := rows[..|rows| - 1], Last(rows).usage;
      CostIsLinear(price, init);
      var t := SumTokens(init);
      hide Sum;
      Distribute(t.input, u.input, price.input);
      Distribute(t.output, u.output, price.output);
      Distribute(t.cacheRead, u.cacheRead, price.cacheRead);
      Distribute(t.cacheWrite, u.cacheWrite, price.cacheWrite);
      SumsSplit(rows, price);
    }
  }

  lemma Distribute(a: nat, b: nat, p: nat)
    ensures (a + b) * p == a * p + b * p
  {
  }

  lemma SumsSplit(rows: seq<Row>, price: Price)
    requires rows != []
    ensures
      var t, u := SumTokens(rows[..|rows| - 1]), Last(rows).usage;
      && SumTokens(rows) ==
         Tokens(t.input + u.input, t.output + u.output, t.cacheRead + u.cacheRead, t.cacheWrite + u.cacheWrite)
      && Sum(rows, RowCost(price)) == Sum(rows[..|rows| - 1], RowCost(price)) + Exact(price, u)
  {
  }

  /** The groups' costs, each truncated. */
  function Truncated(keys: seq<string>, rows: seq<Row>, on: Row -> string, price: Price): nat {
    if keys == [] then 0
    else
      Truncated(keys[..|keys| - 1], rows, on, price)
      + Sum(Where(rows, on, Last(keys)), RowCost(price)) / TOKENS_PER_PRICE_UNIT
  }

  lemma {:induction false} TruncationBound(keys: seq<string>, rows: seq<Row>, on: Row -> string, price: Price)
    requires keys != []
    ensures
      var each := Truncated(keys, rows, on, price);
      var once := SumOver(keys, rows, on, RowCost(price)) / TOKENS_PER_PRICE_UNIT;
      each <= once <= each + |keys| - 1
  {
    hide Sum, Where, RowCost;
    var init := keys[..|keys| - 1];
    if init == [] {
      assert Truncated(init, rows, on, price) == 0 == SumOver(init, rows, on, RowCost(price));
    } else {
      TruncationBound(init, rows, on, price);
      TwoQuotients(SumOver(init, rows, on, RowCost(price)), Sum(Where(rows, on, Last(keys)), RowCost(price)));
    }
  }

  lemma TwoQuotients(a: nat, b: nat)
    ensures a / TOKENS_PER_PRICE_UNIT + b / TOKENS_PER_PRICE_UNIT <= (a + b) / TOKENS_PER_PRICE_UNIT
    ensures (a + b) / TOKENS_PER_PRICE_UNIT <= a / TOKENS_PER_PRICE_UNIT + b / TOKENS_PER_PRICE_UNIT + 1
  {
  }

  lemma {:induction false} WhereIs(rows: seq<Row>, on: Row -> string, key: string)
    ensures forall r | r in Where(rows, on, key) :: r in rows && on(r) == key
    ensures HasRow(rows, on, key) ==> Where(rows, on, key) != []
  {
    if rows != [] {
      WhereIs(rows[..|rows| - 1], on, key);
      assert rows == rows[..|rows| - 1] + [Last(rows)];
    }
  }

  lemma GroupComputed(rows: seq<Row>, on: Row -> string, key: string, prices: Prices, model: string)
    requires model in prices && (forall r | r in rows :: r.model == model) && HasRow(rows, on, key)
    ensures Compare(key, Where(rows, on, key), prices).computedNanoUsd ==
            Some(Sum(Where(rows, on, key), RowCost(prices[model])) / TOKENS_PER_PRICE_UNIT * 1000)
  {
    hide Sum, Where, Exact, SumTokens, HasRow, RowCost;
    var group := Where(rows, on, key);
    WhereIs(rows, on, key);
    assert group[0] in group;
    CostIsLinear(prices[model], group);
  }

  lemma TotalSnoc(printed: seq<Comparison>, c: Comparison, figure: Comparison -> nat)
    ensures Total(printed + [c], figure) == Total(printed, figure) + figure(c)
  {
    assert (printed + [c])[..|printed|] == printed;
  }

  lemma {:induction false} ComputedIsTruncated(
      keys: seq<string>, rows: seq<Row>, on: Row -> string, prices: Prices, model: string)
    requires model in prices && (forall r | r in rows :: r.model == model)
    requires forall k | k in keys :: HasRow(rows, on, k)
    ensures Total(Comparisons(keys, rows, on, prices), ComputedOf) == Truncated(keys, rows, on, prices[model]) * 1000
    ensures forall c | c in Comparisons(keys, rows, on, prices) :: c.computedNanoUsd.Some?
  {
    hide Sum, Where, HasRow, Compare, RowCost, Total;
    if keys == [] {
      assert Total([], ComputedOf) == 0 by { NoTotal(ComputedOf); }
    } else {
      var init, k := keys[..|keys| - 1], Last(keys);
      assert keys == init + [k];
      assert forall j | j in init :: j in keys;
      assert k in keys;
      ComputedIsTruncated(init, rows, on, prices, model);
      GroupComputed(rows, on, k, prices, model);
      ComparisonsSnoc(init, k, rows, on, prices);
      TotalSnoc(Comparisons(init, rows, on, prices), Compare(k, Where(rows, on, k), prices), ComputedOf);
      hide Comparisons;
    }
  }

  lemma NoTotal(figure: Comparison -> nat)
    ensures Total([], figure) == 0
  {
  }

  /**
   * `days` of a model against that model's line of `show`: the reported figures add up exactly, and `show`
   * computes at least what the days do together, and more by at most a micro-USD for each day but one.
   */
  lemma DaysAgainstShow(all: seq<Row>, prices: Prices, model: string)
    requires exists r | r in all :: r.model == model
    ensures
      var rows := Where(all, Model, model);
      var days, line := Comparisons(Keys(rows, Day), rows, Day, prices), Compare(model, rows, prices);
      && Total(days, ReportedOf) == line.reportedNanoUsd
      && Total(days, TurnsOf) == line.turns
      && (line.computedNanoUsd.Some? <==> model in prices)
      && (model in prices ==>
            Total(days, ComputedOf) <= line.computedNanoUsd.value
            <= Total(days, ComputedOf) + (|Keys(rows, Day)| - 1) * 1000)
  {
    var rows := Where(all, Model, model);
    var keys := Keys(rows, Day);
    assert HasRow(all, Model, model) by { var r :| r in all && r.model == model; assert Model(r) == model; }
    WhereIs(all, Model, model);
    assert rows[0] in rows && Model(rows[0]) == model;
    assert forall r | r in rows :: Model(r) == r.model;
    GroupingConserves(rows, Day, prices);
    if model in prices {
      KeysAre(rows, Day);
      assert HasRow(rows, Day, Day(rows[0]));
      assert Day(rows[0]) in keys;
      hide Where, Keys, Sum, Comparisons, Total;
      ComputedIsTruncated(keys, rows, Day, prices, model);
      TruncationBound(keys, rows, Day, prices[model]);
      KeysPartition(rows, Day, RowCost(prices[model]));
      CostIsLinear(prices[model], rows);
    }
  }

  /** And that line is what `show` prints for the model. */
  lemma ShowHasTheLine(all: seq<Row>, prices: Prices, model: string)
    requires exists r | r in all :: r.model == model
    ensures Compare(model, Where(all, Model, model), prices) in Comparisons(Keys(all, Model), all, Model, prices)
    ensures |Comparisons(Keys(all, Model), all, Model, prices)| == |Keys(all, Model)|
  {
    KeysAre(all, Model);
    assert HasRow(all, Model, model) by { var r :| r in all && r.model == model; assert Model(r) == model; }
    ComparisonIn(Keys(all, Model), all, Model, prices, model);
  }

  lemma {:induction false} ComparisonIn(
      keys: seq<string>, rows: seq<Row>, on: Row -> string, prices: Prices, key: string)
    ensures |Comparisons(keys, rows, on, prices)| == |keys|
    ensures key in keys ==> Compare(key, Where(rows, on, key), prices) in Comparisons(keys, rows, on, prices)
  {
    hide Compare, Where;
    if keys != [] {
      assert keys == keys[..|keys| - 1] + [Last(keys)];
      ComparisonIn(keys[..|keys| - 1], rows, on, prices, key);
    }
  }

  /** What a price is: the micro-USD of a million tokens of its own tier. */
  lemma PricedPerMillion(price: Price, n: nat)
    ensures CostMicroUsd(price, Tokens(n * 1_000_000, 0, 0, 0)) == n * price.input
    ensures CostMicroUsd(price, Tokens(0, n * 1_000_000, 0, 0)) == n * price.output
    ensures CostMicroUsd(price, Tokens(0, 0, n * 1_000_000, 0)) == n * price.cacheRead
    ensures CostMicroUsd(price, Tokens(0, 0, 0, n * 1_000_000)) == n * price.cacheWrite
  {
    Millions(n, price.input);
    Millions(n, price.output);
    Millions(n, price.cacheRead);
    Millions(n, price.cacheWrite);
  }

  /** And the figure printed is in nano-USD. */
  lemma PrintedInNano(key: string, row: Row, prices: Prices)
    requires row.model in prices
    ensures Compare(key, [row], prices).computedNanoUsd == Some(1000 * CostMicroUsd(prices[row.model], row.usage))
  {
    SumOne(row, Input);
    SumOne(row, Output);
    SumOne(row, CacheRead);
    SumOne(row, CacheWrite);
    hide Sum, CostMicroUsd;
  }

  lemma SumOne(row: Row, of: Row -> nat)
    ensures Sum([row], of) == of(row)
  {
    assert [row][..0] == [];
    assert Sum([], of) == 0;
  }

  lemma Millions(n: nat, p: nat)
    ensures n * 1_000_000 * p / 1_000_000 == n * p
  {
    assert n * 1_000_000 * p == n * p * 1_000_000;
  }

  /** Each comparison is printed under its own key, in the order of the keys, and is of that key's rows. */
  lemma {:induction false} PrintedUnderItsKey(
      keys: seq<string>, rows: seq<Row>, on: Row -> string, prices: Prices, i: nat)
    requires i < |keys|
    ensures |Comparisons(keys, rows, on, prices)| == |keys|
    ensures
      var c := Comparisons(keys, rows, on, prices)[i];
      c.key == keys[i] && c.turns == Sum(Where(rows, on, keys[i]), Turns)
    decreases |keys|
  {
    hide Where, Sum;
    ComparisonIn(keys, rows, on, prices, keys[i]);
    if i < |keys| - 1 {
      ComparisonIn(keys[..|keys| - 1], rows, on, prices, keys[i]);
      PrintedUnderItsKey(keys[..|keys| - 1], rows, on, prices, i);
    } else {
      ComparisonIn(keys[..|keys| - 1], rows, on, prices, keys[i]);
    }
  }
}
