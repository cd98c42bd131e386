/**
 * The fee-aware spatial check of arbitrage.py, check_for_arbitrage.
 *
 * It reads the latest bid and ask of every configured exchange, keeps the exchanges whose
 * bid and ask are both truthy, and scans the pairs i < j in list order, trying "buy on i,
 * sell on j" before "buy on j, sell on i".  A scenario qualifies when its profit after the
 * fees of both trades reaches the threshold (a non-strict comparison); the first one that
 * qualifies is reported and the scan stops.
 */
module LegacyArbitrage {
  import opened Wrappers
  import PriceValidation
  import ArbitrageDetector

  /** The latest prices of one exchange; None until its stream delivered a ticker. */
  datatype Slot = Slot(bid: Option<real>, ask: Option<real>)

  /** `latest_prices`: exchange id to its slot. */
  type Prices = map<string, Slot>

  /** Python truthiness of a price: present and non-zero. */
  predicate Present(p: Option<real>) {
    p.Some? && p.value != 0.0
  }

  predicate HasPrices(latest: Prices, exchangeId: string) {
    exchangeId in latest && Present(latest[exchangeId].bid) && Present(latest[exchangeId].ask)
  }

  /** `exchanges_with_prices`: the configured exchanges with a truthy bid and ask, in order. */
  function WithPrices(exchanges: seq<string>, latest: Prices): (r: seq<string>)
    ensures forall e :: e in r <==> e in exchanges && HasPrices(latest, e)
    ensures forall k :: 0 <= k < |r| ==> HasPrices(latest, r[k])
    ensures |r| <= |exchanges|
  {
    if exchanges == [] then []
    else
      var r := WithPrices(exchanges[..|exchanges| - 1], latest);
      var e := exchanges[|exchanges| - 1];
      assert forall x :: x in exchanges <==> x in exchanges[..|exchanges| - 1] || x == e;
      if HasPrices(latest, e) then r + [e] else r
  }

  /** One direction of one pair, with its profit after fees. */
  datatype Scenario = Scenario(buyExchange: string, sellExchange: string, buyPrice: real,
                               sellPrice: real, profitAfterFees: real)

  /** The price difference in percent of the buying price, less the fee of both trades. */
  function FeeAdjustedProfit(buyPrice: real, sellPrice: real, fee: real): real
    requires buyPrice != 0.0
  {
    ((sellPrice - buyPrice) / buyPrice) * 100.0 - (2.0 * fee * 100.0)
  }

  /** Buying at the ask of `buyExchange` and selling at the bid of `sellExchange`. */
  function Trade(latest: Prices, buyExchange: string, sellExchange: string, fee: real): Scenario
    requires HasPrices(latest, buyExchange) && HasPrices(latest, sellExchange)
  {
    var buyPrice, sellPrice := latest[buyExchange].ask.value, latest[sellExchange].bid.value;
    Scenario(buyExchange, sellExchange, buyPrice, sellPrice, FeeAdjustedProfit(buyPrice, sellPrice, fee))
  }

  /** The threshold test: reaching the minimum is enough. */
  predicate Qualifies(s: Scenario, minProfit: real) {
    s.profitAfterFees >= minProfit
  }

  predicate AllPriced(names: seq<string>, latest: Prices) {
    forall k :: 0 <= k < |names| ==> HasPrices(latest, names[k])
  }

  /** The scan from pair (i, j) on, row by row: the first qualifying scenario, if any. */
  function Search(names: seq<string>, latest: Prices, fee: real, minProfit: real, i: nat, j: nat)
    : Option<Scenario>
    requires AllPriced(names, latest)
    requires i < j <= |names| + 1
    decreases |names| - i, |names| + 1 - j
  {
    if i >= |names| then None
    else if j >= |names| then Search(names, latest, fee, minProfit, i + 1, i + 2)
    else
      var forward := Trade(latest, names[i], names[j], fee);
      if Qualifies(forward, minProfit) then Some(forward)
      else
        var reverse := Trade(latest, names[j], names[i], fee);
        if Qualifies(reverse, minProfit) then Some(reverse)
        else Search(names, latest, fee, minProfit, i, j + 1)
  }

  /** One pair of the scan: forward, then reverse, then the next pair of the row. */
  lemma SearchStep(names: seq<string>, latest: Prices, fee: real, minProfit: real, i: nat, j: nat)
    requires AllPriced(names, latest)
    requires i < j < |names|
    ensures Search(names, latest, fee, minProfit, i, j) ==
      var forward := Trade(latest, names[i], names[j], fee);
      var reverse := Trade(latest, names[j], names[i], fee);
      if Qualifies(forward, minProfit) then Some(forward)
      else if Qualifies(reverse, minProfit) then Some(reverse)
      else Search(names, latest, fee, minProfit, i, j + 1)
  {
  }

  /** What check_for_arbitrage reports. */
  function CheckSpec(exchanges: seq<string>, latest: Prices, fee: real, minProfit: real): Option<Scenario> {
    var names := WithPrices(exchanges, latest);
    if |names| < 2 then None else Search(names, latest, fee, minProfit, 0, 1)
  }

  /** check_for_arbitrage, with the reported scenario as its result. */
  method CheckForArbitrage(exchanges: seq<string>, latest: Prices, fee: real, minProfit: real)
    returns (found: Option<Scenario>)
    requires forall e :: e in exchanges ==> e in latest
    ensures found == CheckSpec(exchanges, latest, fee, minProfit)
  {
    var names: seq<string> := [];
    for k := 0 to |exchanges|
      invariant names == WithPrices(exchanges[..k], latest)
    {
      assert exchanges[..k + 1][..k] == exchanges[..k];
      var slot := latest[exchanges[k]];
      if slot.bid.Some? && slot.bid.value != 0.0 && slot.ask.Some? && slot.ask.value != 0.0 {
        names := names + [exchanges[k]];
      }
    }
    assert exchanges[..|exchanges|] == exchanges;

    if |names| < 2 {
      return None;
    }
    found := ScanScenarios(names, latest, fee, minProfit);
  }

  /** The pair scan of check_for_arbitrage over the priced exchanges. */
  method ScanScenarios(names: seq<string>, latest: Prices, fee: real, minProfit: real)
    returns (found: Option<Scenario>)
    requires AllPriced(names, latest)
    ensures found == Search(names, latest, fee, minProfit, 0, 1)
  {
    ghost var goal := Search(names, latest, fee, minProfit, 0, 1);
    for i := 0 to |names|
      invariant Search(names, latest, fee, minProfit, i, i + 1) == goal
    {
      for j := i + 1 to |names|
        invariant Search(names, latest, fee, minProfit, i, j) == goal
      {
        SearchStep(names, latest, fee, minProfit, i, j);
        var buyPrice := latest[names[i]].ask.value;
        var sellPrice := latest[names[j]].bid.value;
        var profitAfterFees := ((sellPrice - buyPrice) / buyPrice) * 100.0 - (2.0 * fee * 100.0);
        if profitAfterFees >= minProfit {
          return Some(Scenario(names[i], names[j], buyPrice, sellPrice, profitAfterFees));
        }
        buyPrice := latest[names[j]].ask.value;
        sellPrice := latest[names[i]].bid.value;
        profitAfterFees := ((sellPrice - buyPrice) / buyPrice) * 100.0 - (2.0 * fee * 100.0);
        if profitAfterFees >= minProfit {
          return Some(Scenario(names[j], names[i], buyPrice, sellPrice, profitAfterFees));
        }
      }
    }
    found := None;
  }

  /** Some direction of pair (a, b) qualifies. */
  predicate PairQualifies(names: seq<string>, latest: Prices, fee: real, minProfit: real, a: nat, b: nat)
    requires AllPriced(names, latest)
    requires a < |names| && b < |names|
  {
    Qualifies(Trade(latest, names[a], names[b], fee), minProfit) ||
    Qualifies(Trade(latest, names[b], names[a], fee), minProfit)
  }

  /** `s` is what pair (a, b) reports: the forward scenario if it qualifies, else the reverse one. */
  predicate PairReports(names: seq<string>, latest: Prices, fee: real, minProfit: real, a: nat, b: nat, s: Scenario)
    requires AllPriced(names, latest)
    requires a < |names| && b < |names|
  {
    var forward := Trade(latest, names[a], names[b], fee);
    var reverse := Trade(latest, names[b], names[a], fee);
    (s == forward && Qualifies(forward, minProfit)) ||
    (s == reverse && !Qualifies(forward, minProfit) && Qualifies(reverse, minProfit))
  }

  /** Pair (a, b) comes at or after (i, j) in the scan order. */
  predicate AtOrAfter(a: nat, b: nat, i: nat, j: nat) {
    a > i || (a == i && b >= j)
  }

  /**
   * Pair (a, b), at or after (i, j), reports `s`, and no pair scanned before it from (i, j)
   * qualifies.
   */
  predicate FirstFrom(names: seq<string>, latest: Prices, fee: real, minProfit: real, i: nat, j: nat,
                      a: nat, b: nat, s: Scenario)
    requires AllPriced(names, latest)
  {
    && a < b < |names| && AtOrAfter(a, b, i, j)
    && PairReports(names, latest, fee, minProfit, a, b, s)
    && forall a', b' :: 0 <= a' < b' < |names| && AtOrAfter(a', b', i, j) && !AtOrAfter(a', b', a, b) ==>
         !PairQualifies(names, latest, fee, minProfit, a', b')
  }

  /**
   * The scan from (i, j) finds nothing exactly when no later pair qualifies, and otherwise
   * reports the first qualifying pair's scenario in scan order.
   */
  lemma {:induction false} SearchFindsFirst(names: seq<string>, latest: Prices, fee: real, minProfit: real,
                                            i: nat, j: nat)
    requires AllPriced(names, latest)
    requires i < j <= |names| + 1
    ensures var r := Search(names, latest, fee, minProfit, i, j);
      r.None? <==> forall a, b :: 0 <= a < b < |names| && AtOrAfter(a, b, i, j) ==>
        !PairQualifies(names, latest, fee, minProfit, a, b)
    ensures var r := Search(names, latest, fee, minProfit, i, j);
      r.Some? ==> exists a, b :: FirstFrom(names, latest, fee, minProfit, i, j, a, b, r.value)
    decreases |names| - i, |names| + 1 - j
  {
    var r := Search(names, latest, fee, minProfit, i, j);
    if i >= |names| {
    } else if j >= |names| {
      SearchFindsFirst(names, latest, fee, minProfit, i + 1, i + 2);
      if r.Some? {
        var a, b :| FirstFrom(names, latest, fee, minProfit, i + 1, i + 2, a, b, r.value);
        assert FirstFrom(names, latest, fee, minProfit, i, j, a, b, r.value);
      }
    } else if PairQualifies(names, latest, fee, minProfit, i, j) {
      assert FirstFrom(names, latest, fee, minProfit, i, j, i, j, r.value);
    } else {
      SearchFindsFirst(names, latest, fee, minProfit, i, j + 1);
      if r.Some? {
        var a, b :| FirstFrom(names, latest, fee, minProfit, i, j + 1, a, b, r.value);
        assert FirstFrom(names, latest, fee, minProfit, i, j, a, b, r.value);
      }
    }
  }

  /**
   * check_for_arbitrage reports nothing with fewer than two priced exchanges; it reports nothing
   * exactly when no direction of any pair reaches the threshold after fees; otherwise it reports
   * the scenario of the first qualifying pair in scan order, whose profit after fees is at least
   * the threshold and whose prices are the buy side's ask and the sell side's bid.
   */
  lemma CheckResult(exchanges: seq<string>, latest: Prices, fee: real, minProfit: real)
    ensures var names := WithPrices(exchanges, latest);
      var r := CheckSpec(exchanges, latest, fee, minProfit);
      && (|names| < 2 ==> r.None?)
      && (|names| >= 2 ==>
            (r.None? <==> forall a, b :: 0 <= a < b < |names| ==> !PairQualifies(names, latest, fee, minProfit, a, b)))
      && (r.Some? ==>
            && r.value.profitAfterFees >= minProfit
            && r.value.buyExchange in names && r.value.sellExchange in names
            && r.value.buyPrice == latest[r.value.buyExchange].ask.value
            && r.value.sellPrice == latest[r.value.sellExchange].bid.value
            && r.value.profitAfterFees == FeeAdjustedProfit(r.value.buyPrice, r.value.sellPrice, fee)
            && exists a, b :: FirstFrom(names, latest, fee, minProfit, 0, 1, a, b, r.value))
  {
    var names := WithPrices(exchanges, latest);
    if |names| >= 2 {
      SearchFindsFirst(names, latest, fee, minProfit, 0, 1);
      assert forall a, b :: 0 <= a < b < |names| ==> AtOrAfter(a, b, 0, 1);
    }
  }

  /** Two exchanges, X quoting 99/100 and Y quoting 101/102. */
  const ThresholdExample: Prices := map["X" := Slot(Some(99.0), Some(100.0)), "Y" := Slot(Some(101.0), Some(102.0))]

  /**
   * The two spatial checks apply different thresholds to the same trade: with no fee, a
   * trade whose profit equals the threshold exactly is reported here and not by the detector.
   * Buying at 100 and selling at 101 gains 1%.
   */
  lemma ThresholdPolicyDiffers()
    ensures CheckSpec(["X", "Y"], ThresholdExample, 0.0, 1.0) == Some(Scenario("X", "Y", 100.0, 101.0, 1.0))
    ensures var qx := PriceValidation.EnhancedQuote(99.0, 100.0, 1.0, 1.0, 100.0 / 99.0, 0.0);
      var qy := PriceValidation.EnhancedQuote(101.0, 102.0, 1.0, 1.0, 100.0 / 101.0, 0.0);
      ArbitrageDetector.PairOpportunities("S", "X", "Y", qx, qy, 1.0) == []
  {
    ExampleBothPriced();
    ExampleFirstPairQualifies();
    ThresholdReachedDetector();
  }

  lemma ExampleBothPriced()
    ensures WithPrices(["X", "Y"], ThresholdExample) == ["X", "Y"]
  {
    var names := ["X", "Y"];
    assert names[..1] == ["X"];
    assert ["X"][..0] == [];
  }

  lemma ExampleFirstPairQualifies()
    requires AllPriced(["X", "Y"], ThresholdExample)
    ensures Search(["X", "Y"], ThresholdExample, 0.0, 1.0, 0, 1) == Some(Scenario("X", "Y", 100.0, 101.0, 1.0))
  {
    assert FeeAdjustedProfit(100.0, 101.0, 0.0) == 1.0;
    SearchStep(["X", "Y"], ThresholdExample, 0.0, 1.0, 0, 1);
  }

  lemma ThresholdReachedDetector()
    ensures var qx := PriceValidation.EnhancedQuote(99.0, 100.0, 1.0, 1.0, 100.0 / 99.0, 0.0);
      var qy := PriceValidation.EnhancedQuote(101.0, 102.0, 1.0, 1.0, 100.0 / 101.0, 0.0);
      ArbitrageDetector.PairOpportunities("S", "X", "Y", qx, qy, 1.0) == []
  {
    assert ArbitrageDetector.ProfitPct(100.0, 101.0) == 1.0;
    assert ArbitrageDetector.ProfitPct(101.0, 100.0) < 0.0;
  }
}
