/**
 * Opportunity detection of src/arbitrage_detector.py over a snapshot of the price store:
 * the triangular check on one exchange, the spatial check across exchanges for one
 * symbol, the triangle-pattern builder and the per-exchange symbol filter.
 *
 * The spatial detector computes the profit of a pair's reverse direction from the forward
 * trade's prices, while the record it emits names the reverse trade's prices.  The detector
 * is modelled as it computes; the end of the module gives the pair check with the reverse
 * trade's own profit, the detector built on it, and an input on which the two differ.
 */
module ArbitrageDetector {
  import opened Wrappers
  import opened PriceValidation
  import opened PriceStore

  /** Three symbols (A/C, B/A, B/C): buy A with C, buy B with A, sell B for C. */
  datatype Triangle = Triangle(baseQuote: string, altBase: string, altQuote: string)

  /** A detected opportunity, one constructor per detector. */
  datatype Opportunity =
    | Triangular(exchange: string, path: Triangle, profitPct: real,
                 stepOneAsk: real, stepTwoAsk: real, stepThreeBid: real)
    | Spatial(symbol: string, buyExchange: string, sellExchange: string,
              buyPrice: real, sellPrice: real, profitPct: real)

  /** The freshness gate parameters: the clock reading, max_age_seconds and the volume floor. */
  datatype Gate = Gate(now: real, maxAge: real, minVolumeUsd: real)

  /** Shorthand for the store lookup with a gate. */
  function Tradeable(store: Store, gate: Gate, exchangeId: string, symbol: string): Option<EnhancedQuote> {
    LatestTradeable(store, exchangeId, symbol, gate.now, gate.maxAge, gate.minVolumeUsd)
  }

  // ---------------------------------------------------------------------------------------
  // Symbol filter (the comprehension feeding the triangular check)
  // ---------------------------------------------------------------------------------------

  /** The configured symbols that have at least one stored entry on the exchange, in order. */
  function SymbolsWithData(store: Store, exchangeId: string, allSymbols: seq<string>): (r: seq<string>)
    ensures forall s :: s in r <==> s in allSymbols && |Buffer(store, exchangeId, s)| > 0
    ensures |r| <= |allSymbols|
  {
    if allSymbols == [] then []
    else
      (if |Buffer(store, exchangeId, allSymbols[0])| > 0 then [allSymbols[0]] else [])
      + SymbolsWithData(store, exchangeId, allSymbols[1..])
  }

  // ---------------------------------------------------------------------------------------
  // Triangular detection on one exchange
  // ---------------------------------------------------------------------------------------

  /** The one triangle the detector checks: USDT -> BTC -> ETH -> USDT. */
  const PrimaryTriangle: Triangle := Triangle("BTC/USDT", "ETH/BTC", "ETH/USDT")

  const DetectorTriangles: seq<Triangle> := [PrimaryTriangle]

  /** Every quote of a price table satisfies the validation invariant. */
  predicate TableValid(prices: map<string, EnhancedQuote>) {
    forall s :: s in prices ==> WellFormed(prices[s])
  }

  /** `price_data`: the tradeable quote of each listed symbol that has one. */
  function PriceData(store: Store, gate: Gate, exchangeId: string, symbols: seq<string>)
    : (r: map<string, EnhancedQuote>)
    requires StoreValid(store)
    ensures forall s :: s in r <==> s in symbols && Tradeable(store, gate, exchangeId, s).Some?
    ensures forall s :: s in r ==> r[s] == Tradeable(store, gate, exchangeId, s).value
    ensures TableValid(r)
  {
    var r := map s | s in symbols && Tradeable(store, gate, exchangeId, s).Some?
                   :: Tradeable(store, gate, exchangeId, s).value;
    forall s | s in r ensures WellFormed(r[s]) {
      TradeableIsWellFormed(store, exchangeId, s, gate.now, gate.maxAge, gate.minVolumeUsd);
    }
    r
  }

  /**
   * Profit in percent of the cycle, starting with one unit of the quote currency C: it buys
   * 1 / ask(A/C) of A, converted to B at the rate ask(B/A), which sells at bid(B/C).
   */
  function TriangleProfit(stepOneAsk: real, stepTwoAsk: real, stepThreeBid: real): real
    requires stepOneAsk != 0.0
  {
    (1.0 * (1.0 / stepOneAsk) * stepTwoAsk * stepThreeBid - 1.0) * 100.0
  }

  /** With a positive first price the cycle gains exactly when ask(B/A) * bid(B/C) exceeds ask(A/C). */
  lemma TriangleProfitSign(stepOneAsk: real, stepTwoAsk: real, stepThreeBid: real)
    requires stepOneAsk > 0.0
    ensures TriangleProfit(stepOneAsk, stepTwoAsk, stepThreeBid) > 0.0
        <==> stepTwoAsk * stepThreeBid > stepOneAsk
  {
    var u := 1.0 / stepOneAsk;
    assert u * stepOneAsk == 1.0;
    assert u * (stepTwoAsk * stepThreeBid) * stepOneAsk == stepTwoAsk * stepThreeBid;
  }

  /**
   * In a market whose cross rate is consistent, bid(ETH/USDT) = ask(BTC/USDT) * ask(ETH/BTC),
   * the cycle's profit depends on ask(ETH/BTC) alone: (ask(ETH/BTC)^2 - 1) * 100.
   */
  lemma TriangleProfitConsistentMarket(stepOneAsk: real, stepTwoAsk: real)
    requires stepOneAsk > 0.0
    ensures TriangleProfit(stepOneAsk, stepTwoAsk, stepOneAsk * stepTwoAsk)
         == (stepTwoAsk * stepTwoAsk - 1.0) * 100.0
  {
    assert 1.0 / stepOneAsk * stepOneAsk == 1.0;
  }

  predicate HasAllLegs(prices: map<string, EnhancedQuote>, t: Triangle) {
    t.baseQuote in prices && t.altBase in prices && t.altQuote in prices
  }

  /** The opportunities one triangle contributes: none unless all three legs are priced. */
  function EvaluateTriangle(exchangeId: string, prices: map<string, EnhancedQuote>, t: Triangle,
                            minProfit: real): seq<Opportunity>
    requires TableValid(prices)
  {
    if HasAllLegs(prices, t) then
      var one, two, three := prices[t.baseQuote].ask, prices[t.altBase].ask, prices[t.altQuote].bid;
      var profit := TriangleProfit(one, two, three);
      if profit > minProfit then [Triangular(exchangeId, t, profit, one, two, three)] else []
    else
      []
  }

  /** The opportunities of a list of triangles, in list order. */
  function EvaluateTriangles(exchangeId: string, prices: map<string, EnhancedQuote>,
                             ts: seq<Triangle>, minProfit: real): seq<Opportunity>
    requires TableValid(prices)
  {
    if ts == [] then []
    else EvaluateTriangles(exchangeId, prices, ts[..|ts| - 1], minProfit)
         + EvaluateTriangle(exchangeId, prices, ts[|ts| - 1], minProfit)
  }

  /** What detect_triangular_arbitrage_single_exchange returns. */
  function TriangularSpec(store: Store, gate: Gate, exchangeId: string, symbols: seq<string>,
                          minProfit: real): seq<Opportunity>
    requires StoreValid(store)
  {
    EvaluateTriangles(exchangeId, PriceData(store, gate, exchangeId, symbols), DetectorTriangles, minProfit)
  }

  /** One more symbol looked up: the table gains that symbol exactly when it is tradeable. */
  lemma PriceDataStep(store: Store, gate: Gate, exchangeId: string, symbols: seq<string>, i: nat)
    requires StoreValid(store)
    requires i < |symbols|
    ensures var d := Tradeable(store, gate, exchangeId, symbols[i]);
      PriceData(store, gate, exchangeId, symbols[..i + 1])
      == if d.Some? then PriceData(store, gate, exchangeId, symbols[..i])[symbols[i] := d.value]
         else PriceData(store, gate, exchangeId, symbols[..i])
  {
    assert symbols[..i + 1] == symbols[..i] + [symbols[i]];
  }

  /** The detector's triangle list is evaluated by its one triangle. */
  lemma DetectorTrianglesOnce(exchangeId: string, prices: map<string, EnhancedQuote>, minProfit: real)
    requires TableValid(prices)
    ensures EvaluateTriangles(exchangeId, prices, DetectorTriangles, minProfit)
         == EvaluateTriangle(exchangeId, prices, PrimaryTriangle, minProfit)
  {
    assert DetectorTriangles[..0] == [];
  }

  /** detect_triangular_arbitrage_single_exchange over a store snapshot. */
  method DetectTriangular(store: Store, gate: Gate, exchangeId: string, symbols: seq<string>,
                          minProfit: real) returns (opps: seq<Opportunity>)
    requires StoreValid(store)
    ensures opps == TriangularSpec(store, gate, exchangeId, symbols, minProfit)
  {
    var priceData := CollectPriceData(store, gate, exchangeId, symbols);
    opps := EvaluateDetectorTriangles(exchangeId, priceData, minProfit);
  }

  /** The first loop of the detector: the tradeable quote of every listed symbol. */
  method CollectPriceData(store: Store, gate: Gate, exchangeId: string, symbols: seq<string>)
    returns (priceData: map<string, EnhancedQuote>)
    requires StoreValid(store)
    ensures priceData == PriceData(store, gate, exchangeId, symbols)
  {
    priceData := map[];
    for i := 0 to |symbols|
      invariant priceData == PriceData(store, gate, exchangeId, symbols[..i])
    {
      var data := Tradeable(store, gate, exchangeId, symbols[i]);
      if data.Some? {
        priceData := priceData[symbols[i] := data.value];
      }
      PriceDataStep(store, gate, exchangeId, symbols, i);
    }
    assert symbols[..|symbols|] == symbols;
  }

  /** The second loop of the detector: every triangle of its list, in order. */
  method EvaluateDetectorTriangles(exchangeId: string, priceData: map<string, EnhancedQuote>,
                                   minProfit: real) returns (opps: seq<Opportunity>)
    requires TableValid(priceData)
    ensures opps == EvaluateTriangles(exchangeId, priceData, DetectorTriangles, minProfit)
  {
    opps := [];
    for k := 0 to |DetectorTriangles|
      invariant opps == EvaluateTriangles(exchangeId, priceData, DetectorTriangles[..k], minProfit)
    {
      var t := DetectorTriangles[k];
      var found := EvaluateOne(exchangeId, priceData, t, minProfit);
      assert DetectorTriangles[..k + 1][..k] == DetectorTriangles[..k];
      opps := opps + found;
    }
    assert DetectorTriangles[..|DetectorTriangles|] == DetectorTriangles;
  }

  /** The body of the triangle loop: one cycle's conversions and the threshold test. */
  method EvaluateOne(exchangeId: string, priceData: map<string, EnhancedQuote>, t: Triangle,
                     minProfit: real) returns (found: seq<Opportunity>)
    requires TableValid(priceData)
    ensures found == EvaluateTriangle(exchangeId, priceData, t, minProfit)
  {
    found := [];
    if t.baseQuote in priceData && t.altBase in priceData && t.altQuote in priceData {
      var one, two, three := priceData[t.baseQuote].ask, priceData[t.altBase].ask, priceData[t.altQuote].bid;
      var usdtToBtc := 1.0 / one;
      var btcToEth := two;
      var ethToUsdt := three;
      var finalUsdt := 1.0 * usdtToBtc * btcToEth * ethToUsdt;
      var profit := (finalUsdt - 1.0) * 100.0;
      assert profit == TriangleProfit(one, two, three);
      if profit > minProfit {
        found := [Triangular(exchangeId, t, profit, one, two, three)];
      }
    }
  }

  /**
   * With its single triangle the detector reports at most one opportunity per exchange,
   * and it reports one exactly when all three legs are listed and tradeable and the
   * cycle's profit strictly exceeds the threshold; the record carries those prices, and
   * under a non-negative threshold ask(ETH/BTC) * bid(ETH/USDT) then exceeds ask(BTC/USDT).
   */
  lemma TriangularResult(store: Store, gate: Gate, exchangeId: string, symbols: seq<string>,
                         minProfit: real)
    requires StoreValid(store)
    ensures var opps := TriangularSpec(store, gate, exchangeId, symbols, minProfit);
      var t := PrimaryTriangle;
      && |opps| <= 1
      && (|opps| == 1 <==>
            && t.baseQuote in symbols && t.altBase in symbols && t.altQuote in symbols
            && Tradeable(store, gate, exchangeId, t.baseQuote).Some?
            && Tradeable(store, gate, exchangeId, t.altBase).Some?
            && Tradeable(store, gate, exchangeId, t.altQuote).Some?
            && TriangleProfit(Tradeable(store, gate, exchangeId, t.baseQuote).value.ask,
                              Tradeable(store, gate, exchangeId, t.altBase).value.ask,
                              Tradeable(store, gate, exchangeId, t.altQuote).value.bid) > minProfit)
      && (|opps| == 1 ==>
            && opps[0].Triangular?
            && opps[0].exchange == exchangeId
            && opps[0].path == t
            && opps[0].profitPct > minProfit
            && opps[0].stepOneAsk == Tradeable(store, gate, exchangeId, t.baseQuote).value.ask
            && opps[0].stepTwoAsk == Tradeable(store, gate, exchangeId, t.altBase).value.ask
            && opps[0].stepThreeBid == Tradeable(store, gate, exchangeId, t.altQuote).value.bid)
      && (|opps| == 1 && minProfit >= 0.0 ==>
            opps[0].stepTwoAsk * opps[0].stepThreeBid > opps[0].stepOneAsk)
  {
    var prices := PriceData(store, gate, exchangeId, symbols);
    DetectorTrianglesOnce(exchangeId, prices, minProfit);
    var t := PrimaryTriangle;
    if HasAllLegs(prices, t) {
      TriangleProfitSign(prices[t.baseQuote].ask, prices[t.altBase].ask, prices[t.altQuote].bid);
    }
  }

  // ---------------------------------------------------------------------------------------
  // Spatial detection for one symbol
  // ---------------------------------------------------------------------------------------

  predicate NoDuplicates(xs: seq<string>) {
    forall i, j :: 0 <= i < j < |xs| ==> xs[i] != xs[j]
  }

  /**
   * The keys of `exchange_prices` in insertion order: each exchange with a tradeable
   * quote, at the position of its first occurrence.
   */
  function TradeableExchanges(store: Store, gate: Gate, symbol: string, exchanges: seq<string>)
    : (r: seq<string>)
    ensures forall x :: x in r <==> x in exchanges && Tradeable(store, gate, x, symbol).Some?
    ensures NoDuplicates(r)
    ensures |r| <= |exchanges|
  {
    if exchanges == [] then []
    else
      var r := TradeableExchanges(store, gate, symbol, exchanges[..|exchanges| - 1]);
      var x := exchanges[|exchanges| - 1];
      assert forall y :: y in exchanges <==> y in exchanges[..|exchanges| - 1] || y == x;
      if Tradeable(store, gate, x, symbol).Some? && x !in r then r + [x] else r
  }

  /** The values of `exchange_prices`. */
  function ExchangePrices(store: Store, gate: Gate, symbol: string, names: seq<string>)
    : map<string, EnhancedQuote>
  {
    map x | x in names && Tradeable(store, gate, x, symbol).Some? :: Tradeable(store, gate, x, symbol).value
  }

  /** The part of the validation invariant the spatial scan relies on: positive, uncrossed prices. */
  predicate Quoted(q: EnhancedQuote) {
    0.0 < q.bid <= q.ask
  }

  /** Every listed exchange is priced, with a positive, uncrossed quote. */
  predicate Priced(names: seq<string>, prices: map<string, EnhancedQuote>) {
    forall k :: 0 <= k < |names| ==> names[k] in prices && Quoted(prices[names[k]])
  }

  /** Profit in percent of buying at `buy` and selling at `sell`. */
  function ProfitPct(buy: real, sell: real): real
    requires buy != 0.0
  {
    (sell - buy) / buy * 100.0
  }

  /**
   * The records of one pair (x before y in the list), as the detector computes them.  The
   * forward record buys on x at ask(x) and sells on y at bid(y), with that trade's profit.
   * The reverse record names buying on y at ask(y) and selling on x at bid(x), but its
   * profit is computed from the forward prices: (ask(x) - bid(y)) / bid(y) * 100.
   */
  function PairOpportunities(symbol: string, x: string, y: string, qx: EnhancedQuote,
                             qy: EnhancedQuote, minProfit: real): seq<Opportunity>
    requires Quoted(qx) && Quoted(qy)
  {
    var buyPrice, sellPrice := qx.ask, qy.bid;
    var profit := ProfitPct(buyPrice, sellPrice);
    var reverseProfit := ProfitPct(sellPrice, buyPrice);
    (if profit > minProfit then [Spatial(symbol, x, y, buyPrice, sellPrice, profit)] else [])
    + (if reverseProfit > minProfit then [Spatial(symbol, y, x, qy.ask, qx.bid, reverseProfit)] else [])
  }

  /** A grid of records: the cell (i, j) holds what the pair at positions i and j reports. */
  type Grid = (nat, nat) -> seq<Opportunity>

  /** The cells (i, j) with i < j < jEnd of row i, in order of j. */
  function GridRow(grid: Grid, i: nat, jEnd: nat): seq<Opportunity>
    requires i < jEnd
    decreases jEnd
  {
    if jEnd == i + 1 then [] else GridRow(grid, i, jEnd - 1) + grid(i, jEnd - 1)
  }

  /** The rows 0 .. iEnd-1 of an n-column grid, each from its diagonal to column n, in order. */
  function GridRows(grid: Grid, n: nat, iEnd: nat): seq<Opportunity>
    requires iEnd <= n
  {
    if iEnd == 0 then [] else GridRows(grid, n, iEnd - 1) + GridRow(grid, iEnd - 1, n)
  }

  /** The records of the pair (i, j) of the priced list; nothing outside the list. */
  function PairGrid(symbol: string, names: seq<string>, prices: map<string, EnhancedQuote>,
                    minProfit: real): Grid
    requires Priced(names, prices)
  {
    (i: nat, j: nat) =>
      if i < |names| && j < |names|
      then PairOpportunities(symbol, names[i], names[j], prices[names[i]], prices[names[j]], minProfit)
      else []
  }

  /** The pairs (i, j) with i < j < jEnd of row i, in order of j. */
  function RowOpportunities(symbol: string, names: seq<string>, prices: map<string, EnhancedQuote>,
                            i: nat, jEnd: nat, minProfit: real): seq<Opportunity>
    requires Priced(names, prices)
    requires i < jEnd <= |names|
  {
    GridRow(PairGrid(symbol, names, prices, minProfit), i, jEnd)
  }

  /** The rows 0 .. iEnd-1 of the pair scan, in order. */
  function ScanOpportunities(symbol: string, names: seq<string>, prices: map<string, EnhancedQuote>,
                             iEnd: nat, minProfit: real): seq<Opportunity>
    requires Priced(names, prices)
    requires iEnd <= |names|
  {
    GridRows(PairGrid(symbol, names, prices, minProfit), |names|, iEnd)
  }

  lemma ExchangePricesPriced(store: Store, gate: Gate, symbol: string, exchanges: seq<string>)
    requires StoreValid(store)
    ensures var names := TradeableExchanges(store, gate, symbol, exchanges);
      Priced(names, ExchangePrices(store, gate, symbol, names))
  {
    var names := TradeableExchanges(store, gate, symbol, exchanges);
    forall x | x in names
      ensures x in ExchangePrices(store, gate, symbol, names)
      ensures Quoted(ExchangePrices(store, gate, symbol, names)[x])
    {
      TradeableIsWellFormed(store, x, symbol, gate.now, gate.maxAge, gate.minVolumeUsd);
    }
  }

  /** What detect_spatial_arbitrage_cross_exchange returns. */
  function SpatialSpec(store: Store, gate: Gate, symbol: string, exchanges: seq<string>,
                       minProfit: real): seq<Opportunity>
    requires StoreValid(store)
  {
    var names := TradeableExchanges(store, gate, symbol, exchanges);
    var prices := ExchangePrices(store, gate, symbol, names);
    ExchangePricesPriced(store, gate, symbol, exchanges);
    if |names| < 2 then [] else ScanOpportunities(symbol, names, prices, |names|, minProfit)
  }

  /** One more exchange looked up: the list and the table grow exactly as the source's dict does. */
  lemma TradeableExchangesStep(store: Store, gate: Gate, symbol: string, exchanges: seq<string>, i: nat)
    requires i < |exchanges|
    ensures var names := TradeableExchanges(store, gate, symbol, exchanges[..i]);
      var d := Tradeable(store, gate, exchanges[i], symbol);
      var names' := TradeableExchanges(store, gate, symbol, exchanges[..i + 1]);
      && names' == (if d.Some? && exchanges[i] !in names then names + [exchanges[i]] else names)
      && (exchanges[i] in ExchangePrices(store, gate, symbol, names) <==> exchanges[i] in names)
      && ExchangePrices(store, gate, symbol, names')
         == if d.Some? then ExchangePrices(store, gate, symbol, names)[exchanges[i] := d.value]
            else ExchangePrices(store, gate, symbol, names)
  {
    var names := TradeableExchanges(store, gate, symbol, exchanges[..i]);
    var x := exchanges[i];
    assert exchanges[..i + 1][..i] == exchanges[..i];
    if Tradeable(store, gate, x, symbol).Some? {
      ExchangePricesExtend(store, gate, symbol, names, x);
    }
  }

  /** The table of a list with one more tradeable exchange gains exactly that exchange's quote. */
  lemma ExchangePricesExtend(store: Store, gate: Gate, symbol: string, names: seq<string>, x: string)
    requires Tradeable(store, gate, x, symbol).Some?
    ensures ExchangePrices(store, gate, symbol, names + [x])
         == ExchangePrices(store, gate, symbol, names)[x := Tradeable(store, gate, x, symbol).value]
    ensures x in names ==> ExchangePrices(store, gate, symbol, names + [x]) == ExchangePrices(store, gate, symbol, names)
  {
    var before := ExchangePrices(store, gate, symbol, names);
    var after := ExchangePrices(store, gate, symbol, names + [x]);
    assert forall y :: y in names + [x] <==> y in names || y == x;
    assert after.Keys == before.Keys + {x};
  }

  /** detect_spatial_arbitrage_cross_exchange over a store snapshot. */
  method DetectSpatial(store: Store, gate: Gate, symbol: string, exchanges: seq<string>,
                       minProfit: real) returns (opps: seq<Opportunity>)
    requires StoreValid(store)
    ensures opps == SpatialSpec(store, gate, symbol, exchanges, minProfit)
  {
    var exchangePrices: map<string, EnhancedQuote> := map[];
    var names: seq<string> := [];
    for i := 0 to |exchanges|
      invariant names == TradeableExchanges(store, gate, symbol, exchanges[..i])
      invariant exchangePrices == ExchangePrices(store, gate, symbol, names)
    {
      TradeableExchangesStep(store, gate, symbol, exchanges, i);
      var data := Tradeable(store, gate, exchanges[i], symbol);
      if data.Some? {
        if exchanges[i] !in exchangePrices {
          names := names + [exchanges[i]];
        }
        exchangePrices := exchangePrices[exchanges[i] := data.value];
      }
    }
    assert exchanges[..|exchanges|] == exchanges;
    ExchangePricesPriced(store, gate, symbol, exchanges);

    if |names| < 2 {
      return [];
    }
    opps := ScanPairs(symbol, names, exchangePrices, minProfit);
  }

  lemma RowStep(symbol: string, names: seq<string>, prices: map<string, EnhancedQuote>,
                i: nat, j: nat, minProfit: real)
    requires Priced(names, prices)
    requires i < j < |names|
    ensures RowOpportunities(symbol, names, prices, i, j + 1, minProfit)
         == RowOpportunities(symbol, names, prices, i, j, minProfit)
            + PairOpportunities(symbol, names[i], names[j], prices[names[i]], prices[names[j]], minProfit)
  {
  }

  lemma ScanStep(symbol: string, names: seq<string>, prices: map<string, EnhancedQuote>,
                 i: nat, minProfit: real)
    requires Priced(names, prices)
    requires i < |names|
    ensures ScanOpportunities(symbol, names, prices, i + 1, minProfit)
         == ScanOpportunities(symbol, names, prices, i, minProfit)
            + RowOpportunities(symbol, names, prices, i, |names|, minProfit)
    ensures RowOpportunities(symbol, names, prices, i, i + 1, minProfit) == []
  {
  }

  /** The nested pair loop of the spatial check: every i < j once, forward then reverse. */
  method ScanPairs(symbol: string, names: seq<string>, exchangePrices: map<string, EnhancedQuote>,
                   minProfit: real) returns (opps: seq<Opportunity>)
    requires Priced(names, exchangePrices)
    ensures opps == ScanOpportunities(symbol, names, exchangePrices, |names|, minProfit)
  {
    opps := [];
    for i := 0 to |names|
      invariant opps == ScanOpportunities(symbol, names, exchangePrices, i, minProfit)
    {
      var row := ScanRow(symbol, names, exchangePrices, i, minProfit);
      ScanStep(symbol, names, exchangePrices, i, minProfit);
      opps := opps + row;
    }
  }

  /** The inner loop of the pair scan: row i, pairs (i, j) for j > i in order. */
  method ScanRow(symbol: string, names: seq<string>, exchangePrices: map<string, EnhancedQuote>,
                 i: nat, minProfit: real) returns (row: seq<Opportunity>)
    requires Priced(names, exchangePrices)
    requires i < |names|
    ensures row == RowOpportunities(symbol, names, exchangePrices, i, |names|, minProfit)
  {
    row := [];
    for j := i + 1 to |names|
      invariant row == RowOpportunities(symbol, names, exchangePrices, i, j, minProfit)
    {
      var found := EvaluatePair(symbol, names[i], names[j], exchangePrices[names[i]],
                                exchangePrices[names[j]], minProfit);
      RowStep(symbol, names, exchangePrices, i, j, minProfit);
      row := row + found;
    }
  }

  /** The body of the pair loop: the forward and the reverse test of one pair. */
  method EvaluatePair(symbol: string, x: string, y: string, qx: EnhancedQuote, qy: EnhancedQuote,
                      minProfit: real) returns (found: seq<Opportunity>)
    requires Quoted(qx) && Quoted(qy)
    ensures found == PairOpportunities(symbol, x, y, qx, qy, minProfit)
  {
    var buyPrice := qx.ask;
    var sellPrice := qy.bid;
    var profit := (sellPrice - buyPrice) / buyPrice * 100.0;
    found := [];
    if profit > minProfit {
      found := found + [Spatial(symbol, x, y, buyPrice, sellPrice, profit)];
    }
    var reverseProfit := (buyPrice - sellPrice) / sellPrice * 100.0;
    if reverseProfit > minProfit {
      found := found + [Spatial(symbol, y, x, qy.ask, qx.bid, reverseProfit)];
    }
  }

  /** A positive buying price: the profit is positive exactly when the selling price is higher. */
  lemma ProfitSign(buy: real, sell: real)
    requires buy > 0.0
    ensures ProfitPct(buy, sell) > 0.0 <==> sell > buy
    ensures ProfitPct(buy, sell) == 0.0 <==> sell == buy
  {
    var q := (sell - buy) / buy;
    assert q * buy == sell - buy;
  }

  /**
   * The forward and the reverse profit of a pair come from the same two prices with opposite
   * signs, so under a non-negative threshold one pair never reports both directions.
   */
  lemma PairAtMostOne(symbol: string, x: string, y: string, qx: EnhancedQuote, qy: EnhancedQuote,
                      minProfit: real)
    requires Quoted(qx) && Quoted(qy)
    requires minProfit >= 0.0
    ensures |PairOpportunities(symbol, x, y, qx, qy, minProfit)| <= 1
  {
    ProfitSign(qx.ask, qy.bid);
    ProfitSign(qy.bid, qx.ask);
  }

  /**
   * What one pair reports: the forward record exactly when buying on x and selling on y beats
   * the threshold, and the reverse record exactly when (ask(x) - bid(y)) / bid(y) * 100 does,
   * forward first and nothing else.  Both records carry the buy side's ask and the sell
   * side's bid.
   */
  lemma PairContents(symbol: string, x: string, y: string, qx: EnhancedQuote, qy: EnhancedQuote,
                     minProfit: real)
    requires Quoted(qx) && Quoted(qy)
    ensures var r := PairOpportunities(symbol, x, y, qx, qy, minProfit);
      var fwd := Spatial(symbol, x, y, qx.ask, qy.bid, ProfitPct(qx.ask, qy.bid));
      var rev := Spatial(symbol, y, x, qy.ask, qx.bid, ProfitPct(qy.bid, qx.ask));
      && (fwd in r <==> ProfitPct(qx.ask, qy.bid) > minProfit)
      && (rev in r <==> ProfitPct(qy.bid, qx.ask) > minProfit)
      && (forall o :: o in r ==> o == fwd || o == rev)
      && (|r| == 2 ==> r == [fwd, rev])
  {
  }

  /**
   * Once the trade the reverse record names gains (bid(x) > ask(y)), the profit reported for it
   * is at least that trade's own profit: (ask(x) - bid(y)) / bid(y) >= (bid(x) - ask(y)) / ask(y).
   */
  lemma ReverseProfitInflated(qx: EnhancedQuote, qy: EnhancedQuote)
    requires Quoted(qx) && Quoted(qy)
    requires ProfitPct(qy.ask, qx.bid) > 0.0
    ensures ProfitPct(qy.bid, qx.ask) >= ProfitPct(qy.ask, qx.bid)
  {
    ProfitSign(qy.ask, qx.bid);
    var reported, own := (qx.ask - qy.bid) / qy.bid, (qx.bid - qy.ask) / qy.ask;
    assert reported * qy.bid == qx.ask - qy.bid;
    assert own * qy.ask == qx.bid - qy.ask;
    assert own > 0.0;
    assert own * qy.bid <= own * qy.ask;
    assert reported * qy.bid >= own * qy.bid;
  }

  /**
   * The pair (i, j), i before j, reports `o`: the forward trade with its own profit, or the
   * reverse record with the profit computed from the forward prices, each beating the threshold.
   */
  predicate PairReports(symbol: string, names: seq<string>, prices: map<string, EnhancedQuote>,
                        minProfit: real, i: nat, j: nat, o: Opportunity)
    requires Priced(names, prices)
    requires i < |names| && j < |names|
  {
    var qi, qj := prices[names[i]], prices[names[j]];
    || (o == Spatial(symbol, names[i], names[j], qi.ask, qj.bid, ProfitPct(qi.ask, qj.bid))
        && ProfitPct(qi.ask, qj.bid) > minProfit)
    || (o == Spatial(symbol, names[j], names[i], qj.ask, qi.bid, ProfitPct(qj.bid, qi.ask))
        && ProfitPct(qj.bid, qi.ask) > minProfit)
  }

  /** The facts every emitted spatial record satisfies, relative to the price table it came from. */
  predicate SpatialRecordOk(o: Opportunity, symbol: string, names: seq<string>,
                            prices: map<string, EnhancedQuote>, minProfit: real) {
    && o.Spatial?
    && o.symbol == symbol
    && o.buyExchange in names && o.sellExchange in names
    && o.buyExchange != o.sellExchange
    && o.buyExchange in prices && o.sellExchange in prices
    && o.buyPrice == prices[o.buyExchange].ask
    && o.sellPrice == prices[o.sellExchange].bid
    && o.buyPrice > 0.0
    && o.profitPct > minProfit
  }

  /** Every record of row i up to jEnd comes from one of its cells. */
  lemma {:induction false} RowOrigin(grid: Grid, i: nat, jEnd: nat, o: Opportunity) returns (j: nat)
    requires i < jEnd
    requires o in GridRow(grid, i, jEnd)
    ensures i < j < jEnd && o in grid(i, j)
    decreases jEnd
  {
    if o in GridRow(grid, i, jEnd - 1) {
      j := RowOrigin(grid, i, jEnd - 1, o);
    } else {
      j := jEnd - 1;
    }
  }

  /** Every record of the rows up to iEnd comes from one cell (i, j) above the diagonal. */
  lemma {:induction false} ScanOrigin(grid: Grid, n: nat, iEnd: nat, o: Opportunity) returns (i: nat, j: nat)
    requires iEnd <= n
    requires o in GridRows(grid, n, iEnd)
    ensures i < iEnd && i < j < n && o in grid(i, j)
    decreases iEnd
  {
    if o in GridRows(grid, n, iEnd - 1) {
      i, j := ScanOrigin(grid, n, iEnd - 1, o);
    } else {
      i := iEnd - 1;
      j := RowOrigin(grid, i, n, o);
    }
  }

  /** A record is in the pair scan exactly when some pair i < j of the list reports it. */
  lemma ScanExact(symbol: string, names: seq<string>, prices: map<string, EnhancedQuote>,
                  minProfit: real, o: Opportunity)
    requires Priced(names, prices)
    ensures o in ScanOpportunities(symbol, names, prices, |names|, minProfit)
        <==> exists i: nat, j: nat :: i < j < |names| && PairReports(symbol, names, prices, minProfit, i, j, o)
  {
    var grid := PairGrid(symbol, names, prices, minProfit);
    if o in ScanOpportunities(symbol, names, prices, |names|, minProfit) {
      var i, j := ScanOrigin(grid, |names|, |names|, o);
      PairContents(symbol, names[i], names[j], prices[names[i]], prices[names[j]], minProfit);
      assert PairReports(symbol, names, prices, minProfit, i, j, o);
    }
    if exists i: nat, j: nat :: i < j < |names| && PairReports(symbol, names, prices, minProfit, i, j, o) {
      var i: nat, j: nat :| i < j < |names| && PairReports(symbol, names, prices, minProfit, i, j, o);
      PairContents(symbol, names[i], names[j], prices[names[i]], prices[names[j]], minProfit);
      ScanComplete(grid, |names|, |names|, i, j);
    }
  }

  /** Every record of `part` appears in `whole`. */
  predicate Covers(part: seq<Opportunity>, whole: seq<Opportunity>) {
    forall o :: o in part ==> o in whole
  }

  lemma CoversConcat(part: seq<Opportunity>, left: seq<Opportunity>, right: seq<Opportunity>)
    requires Covers(part, left) || Covers(part, right)
    ensures Covers(part, left + right)
  {
  }

  /** Row i up to jEnd holds the records of its cell (i, j). */
  lemma {:induction false} RowComplete(grid: Grid, i: nat, jEnd: nat, j: nat)
    requires i < j < jEnd
    ensures Covers(grid(i, j), GridRow(grid, i, jEnd))
    decreases jEnd
  {
    if j < jEnd - 1 {
      RowComplete(grid, i, jEnd - 1, j);
    }
    CoversConcat(grid(i, j), GridRow(grid, i, jEnd - 1), grid(i, jEnd - 1));
  }

  /** Every cell i < j is visited: whatever it holds is in the rows up to iEnd. */
  lemma {:induction false} ScanComplete(grid: Grid, n: nat, iEnd: nat, i: nat, j: nat)
    requires i < iEnd <= n && i < j < n
    ensures Covers(grid(i, j), GridRows(grid, n, iEnd))
    decreases iEnd
  {
    if i < iEnd - 1 {
      ScanComplete(grid, n, iEnd - 1, i, j);
    } else {
      RowComplete(grid, i, n, j);
    }
    CoversConcat(grid(i, j), GridRows(grid, n, iEnd - 1), GridRow(grid, iEnd - 1, n));
  }

  /**
   * The spatial check for one symbol: nothing with fewer than two tradeable exchanges, and
   * otherwise exactly the records some pair i < j of the tradeable exchanges reports; every
   * record names two different tradeable exchanges, the buy side's ask and the sell side's
   * bid, and a profit above the threshold.
   */
  lemma SpatialResult(store: Store, gate: Gate, symbol: string, exchanges: seq<string>, minProfit: real)
    requires StoreValid(store)
    ensures var names := TradeableExchanges(store, gate, symbol, exchanges);
      var prices := ExchangePrices(store, gate, symbol, names);
      var opps := SpatialSpec(store, gate, symbol, exchanges, minProfit);
      && Priced(names, prices)
      && (|names| < 2 ==> opps == [])
      && (|names| >= 2 ==> forall o :: o in opps <==>
            exists i: nat, j: nat :: i < j < |names| && PairReports(symbol, names, prices, minProfit, i, j, o))
      && (forall o :: o in opps ==> SpatialRecordOk(o, symbol, names, prices, minProfit))
  {
    var names := TradeableExchanges(store, gate, symbol, exchanges);
    var prices := ExchangePrices(store, gate, symbol, names);
    ExchangePricesPriced(store, gate, symbol, exchanges);
    if |names| >= 2 {
      var opps := ScanOpportunities(symbol, names, prices, |names|, minProfit);
      assert SpatialSpec(store, gate, symbol, exchanges, minProfit) == opps;
      forall o | o in opps
        ensures SpatialRecordOk(o, symbol, names, prices, minProfit)
      {
        ScanExact(symbol, names, prices, minProfit, o);
        var i: nat, j: nat :| i < j < |names| && PairReports(symbol, names, prices, minProfit, i, j, o);
        assert names[i] != names[j];
      }
      forall o ensures o in opps <==>
        exists i: nat, j: nat :: i < j < |names| && PairReports(symbol, names, prices, minProfit, i, j, o)
      {
        ScanExact(symbol, names, prices, minProfit, o);
      }
    }
  }

  /**
   * Every trade between two different tradeable exchanges that beats the threshold is reported,
   * at the buy side's ask and the sell side's bid: with its own profit when the buy side comes
   * first in the list, and otherwise, under a non-negative threshold, as the reverse record of
   * the pair, whose reported profit is at least the trade's own.
   */
  lemma SpatialComplete(store: Store, gate: Gate, symbol: string, exchanges: seq<string>,
                        minProfit: real, i: nat, j: nat)
    requires StoreValid(store)
    requires i != j
    requires i < |TradeableExchanges(store, gate, symbol, exchanges)|
    requires j < |TradeableExchanges(store, gate, symbol, exchanges)|
    ensures var names := TradeableExchanges(store, gate, symbol, exchanges);
      var prices := ExchangePrices(store, gate, symbol, names);
      var qi, qj := prices[names[i]], prices[names[j]];
      ProfitPct(qi.ask, qj.bid) > minProfit && (i < j || minProfit >= 0.0) ==>
        var reported := if i < j then ProfitPct(qi.ask, qj.bid) else ProfitPct(qi.bid, qj.ask);
        && reported >= ProfitPct(qi.ask, qj.bid)
        && Spatial(symbol, names[i], names[j], qi.ask, qj.bid, reported)
           in SpatialSpec(store, gate, symbol, exchanges, minProfit)
  {
    var names := TradeableExchanges(store, gate, symbol, exchanges);
    var prices := ExchangePrices(store, gate, symbol, names);
    ExchangePricesPriced(store, gate, symbol, exchanges);
    var qi, qj := prices[names[i]], prices[names[j]];
    if ProfitPct(qi.ask, qj.bid) > minProfit && (i < j || minProfit >= 0.0) {
      var reported := if i < j then ProfitPct(qi.ask, qj.bid) else ProfitPct(qi.bid, qj.ask);
      var o := Spatial(symbol, names[i], names[j], qi.ask, qj.bid, reported);
      assert SpatialSpec(store, gate, symbol, exchanges, minProfit)
          == ScanOpportunities(symbol, names, prices, |names|, minProfit);
      if i < j {
        assert PairReports(symbol, names, prices, minProfit, i, j, o);
      } else {
        ReverseProfitInflated(qj, qi);
        assert PairReports(symbol, names, prices, minProfit, j, i, o);
      }
      ScanExact(symbol, names, prices, minProfit, o);
    }
  }

  // ---------------------------------------------------------------------------------------
  // Triangle patterns
  // ---------------------------------------------------------------------------------------

  const LtcTriangle: Triangle := Triangle("BTC/USDT", "LTC/BTC", "LTC/USDT")
  const AdaTriangle: Triangle := Triangle("BTC/USDT", "ADA/BTC", "ADA/USDT")
  const EthBaseTriangle: Triangle := Triangle("ETH/USDT", "BTC/ETH", "BTC/USDT")

  /** The triangles the pattern builder knows, in the order it considers them. */
  const PatternCandidates: seq<Triangle> := [PrimaryTriangle, LtcTriangle, AdaTriangle, EthBaseTriangle]

  /** The position of a known triangle in PatternCandidates. */
  function CandidateRank(t: Triangle): nat {
    if t == PrimaryTriangle then 0
    else if t == LtcTriangle then 1
    else if t == AdaTriangle then 2
    else 3
  }

  predicate AllListed(symbols: seq<string>, t: Triangle) {
    t.baseQuote in symbols && t.altBase in symbols && t.altQuote in symbols
  }

  /**
   * add_more_triangular_patterns: the primary triangle unconditionally, then each further
   * known triangle whose three pairs are all listed, in the fixed candidate order.
   */
  function MoreTriangularPatterns(symbols: seq<string>): (r: seq<Triangle>)
    ensures 1 <= |r| <= |PatternCandidates|
    ensures r[0] == PrimaryTriangle
    ensures forall t :: t in r <==>
      t == PrimaryTriangle || (t in PatternCandidates[1..] && AllListed(symbols, t))
    ensures forall i, j :: 0 <= i < j < |r| ==> CandidateRank(r[i]) < CandidateRank(r[j])
  {
    var withLtc := AppendIfListed([PrimaryTriangle], symbols, LtcTriangle);
    var withAda := AppendIfListed(withLtc, symbols, AdaTriangle);
    AppendIfListed(withAda, symbols, EthBaseTriangle)
  }

  /** One `if all(...): triangles.append(t)` step of the pattern builder. */
  function AppendIfListed(triangles: seq<Triangle>, symbols: seq<string>, t: Triangle): (r: seq<Triangle>)
    ensures forall u :: u in r <==> u in triangles || (u == t && AllListed(symbols, t))
    ensures |r| == if AllListed(symbols, t) then |triangles| + 1 else |triangles|
    ensures forall k :: 0 <= k < |triangles| ==> r[k] == triangles[k]
    ensures AllListed(symbols, t) ==> r[|triangles|] == t
  {
    if AllListed(symbols, t) then triangles + [t] else triangles
  }

  /** Listing every pair of every known triangle yields all four, in order. */
  lemma PatternsWhenAllListed(symbols: seq<string>)
    requires forall t :: t in PatternCandidates ==> AllListed(symbols, t)
    ensures MoreTriangularPatterns(symbols) == PatternCandidates
  {
    assert AllListed(symbols, LtcTriangle) && AllListed(symbols, AdaTriangle);
    assert AllListed(symbols, EthBaseTriangle);
  }

  // ---------------------------------------------------------------------------------------
  // The spatial check with the reverse trade's own profit
  // ---------------------------------------------------------------------------------------

  /**
   * The pair check as its records describe it: the reverse record's profit is the profit of
   * buying on y at ask(y) and selling on x at bid(x).
   */
  function IntendedPairOpportunities(symbol: string, x: string, y: string, qx: EnhancedQuote,
                                     qy: EnhancedQuote, minProfit: real): seq<Opportunity>
    requires Quoted(qx) && Quoted(qy)
  {
    var profit := ProfitPct(qx.ask, qy.bid);
    var reverseProfit := ProfitPct(qy.ask, qx.bid);
    (if profit > minProfit then [Spatial(symbol, x, y, qx.ask, qy.bid, profit)] else [])
    + (if reverseProfit > minProfit then [Spatial(symbol, y, x, qy.ask, qx.bid, reverseProfit)] else [])
  }

  /**
   * What one pair reports under the intended check: each direction exactly when its own trade
   * beats the threshold, forward first and nothing else, each record with its trade's profit.
   */
  lemma IntendedPairContents(symbol: string, x: string, y: string, qx: EnhancedQuote, qy: EnhancedQuote,
                             minProfit: real)
    requires Quoted(qx) && Quoted(qy)
    ensures var r := IntendedPairOpportunities(symbol, x, y, qx, qy, minProfit);
      var fwd := Spatial(symbol, x, y, qx.ask, qy.bid, ProfitPct(qx.ask, qy.bid));
      var rev := Spatial(symbol, y, x, qy.ask, qx.bid, ProfitPct(qy.ask, qx.bid));
      && (fwd in r <==> ProfitPct(qx.ask, qy.bid) > minProfit)
      && (rev in r <==> ProfitPct(qy.ask, qx.bid) > minProfit)
      && (forall o :: o in r ==> o == fwd || o == rev)
      && (|r| == 2 ==> r == [fwd, rev])
  {
  }

  /** With uncrossed quotes and a non-negative threshold the intended check fires at most once per pair. */
  lemma IntendedPairAtMostOne(symbol: string, x: string, y: string, qx: EnhancedQuote, qy: EnhancedQuote,
                              minProfit: real)
    requires Quoted(qx) && Quoted(qy)
    requires minProfit >= 0.0
    ensures |IntendedPairOpportunities(symbol, x, y, qx, qy, minProfit)| <= 1
  {
    ProfitSign(qx.ask, qy.bid);
    ProfitSign(qy.ask, qx.bid);
  }

  /** The grid of the intended pair records. */
  function IntendedGrid(symbol: string, names: seq<string>, prices: map<string, EnhancedQuote>,
                        minProfit: real): Grid
    requires Priced(names, prices)
  {
    (i: nat, j: nat) =>
      if i < |names| && j < |names|
      then IntendedPairOpportunities(symbol, names[i], names[j], prices[names[i]], prices[names[j]], minProfit)
      else []
  }

  /** The spatial check over the intended pair records. */
  function IntendedSpatialSpec(store: Store, gate: Gate, symbol: string, exchanges: seq<string>,
                               minProfit: real): seq<Opportunity>
    requires StoreValid(store)
  {
    var names := TradeableExchanges(store, gate, symbol, exchanges);
    var prices := ExchangePrices(store, gate, symbol, names);
    ExchangePricesPriced(store, gate, symbol, exchanges);
    if |names| < 2 then [] else GridRows(IntendedGrid(symbol, names, prices, minProfit), |names|, |names|)
  }

  /** Every intended record of a pair of distinct listed exchanges carries its own trade's profit. */
  lemma IntendedPairSound(symbol: string, names: seq<string>, prices: map<string, EnhancedQuote>,
                          i: nat, j: nat, minProfit: real, o: Opportunity)
    requires Priced(names, prices)
    requires i < j < |names|
    requires NoDuplicates(names)
    requires o in IntendedGrid(symbol, names, prices, minProfit)(i, j)
    ensures SpatialRecordOk(o, symbol, names, prices, minProfit)
    ensures o.profitPct == ProfitPct(o.buyPrice, o.sellPrice)
  {
    IntendedPairContents(symbol, names[i], names[j], prices[names[i]], prices[names[j]], minProfit);
    assert names[i] != names[j];
  }

  /**
   * The intended spatial check: nothing with fewer than two tradeable exchanges; every record is
   * a trade between two different tradeable exchanges at the buy side's ask and the sell side's
   * bid, carrying that trade's own profit, above the threshold; and every such trade is reported.
   */
  lemma IntendedSpatialResult(store: Store, gate: Gate, symbol: string, exchanges: seq<string>,
                              minProfit: real)
    requires StoreValid(store)
    ensures var names := TradeableExchanges(store, gate, symbol, exchanges);
      var prices := ExchangePrices(store, gate, symbol, names);
      var opps := IntendedSpatialSpec(store, gate, symbol, exchanges, minProfit);
      && (|names| < 2 ==> opps == [])
      && (forall o :: o in opps ==>
            SpatialRecordOk(o, symbol, names, prices, minProfit) && o.profitPct == ProfitPct(o.buyPrice, o.sellPrice))
      && (forall i, j :: 0 <= i < |names| && 0 <= j < |names| && i != j ==>
            var qi, qj := prices[names[i]], prices[names[j]];
            ProfitPct(qi.ask, qj.bid) > minProfit ==>
              Spatial(symbol, names[i], names[j], qi.ask, qj.bid, ProfitPct(qi.ask, qj.bid)) in opps)
  {
    var names := TradeableExchanges(store, gate, symbol, exchanges);
    var prices := ExchangePrices(store, gate, symbol, names);
    ExchangePricesPriced(store, gate, symbol, exchanges);
    if |names| >= 2 {
      var grid := IntendedGrid(symbol, names, prices, minProfit);
      var opps := GridRows(grid, |names|, |names|);
      assert IntendedSpatialSpec(store, gate, symbol, exchanges, minProfit) == opps;
      forall o | o in opps
        ensures SpatialRecordOk(o, symbol, names, prices, minProfit)
        ensures o.profitPct == ProfitPct(o.buyPrice, o.sellPrice)
      {
        var i, j := ScanOrigin(grid, |names|, |names|, o);
        IntendedPairSound(symbol, names, prices, i, j, minProfit, o);
      }
      forall i, j | 0 <= i < |names| && 0 <= j < |names| && i != j
        ensures var qi, qj := prices[names[i]], prices[names[j]];
          ProfitPct(qi.ask, qj.bid) > minProfit ==>
            Spatial(symbol, names[i], names[j], qi.ask, qj.bid, ProfitPct(qi.ask, qj.bid)) in opps
      {
        var lo, hi := if i < j then i else j, if i < j then j else i;
        ScanComplete(grid, |names|, |names|, lo, hi);
        IntendedPairContents(symbol, names[lo], names[hi], prices[names[lo]], prices[names[hi]], minProfit);
      }
    }
  }

  /**
   * A pair the detector misreports: X quotes 100/101 and Y quotes 99/100.  Buying on Y at 100
   * and selling on X at 100 gains nothing, yet the detector reports that reverse trade with
   * (101 - 99) / 99 * 100, about 2.02%; the intended check reports nothing.
   */
  lemma ReverseProfitMisreported()
    ensures var qx := EnhancedQuote(100.0, 101.0, 1.0, 1.0, 1.0, 0.0);
      var qy := EnhancedQuote(99.0, 100.0, 1.0, 1.0, 100.0 / 99.0, 0.0);
      && PairOpportunities("S", "X", "Y", qx, qy, 0.5)
         == [Spatial("S", "Y", "X", 100.0, 100.0, ProfitPct(99.0, 101.0))]
      && ProfitPct(99.0, 101.0) > 0.5
      && ProfitPct(100.0, 100.0) == 0.0
      && IntendedPairOpportunities("S", "X", "Y", qx, qy, 0.5) == []
  {
  }
}
