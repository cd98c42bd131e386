# Crypto arbitrage monitor: a verified model of its core

This project models the sequential core of a crypto-currency arbitrage monitor in Dafny. The monitor streams
or polls ticker quotes from several exchanges, validates each quote, stores the accepted ones in per-(exchange,
symbol) buffers, and detects two kinds of opportunity over the freshest stored quotes:

- **triangular**: a three-leg cycle USDT → BTC → ETH → USDT on one exchange;
- **spatial**: buying a symbol on one exchange and selling it on another.

Alongside those it models:

- the configuration validator and its accessors;
- the lifecycle of the exchange handle;
- the older fee-aware spatial check of `arbitrage.py`.

The model has one module per component:

- `PriceValidation` (price_validation.dfy): `validate_and_enhance_price_data`. A raw quote is a map from
  field name to `Null`, `Unparseable` or `Num(real)`. Six checks run in a fixed order and the first failure
  decides the `Rejection`. An accepted quote gains its spread in percent and a liquidity score clamped to
  [0, 100].
- `PriceStore` (price_store.dfy): the global `data_store` as the class `DataStore`. It is a map from (exchange,
  symbol) to a buffer of at most 100 `(timestamp, quote)` entries, with the oldest entry evicted first. It also
  models the freshness gate `get_tradeable_price`. The clock reading `now` is a parameter.
- `FeedRetry` (feed_retry.dfy): the attempt and back-off schedule of `monitor_exchange_with_retry`. Whether an
  attempt succeeds is a parameter; the sleeps are an output sequence.
- `ArbitrageDetector` (arbitrage_detector.dfy):
  - the triangular detector, over a snapshot of the store;
  - the spatial detector, over a snapshot of the store;
  - `add_more_triangular_patterns`;
  - the per-exchange symbol filter of the detection loop.

  Each detector is a method whose loops are proved equal to a specification function. The properties are proved
  about that function.
- `ConfigLoader` (config_loader.dfy): `validate_config` and its twin `Config._validate`, and the accessors.
  - The configuration is a JSON value. An object is its list of members in source order. As in a Python dict
    built by the JSON parser, a repeated key keeps its first position and its last value.
  - Python's `in`, indexing, `.get`, iteration and `set.update` have the outcomes Python gives them on each kind
    of value, including the exceptions they raise. `sys.exit(1)` is the verdict `Exit(reason)`.
  - The properties and methods of the `Config` class read the same keys as the module-level getters. They are
    modelled once, by those getters.
- `ExchangeLifecycle` (exchange_wrapper.dfy): the class `ExchangeWrapper`, with its fields `exchange` and
  `closed`.
  - The ccxt object is a `Handle` holding its capability table, whether it offers `set_sandbox_mode`, the keys
    of its `urls`, whether sandbox mode is on, whether its markets are loaded, and a close counter.
  - Creating the object, loading its markets and closing it are outside calls; their outcomes are parameters.
- `LegacyArbitrage` (legacy_arbitrage.dfy): `check_for_arbitrage`, over the `latest_prices` table it reads.
  The table is a value parameter, so the check cannot modify it. The source returns None in every case and only
  logs the scenario it finds (arbitrage.py:88-89 and 102-103). The model's result `Some(scenario)` stands for that
  log line, and `None` for returning without one.

The two spatial checks apply different policies:

- The detector reports a record whose reported profit exceeds the threshold strictly, without fees. It reports
  every qualifying trade whose buy side comes earlier in the list. Under a non-negative threshold it also reports
  every qualifying trade in the other direction, but with an inflated profit (see below).
- `check_for_arbitrage` subtracts both trades' fees and accepts a profit equal to the threshold. It stops at the
  first qualifying scenario.

`LegacyArbitrage.ThresholdPolicyDiffers` exhibits a quote pair on which the two checks disagree.

The triangular profit is ((1 / ask(BTC/USDT)) · ask(ETH/BTC) · bid(ETH/USDT) − 1) · 100, as computed at
src/arbitrage_detector.py:42-52. `ArbitrageDetector.TriangleProfitConsistentMarket` shows that when cross rates are
consistent, the reported profit depends on ask(ETH/BTC) alone. The second factor is ask(ETH/BTC), which is BTC per
ETH; the comment at line 45 calls it ETH per BTC, which it is not.

The spatial reverse direction (src/arbitrage_detector.py:110-121) is modelled as written:

- The profit is computed from the forward trade's prices: (ask(i) − bid(j)) / bid(j) · 100 (line 111).
- The record names buying on j at ask(j) and selling on i at bid(i) (lines 116-119).

`ArbitrageDetector.PairOpportunities` and the detector built on it follow the code. `ArbitrageDetector.SpatialResult`
characterises the output exactly. `ArbitrageDetector.SpatialComplete` shows two things under a non-negative threshold:

- every real trade that beats the threshold is reported;
- a reverse record's reported profit is at least the trade's own profit.

`ArbitrageDetector.ReverseProfitMisreported` exhibits a reverse record for a trade with no gain. The check that
uses the reverse trade's own profit is `ArbitrageDetector.IntendedPairOpportunities`, and its detector
specification is `ArbitrageDetector.IntendedSpatialSpec`. Both are listed under Findings.

## Model

| member | source | states |
|---|---|---|
| PriceValidation.Missing | src/data_manager.py:28-33 | the missing-field list holds exactly the required fields that are absent or None, in listed order |
| PriceValidation.VolumeScore | src/data_manager.py:70-72 | the liquidity score always lies in [0, 100] and equals 20 · curve(usd / 1000) whenever that value is already in range |
| PriceValidation.SpreadPct | src/data_manager.py:67 | for positive, uncrossed prices the spread in percent is non-negative, and zero exactly when ask equals bid |
| PriceValidation.Validate | src/data_manager.py:18-74 | a quote is rejected by the first of the six checks it fails, and passes exactly when all six pass; a missing-field rejection lists the missing fields; an accepted quote keeps the parsed bid, ask and volumes, carries its spread and score, and satisfies the stored-quote invariant |
| PriceValidation.RejectsIncomplete | src/data_manager.py:23-33 | an empty quote, or one with any required field absent or None, is rejected as empty or as missing fields |
| PriceValidation.RejectsCrossed | src/data_manager.py:43-45 | a complete quote with ask < bid is rejected as invalid prices, carrying both prices; it is never swapped |
| PriceValidation.AcceptsLocked | src/data_manager.py:43-74 | a quote with ask == bid > 0 and positive volumes is accepted, with zero spread |
| PriceValidation.VolumeScoreMonotone | src/data_manager.py:70-72 | more liquidity never lowers the score, for any non-decreasing curve |
| PriceStore.Newest | src/data_manager.py:15 | a buffer of capacity 100 holds the last min(n, 100) entries of a stream of n, in arrival order |
| PriceStore.BoundedAppend | src/data_manager.py:15 | appending grows a buffer with room by one and keeps a full one at 100; the new entry is last |
| PriceStore.AppendWithRoom | src/data_manager.py:15 | a buffer below capacity grows by exactly the new entry |
| PriceStore.AppendWhenFull | src/data_manager.py:15 | a full buffer drops exactly its oldest entry; the rest keep their order |
| PriceStore.AppendAllKeepsNewest | src/data_manager.py:15 | FIFO eviction: appending any stream one entry at a time leaves exactly its newest 100 entries, in order |
| PriceStore.BoundedAppendValid | src/data_manager.py:135-137 | appending a validated quote to a valid buffer keeps it within capacity and holding only validated quotes |
| PriceStore.StoreAppend | src/data_manager.py:137 | an append changes only the buffer of its own key; every other key and buffer is unchanged |
| PriceStore.AppendKeepsValid | src/data_manager.py:161-163 | appending a validated quote keeps every buffer of the store within capacity and validated |
| PriceStore.LatestTradeable | src/data_manager.py:77-100 | a quote is returned exactly when the buffer is non-empty and its newest entry is at most maxAge old (equal age is fresh), and it is the newest entry's quote |
| PriceStore.TradeableIgnoresMinVolume | src/data_manager.py:90-100 | the liquidity threshold has no effect on the answer |
| PriceStore.TradeableReadsOnlyNewest | src/data_manager.py:77-100 | two buffers ending in the same entry give the same answer, whatever precedes it |
| PriceStore.TradeableIsWellFormed | src/data_manager.py:77-100 | in a valid store every tradeable quote has bid > 0, ask ≥ bid, positive volumes and a score in [0, 100] |
| PriceStore.DataStore.constructor | src/data_manager.py:15 | the store starts with no buffers, and valid |
| PriceStore.DataStore.Append | src/data_manager.py:137 | the append changes the store exactly as StoreAppend says and keeps it valid |
| PriceStore.DataStore.Ingest | src/data_manager.py:131-137 | a raw quote is stored, timestamped, exactly when validation accepts it; a rejected quote leaves the store unchanged; the store stays valid |
| FeedRetry.Backoff | src/data_manager.py:180 | the wait after a failed attempt is min(300, 10 · 2^attempt) |
| FeedRetry.BackoffMonotone | src/data_manager.py:180 | waits never shrink from one failure to the next |
| FeedRetry.BackoffCapped | src/data_manager.py:180 | from the attempt with index 5 on, every wait is the 300-second cap |
| FeedRetry.Schedule | src/data_manager.py:180-184 | the schedule holds one wait per failed attempt, the k-th being Backoff(k) |
| FeedRetry.DefaultSchedule | src/data_manager.py:173-187 | with the default five attempts the sleeps are 10, 20, 40 and 80 seconds |
| FeedRetry.MonitorWithRetry | src/data_manager.py:173-187 | at most max_retries attempts; every attempt before the last failed; it succeeds exactly when its last attempt did, otherwise it used all attempts; the sleeps follow the schedule with none after the final failure; it always returns |
| ArbitrageDetector.SymbolsWithData | src/arbitrage_detector.py:160 | an exchange's symbols are the configured ones that have at least one stored entry on it, at most as many |
| ArbitrageDetector.PriceData | src/arbitrage_detector.py:20-29 | the price table holds exactly the listed symbols that are tradeable, each with its tradeable quote, all validated |
| ArbitrageDetector.CollectPriceData | src/arbitrage_detector.py:20-29 | the symbol loop builds exactly that price table |
| ArbitrageDetector.TriangleProfitSign | src/arbitrage_detector.py:42-54 | with a positive first ask the cycle's profit is positive exactly when ask(ETH/BTC) · bid(ETH/USDT) exceeds ask(BTC/USDT) |
| ArbitrageDetector.TriangleProfitConsistentMarket | src/arbitrage_detector.py:42-52 | when bid(ETH/USDT) equals ask(BTC/USDT) · ask(ETH/BTC), the reported profit is (ask(ETH/BTC)² − 1) · 100 |
| ArbitrageDetector.EvaluateOne | src/arbitrage_detector.py:39-65 | one triangle contributes its record exactly when all three legs are priced and the cycle's profit beats the threshold |
| ArbitrageDetector.EvaluateDetectorTriangles | src/arbitrage_detector.py:33-65 | the triangle loop returns the records of the detector's triangle list, in order |
| ArbitrageDetector.DetectTriangular | src/arbitrage_detector.py:14-67 | the detector returns exactly the triangular specification over the store snapshot |
| ArbitrageDetector.TriangularResult | src/arbitrage_detector.py:14-67 | at most one record per exchange; one exactly when all three legs are listed and tradeable and the profit strictly exceeds the threshold; it carries the exchange, the triangle and the three prices used; under a non-negative threshold the legs then gain |
| ArbitrageDetector.TradeableExchanges | src/arbitrage_detector.py:76-85 | the exchanges holding a price are exactly those listed with a tradeable quote, each once, at most as many as listed |
| ArbitrageDetector.DetectSpatial | src/arbitrage_detector.py:70-123 | the detector returns exactly the spatial specification over the store snapshot, built from the pair records as the code computes them |
| ArbitrageDetector.ScanPairs | src/arbitrage_detector.py:91-121 | the nested loop returns the records of every pair i < j, rows in order, each row in order of j |
| ArbitrageDetector.ScanRow | src/arbitrage_detector.py:93-121 | the inner loop returns the records of the pairs (i, j), j > i, in order |
| ArbitrageDetector.EvaluatePair | src/arbitrage_detector.py:94-121 | the loop body returns the forward record when (bid(y) − ask(x)) / ask(x) · 100 beats the threshold, then the reverse record at ask(y) and bid(x) when (ask(x) − bid(y)) / bid(y) · 100 does, each carrying that computed profit |
| ArbitrageDetector.ProfitSign | src/arbitrage_detector.py:97 | with a positive buy price the profit is positive exactly when the sell price is higher, and zero exactly when they are equal |
| ArbitrageDetector.PairAtMostOne | src/arbitrage_detector.py:97-112 | the forward and reverse profit come from the same two prices with opposite signs, so under a non-negative threshold one pair never reports both directions |
| ArbitrageDetector.PairContents | src/arbitrage_detector.py:94-121 | a pair reports the forward record exactly when its profit beats the threshold and the reverse record exactly when (ask(x) − bid(y)) / bid(y) · 100 does, forward first, nothing else; the reverse record names ask(y) and bid(x) |
| ArbitrageDetector.ReverseProfitInflated | src/arbitrage_detector.py:111-119 | when the trade a reverse record names gains, its reported profit is at least that trade's own profit |
| ArbitrageDetector.ScanOrigin | src/arbitrage_detector.py:92-93 | every record of the scan comes from one pair i < j |
| ArbitrageDetector.ScanComplete | src/arbitrage_detector.py:92-93 | every pair i < j is visited: all its records are in the scan |
| ArbitrageDetector.ScanExact | src/arbitrage_detector.py:91-121 | a record is in the scan exactly when some pair i < j reports it, as its forward trade or as its reverse record, with the profit beating the threshold |
| ArbitrageDetector.SpatialResult | src/arbitrage_detector.py:70-123 | nothing with fewer than two tradeable exchanges; otherwise exactly the records some pair i < j reports; every record is between two different tradeable exchanges, at the buy side's ask and the sell side's bid, with a profit above the threshold |
| ArbitrageDetector.SpatialComplete | src/arbitrage_detector.py:91-121 | every trade between two different tradeable exchanges that beats the threshold is reported at its prices: with its own profit when the buy side comes first, and otherwise, under a non-negative threshold, with a profit at least its own |
| ArbitrageDetector.MoreTriangularPatterns | src/arbitrage_detector.py:126-145 | the pattern list starts with the primary triangle, holds one to four triangles, holds each further known triangle exactly when all three of its pairs are listed, and keeps the fixed candidate order |
| ArbitrageDetector.AppendIfListed | src/arbitrage_detector.py:136-143 | one conditional step appends the triangle exactly when all three of its pairs are listed, keeping what was there |
| ArbitrageDetector.PatternsWhenAllListed | src/arbitrage_detector.py:126-145 | listing every pair of every known triangle yields all four triangles, in order |
| ArbitrageDetector.IntendedPairContents | src/arbitrage_detector.py:94-121 | with the reverse trade's own profit, a pair reports each direction exactly when its own trade beats the threshold, with that trade's profit, forward first, nothing else |
| ArbitrageDetector.IntendedPairAtMostOne | src/arbitrage_detector.py:97-112 | with uncrossed quotes and a non-negative threshold, the corrected check reports at most one direction per pair |
| ArbitrageDetector.IntendedPairSound | src/arbitrage_detector.py:94-121 | every corrected record of a pair of distinct listed exchanges is between two different exchanges, at the buy side's ask and the sell side's bid, carrying that trade's own profit above the threshold |
| ArbitrageDetector.IntendedSpatialResult | src/arbitrage_detector.py:70-123 | with the corrected reverse profit, nothing with fewer than two tradeable exchanges; every record carries its own trade's profit above the threshold; every trade between two different tradeable exchanges that beats the threshold is reported |
| ArbitrageDetector.ReverseProfitMisreported | src/arbitrage_detector.py:110-121 | on a concrete pair the code reports a reverse trade whose own profit is zero, with about 2.02%; the corrected check reports nothing |
| ConfigLoader.Lookup | src/config_loader.py:155-160 | a key's value is its last binding in the object, and absence means no member has that key |
| ConfigLoader.Keys | src/config_loader.py:209-211 | a dict's keys are exactly the bound keys, each once |
| ConfigLoader.Contains | src/config_loader.py:157 | `in` on a dict tests its keys; it raises TypeError exactly on a number, bool or None |
| ConfigLoader.Index | src/config_loader.py:163 | indexing by a string succeeds exactly on a dict holding the key, with its value; otherwise KeyError on a dict, TypeError elsewhere |
| ConfigLoader.CheckRequiredKeys | src/config_loader.py:155-160 | the required keys pass exactly when each is present; the first absent one decides the exit; a non-container document raises TypeError |
| ConfigLoader.CheckExchanges | src/config_loader.py:166-174 | the exchange loop passes exactly when every exchange holds a `symbols` list; otherwise it exits for a missing or non-list `symbols`, or raises TypeError |
| ConfigLoader.CheckVolumeKeys | src/config_loader.py:194-203 | the volume loop passes exactly when each volume key is present, numeric and positive; it never raises |
| ConfigLoader.ValidateConfig | src/config_loader.py:153-206 | only an object can be accepted, and the only exception that escapes is TypeError |
| ConfigLoader.ValidateConfigAccepts | src/config_loader.py:153-206 | the validator accepts exactly the well-formed documents: five keys, a dict of exchanges each with a `symbols` list, a numeric min profit of any sign, a bool testnet, a positive max age, and positive `triangular` and `spatial` volume floors |
| ConfigLoader.WellFormedAfterRequired | src/config_loader.py:163-203 | once the five keys are present, well-formedness is the conjunction of the remaining checks |
| ConfigLoader.AcceptedAfterRequired | src/config_loader.py:163-206 | once the five keys are present, acceptance is the conjunction of the remaining checks |
| ConfigLoader.ExchangesCheckIff | src/config_loader.py:166-174 | the exchange loop over the dict's keys accepts exactly when every bound exchange holds a `symbols` list |
| ConfigLoader.VolumeCheckIff | src/config_loader.py:194-203 | the volume loop accepts exactly when `triangular` and `spatial` are both positive numbers |
| ConfigLoader.FirstMissingKeyWins | src/config_loader.py:155-160 | the first absent required key, in listed order, decides the exit, whatever else is wrong |
| ConfigLoader.ScalarDocumentRaises | src/config_loader.py:157 | a document that is a number, a bool or null makes the first key test raise TypeError |
| ConfigLoader.ValidateLoaded | src/config_loader.py:29-32 | an empty or null document raises ValueError |
| ConfigLoader.ValidatorsAgree | src/config_loader.py:29-84 | `Config._validate` and `validate_config` accept exactly the same documents |
| ConfigLoader.GetExchangeIds | src/config_loader.py:209-211 | the ids are exactly the keys of `exchanges`, each once; a missing key raises KeyError and a non-dict value AttributeError |
| ConfigLoader.ExchangeSetting | src/config_loader.py:222-229 | an unknown exchange gives the default; a known one gives its setting if present, else the default |
| ConfigLoader.ExchangeAccessorsOnValid | src/config_loader.py:222-229 | on a validated document a listed exchange's symbols are its list and an unknown one's are None; the poll interval is the configured one, else 1.0, also for an unknown exchange |
| ConfigLoader.GettersOnValid | src/config_loader.py:232-254 | on a validated document every getter succeeds with a value of the validated kind |
| ConfigLoader.GettersRaiseOnMissing | src/config_loader.py:232-254 | the getters are partial: an absent key raises KeyError naming it |
| ConfigLoader.Iterated | src/config_loader.py:218-219 | iteration yields a list's items and fails with TypeError exactly on a number, bool or None |
| ConfigLoader.AddAll | src/config_loader.py:218-219 | `set.update` succeeds exactly when every element is hashable; it keeps the earlier elements, adds exactly the new elements' keys, introduces nothing else, and never holds two equal elements |
| ConfigLoader.Collect | src/config_loader.py:216-219 | the loop's set holds the earlier elements plus every listed symbol, only listed symbols, and no two equal elements |
| ConfigLoader.AllSymbols | src/config_loader.py:214-219 | a missing `exchanges` raises KeyError; success requires `exchanges` to be a dict |
| ConfigLoader.AllSymbolsExact | src/config_loader.py:214-219 | every symbol any exchange lists appears exactly once, and nothing else appears |
| ConfigLoader.SetUpdate | src/config_loader.py:219 | the update loop computes AddAll and keeps the set of seen keys in step |
| ConfigLoader.GetAllSymbols | src/config_loader.py:214-219 | the exchange loop computes exactly AllSymbols |
| ExchangeLifecycle.HasFlag | src/exchange_wrapper.py:51-52 | a capability absent from the table reads as False, a present one as its value |
| ExchangeLifecycle.SupportOf | src/exchange_wrapper.py:46-54 | no exchange object means no support; otherwise the `watchTicker` and `watchOrderBook` flags |
| ExchangeLifecycle.BothSupported | src/exchange_wrapper.py:58-59 | Python's `and` of the two flags is truthy exactly when both are, and is one of them |
| ExchangeLifecycle.ExchangeWrapper.constructor | src/exchange_wrapper.py:10-15 | id, symbols and testnet as given, no exchange object, not closed |
| ExchangeLifecycle.ExchangeWrapper.Enter | src/exchange_wrapper.py:17-31 | unknown exchange: nothing changes; testnet without `set_sandbox_mode` or a 'test' URL: the error, the new object kept without sandbox; otherwise sandbox on when requested, markets loaded exactly when loading succeeds, and success exactly then |
| ExchangeLifecycle.ExchangeWrapper.Exit | src/exchange_wrapper.py:33-38 | an open object gets one more close call, and the flag is set exactly when close returns normally, else the error is returned with the flag clear; with no object or already closed nothing changes |
| ExchangeLifecycle.ExchangeWrapper.GetWebsocketSupport | src/exchange_wrapper.py:46-54 | False for both without an object; a truthy flag implies the capability is listed |
| ExchangeLifecycle.ExchangeWrapper.SupportsWebsocket | src/exchange_wrapper.py:56-59 | truthy exactly when both capabilities are; False without an object |
| ExchangeLifecycle.ExchangeWrapper.GetSymbols | src/exchange_wrapper.py:61-63 | the symbols given to the constructor |
| ExchangeLifecycle.ExchangeWrapper.GetExchangeId | src/exchange_wrapper.py:65-67 | the id given to the constructor |
| ExchangeLifecycle.ExitTwice | src/exchange_wrapper.py:33-38 | two exits on an open object call close once if the first close succeeds and twice if it raises; the object ends closed exactly when one of them succeeded |
| LegacyArbitrage.WithPrices | arbitrage.py:67 | the priced exchanges are exactly the configured ones with a truthy bid and ask, at most as many |
| LegacyArbitrage.CheckForArbitrage | arbitrage.py:62-105 | the check yields exactly the specified first qualifying scenario (the one the source logs), or none |
| LegacyArbitrage.ScanScenarios | arbitrage.py:73-105 | the early-returning nested loop returns exactly the first qualifying scenario of the scan |
| LegacyArbitrage.SearchFindsFirst | arbitrage.py:73-105 | the scan from a pair finds nothing exactly when no later pair qualifies, and otherwise reports the first qualifying pair's scenario in scan order, forward before reverse |
| LegacyArbitrage.CheckResult | arbitrage.py:62-105 | nothing with fewer than two priced exchanges; nothing exactly when no direction of any pair reaches the threshold after fees; otherwise the first qualifying scenario, at the buy side's ask and the sell side's bid, with the fee-adjusted profit at least the threshold |
| LegacyArbitrage.ThresholdPolicyDiffers | arbitrage.py:84-93 | a trade whose profit equals the threshold is reported here but not by the detector |

## Left out

- The asynchronous loops `monitor_websocket`, `poll_exchange_rest_api`, `monitor_exchange` and `detect_arbitrage`
  are network and asyncio plumbing. The model keeps the validate-and-append step they share (`DataStore.Ingest`),
  the symbol filter and the retry schedule.
- `watch_ticker`, `execute_trades`, `main` and `periodic_check` in arbitrage.py are left out for the same reason.
- Concurrency is left out: tasks sharing the store, and interleaved appends and reads. Every operation here runs
  on its own.
- The clock and sleeping (`time.time()`, `asyncio.sleep`) are not modelled: `now` is a parameter and the sleeps
  are an output.
- Parsing with `float()` is summarised as `Num` or `Unparseable`. NaN, infinities and binary floating point are
  not modelled; prices are reals.
- PriceValidation.VolumeScore: the curve x^0.3 is a parameter. Only the clamp to [0, 100] and monotonicity are
  proved, not the curve's values.
- Reading a missing key of the nested `defaultdict` inserts an empty buffer. Callers cannot observe this, so a
  missing key reads as an empty buffer and is not inserted.
- `get_price_data` is a one-line compatibility wrapper around `get_tradeable_price`, with the spatial volume
  floor. It is covered by `LatestTradeable`.
- Loading the JSONC file (`load_config`, `Config.load`) and the `Config` singleton mechanics are file input and
  object plumbing. The model starts from the parsed document.
- All logging is left out, including the error categorisation by message text in the retry loop, which only
  chooses a log line.
- `ExchangeWrapper.__del__` is left out: it runs at nondeterministic finalisation and only logs.
- Calls into ccxt (`load_markets`, `close`, `set_sandbox_mode`, the watch and fetch calls) are foreign code.
  The handle records their effects as flags and a counter of close calls. Whether creation, `load_markets` and
  `close` succeed are parameters.
- ConfigLoader.GetAllSymbols: the order of the returned list follows a Python set, which is unspecified. The
  model keeps insertion order, and only membership and distinctness are claimed.
- The opportunity records' `details` strings and the formatted `path` string are not modelled. A triangular
  record carries the triangle and its three prices instead.

## Findings

| source | as written | input that shows it | evidently intended | confidence | as-written member | corrected member |
|---|---|---|---|---|---|---|
| src/arbitrage_detector.py:110-121 | the reverse profit is (ask(i) − bid(j)) / bid(j) · 100, computed from the forward trade's prices, while the record names ask(j) as its buy price and bid(i) as its sell price | X quotes bid 100 / ask 101, Y quotes bid 99 / ask 100, threshold 0.5: the reverse trade, buy on Y at 100 and sell on X at 100, is reported with a profit of about 2.02%, yet its own profit is 0 | the reverse profit is (bid(i) − ask(j)) / ask(j) · 100, the profit of the trade the record names | high, not executed | ArbitrageDetector.ReverseProfitMisreported | ArbitrageDetector.IntendedSpatialResult |
