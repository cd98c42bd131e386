/**
 * Configuration checks and accessors of src/config_loader.py over a parsed JSON document.
 *
 * The document is a JSON value.  An object is its list of (key, value) members in source
 * order; as for a Python dict built by the JSON parser, a repeated key keeps the position
 * of its first occurrence and the value of its last.  The Python operators the source
 * applies to these values (`in`, `[...]`, `.get`, iteration, set membership) are modelled
 * with the outcomes Python gives them on each kind of value, including the exceptions.
 */
module ConfigLoader {
  import opened Wrappers

  datatype Json =
    | JNull
    | JBool(b: bool)
    | JInt(i: int)
    | JFloat(f: real)
    | JStr(s: string)
    | JArray(items: seq<Json>)
    | JObject(fields: seq<(string, Json)>)

  /** The Python exceptions the checks and accessors can raise on a malformed document. */
  datatype PyError = KeyError(key: string) | TypeError | AttributeError | ValueError

  /** Why validation stopped the program (each a `sys.exit(1)` after its log line). */
  datatype Reason =
    | MissingKey(key: string)
    | ExchangesNotDict
    | MissingSymbols(exchange: string)
    | SymbolsNotList(exchange: string)
    | ProfitNotNumber
    | TestnetNotBool
    | MaxAgeNotPositive
    | VolumeNotDict
    | MissingVolumeKey(volumeKey: string)
    | VolumeNotPositive(volumeKey: string)

  /** The outcome of a validation: accepted, stopped by `sys.exit`, or an exception escaped. */
  datatype Verdict = Accepted | Exit(reason: Reason) | Raised(error: PyError)

  const RequiredKeys: seq<string> :=
    ["exchanges", "min_profit_percentage", "testnet", "max_age_seconds", "min_volume_usd"]

  const VolumeKeys: seq<string> := ["triangular", "spatial"]

  /** The poll interval used when an exchange gives none. */
  const DefaultPollInterval: real := 1.0

  predicate Distinct<T(==)>(xs: seq<T>) {
    forall i, j :: 0 <= i < j < |xs| ==> xs[i] != xs[j]
  }

  // ---------------------------------------------------------------------------------------
  // Objects as Python dicts
  // ---------------------------------------------------------------------------------------

  /** The value bound to `key`: the last member with that key wins. */
  function Lookup(fields: seq<(string, Json)>, key: string): (r: Option<Json>)
    ensures r.None? ==> forall i :: 0 <= i < |fields| ==> fields[i].0 != key
    ensures r.Some? ==> exists i :: (0 <= i < |fields| && fields[i] == (key, r.value) &&
      forall j :: i < j < |fields| ==> fields[j].0 != key)
  {
    if fields == [] then None
    else if fields[|fields| - 1].0 == key then Some(fields[|fields| - 1].1)
    else Lookup(fields[..|fields| - 1], key)
  }

  /** The dict's keys in insertion order: each distinct key once, where it first occurs. */
  function Keys(fields: seq<(string, Json)>): (ks: seq<string>)
    ensures forall k :: k in ks <==> Lookup(fields, k).Some?
    ensures Distinct(ks)
  {
    if fields == [] then []
    else
      var ks := Keys(fields[..|fields| - 1]);
      var k := fields[|fields| - 1].0;
      if k in ks then ks else ks + [k]
  }

  /** The member `key` of an object; no member for anything that is not an object. */
  function Field(j: Json, key: string): Option<Json> {
    if j.JObject? then Lookup(j.fields, key) else None
  }

  function IsSubstring(needle: string, hay: string): bool {
    needle <= hay || (|hay| > 0 && IsSubstring(needle, hay[1..]))
  }

  /**
   * Python's `key in container`: a dict tests its keys, a list its elements, a string its
   * substrings; a number, a bool or None is not iterable.
   */
  function Contains(container: Json, key: string): (r: Result<bool, PyError>)
    ensures container.JObject? ==> r == Ok(Field(container, key).Some?)
    ensures r.Err? <==> !(container.JObject? || container.JArray? || container.JStr?)
    ensures r.Err? ==> r.error == TypeError
  {
    match container
    case JObject(fields) => Ok(Lookup(fields, key).Some?)
    case JArray(items) => Ok(JStr(key) in items)
    case JStr(s) => Ok(IsSubstring(key, s))
    case _ => Err(TypeError)
  }

  /** Python's `container[key]` with a string key: only a dict can be indexed by one. */
  function Index(container: Json, key: string): (r: Result<Json, PyError>)
    ensures r.Ok? <==> Field(container, key).Some?
    ensures r.Ok? ==> r.value == Field(container, key).value
    ensures r.Err? ==> r.error == (if container.JObject? then KeyError(key) else TypeError)
  {
    match container
    case JObject(fields) =>
      if Lookup(fields, key).Some? then Ok(Lookup(fields, key).value) else Err(KeyError(key))
    case _ => Err(TypeError)
  }

  /** `isinstance(x, (int, float))`: a bool is an int in Python. */
  predicate IsNumber(j: Json) {
    j.JInt? || j.JFloat? || j.JBool?
  }

  function NumValue(j: Json): real
    requires IsNumber(j)
  {
    match j
    case JInt(i) => i as real
    case JFloat(f) => f
    case JBool(b) => if b then 1.0 else 0.0
  }

  /** A present, numeric and strictly positive member. */
  predicate PositiveNumber(o: Option<Json>) {
    o.Some? && IsNumber(o.value) && NumValue(o.value) > 0.0
  }

  /** Python truthiness of a parsed value (`not data`). */
  predicate Truthy(j: Json) {
    match j
    case JNull => false
    case JBool(b) => b
    case JInt(i) => i != 0
    case JFloat(f) => f != 0.0
    case JStr(s) => s != ""
    case JArray(items) => items != []
    case JObject(fields) => fields != []
  }

  // ---------------------------------------------------------------------------------------
  // validate_config
  // ---------------------------------------------------------------------------------------

  /** `keys[i]` is the first key the `in` test reports absent. */
  predicate FirstAbsent(config: Json, keys: seq<string>, i: int) {
    && 0 <= i < |keys|
    && Contains(config, keys[i]) == Ok(false)
    && forall j :: 0 <= j < i ==> Contains(config, keys[j]) == Ok(true)
  }

  /** The required-key loop: the first key `in` reports absent decides; `in` itself may raise. */
  function CheckRequiredKeys(config: Json, keys: seq<string>): (v: Verdict)
    ensures v.Accepted? <==> forall i :: 0 <= i < |keys| ==> Contains(config, keys[i]) == Ok(true)
    ensures config.JObject? ==> (v.Accepted? <==> forall k :: k in keys ==> Field(config, k).Some?)
    ensures v.Raised? <==> keys != [] && Contains(config, keys[0]).Err?
    ensures v.Raised? ==> v.error == TypeError
    ensures v.Exit? ==> exists i :: FirstAbsent(config, keys, i) && v.reason == MissingKey(keys[i])
  {
    if keys == [] then Accepted
    else
      var present := Contains(config, keys[0]);
      if present.Err? then Raised(present.error)
      else if !present.value then Exit(MissingKey(keys[0]))
      else
        var rest := CheckRequiredKeys(config, keys[1..]);
        assert rest.Exit? ==> exists i :: FirstAbsent(config, keys, i) && rest.reason == MissingKey(keys[i]) by {
          if rest.Exit? {
            var i :| FirstAbsent(config, keys[1..], i) && rest.reason == MissingKey(keys[1..][i]);
            assert keys[i + 1] == keys[1..][i];
            forall j | 0 <= j < i + 1 ensures Contains(config, keys[j]) == Ok(true) {
              if j > 0 {
                assert keys[j] == keys[1..][j - 1];
              }
            }
            assert FirstAbsent(config, keys, i + 1);
          }
        }
        assert (forall i :: 0 <= i < |keys| ==> Contains(config, keys[i]) == Ok(true)) <==>
          (forall i :: 0 <= i < |keys[1..]| ==> Contains(config, keys[1..][i]) == Ok(true)) by {
          if forall i :: 0 <= i < |keys[1..]| ==> Contains(config, keys[1..][i]) == Ok(true) {
            forall i | 0 <= i < |keys| ensures Contains(config, keys[i]) == Ok(true) {
              if i > 0 {
                assert keys[i] == keys[1..][i - 1];
              }
            }
          }
        }
        rest
  }

  /** What an exchange entry must be for the per-exchange checks to pass. */
  predicate ExchangeEntryOk(entry: Json) {
    Field(entry, "symbols").Some? && Field(entry, "symbols").value.JArray?
  }

  /** The per-exchange loop, over the exchanges in dict order. */
  function CheckExchanges(fields: seq<(string, Json)>, ks: seq<string>): (v: Verdict)
    requires forall k :: k in ks ==> Lookup(fields, k).Some?
    ensures v.Accepted? <==> forall k :: k in ks ==> ExchangeEntryOk(Lookup(fields, k).value)
    ensures v.Raised? ==> v.error == TypeError
    ensures v.Exit? ==> v.reason.MissingSymbols? || v.reason.SymbolsNotList?
  {
    if ks == [] then Accepted
    else
      assert forall k :: k in ks <==> k == ks[0] || k in ks[1..];
      var entry := Lookup(fields, ks[0]).value;
      var present := Contains(entry, "symbols");
      assert ExchangeEntryOk(entry) <==>
        present == Ok(true) && Index(entry, "symbols").Ok? && Index(entry, "symbols").value.JArray?;
      if present.Err? then Raised(present.error)
      else if !present.value then Exit(MissingSymbols(ks[0]))
      else
        var symbols := Index(entry, "symbols");
        if symbols.Err? then assert !ExchangeEntryOk(entry) && ks[0] in ks; Raised(TypeError)
        else if !symbols.value.JArray? then assert !ExchangeEntryOk(entry) && ks[0] in ks; Exit(SymbolsNotList(ks[0]))
        else CheckExchanges(fields, ks[1..])
  }

  /** The min_volume_usd loop: each key present, numeric and positive, triangular first. */
  function CheckVolumeKeys(volumes: Json, keys: seq<string>): (v: Verdict)
    requires volumes.JObject?
    ensures v.Accepted? <==> forall k :: k in keys ==> PositiveNumber(Field(volumes, k))
    ensures !v.Raised?
  {
    if keys == [] then Accepted
    else
      assert forall k :: k in keys <==> k == keys[0] || k in keys[1..];
      var present := Contains(volumes, keys[0]);
      if !present.value then Exit(MissingVolumeKey(keys[0]))
      else
        var value := Index(volumes, keys[0]).value;
        if !IsNumber(value) || NumValue(value) <= 0.0 then Exit(VolumeNotPositive(keys[0]))
        else CheckVolumeKeys(volumes, keys[1..])
  }

  /** validate_config: the checks in source order; the first failure decides the verdict. */
  function ValidateConfig(config: Json): (v: Verdict)
    ensures v.Raised? ==> v.error == TypeError
    ensures v.Accepted? ==> config.JObject?
  {
    var required := CheckRequiredKeys(config, RequiredKeys);
    if !required.Accepted? then required
    else
      var exchanges := Index(config, "exchanges");
      if exchanges.Err? then Raised(TypeError)
      else if !exchanges.value.JObject? then Exit(ExchangesNotDict)
      else
        var perExchange := CheckExchanges(exchanges.value.fields, Keys(exchanges.value.fields));
        if !perExchange.Accepted? then perExchange
        else
          assert "min_profit_percentage" in RequiredKeys && "testnet" in RequiredKeys;
          assert "max_age_seconds" in RequiredKeys && "min_volume_usd" in RequiredKeys;
          var profit := Index(config, "min_profit_percentage").value;
          var testnet := Index(config, "testnet").value;
          var maxAge := Index(config, "max_age_seconds").value;
          var volumes := Index(config, "min_volume_usd").value;
          if !IsNumber(profit) then Exit(ProfitNotNumber)
          else if !testnet.JBool? then Exit(TestnetNotBool)
          else if !IsNumber(maxAge) || NumValue(maxAge) <= 0.0 then Exit(MaxAgeNotPositive)
          else if !volumes.JObject? then Exit(VolumeNotDict)
          else CheckVolumeKeys(volumes, VolumeKeys)
  }

  /**
   * The structure validation accepts, stated on its own: an object with the five keys, whose
   * exchanges are a dict of dicts each holding a `symbols` list, a numeric min profit of any
   * sign, a bool testnet flag, a positive max age and positive volume floors.
   */
  ghost predicate ConfigWellFormed(config: Json) {
    && config.JObject?
    && Field(config, "exchanges").Some?
    && Field(config, "exchanges").value.JObject?
    && (forall k :: Field(Field(config, "exchanges").value, k).Some? ==>
          ExchangeEntryOk(Field(Field(config, "exchanges").value, k).value))
    && Field(config, "min_profit_percentage").Some?
    && IsNumber(Field(config, "min_profit_percentage").value)
    && Field(config, "testnet").Some?
    && Field(config, "testnet").value.JBool?
    && PositiveNumber(Field(config, "max_age_seconds"))
    && Field(config, "min_volume_usd").Some?
    && Field(config, "min_volume_usd").value.JObject?
    && PositiveNumber(Field(Field(config, "min_volume_usd").value, "triangular"))
    && PositiveNumber(Field(Field(config, "min_volume_usd").value, "spatial"))
  }

  /** validate_config returns True exactly for the well-formed documents. */
  lemma ValidateConfigAccepts(config: Json)
    ensures ValidateConfig(config).Accepted? <==> ConfigWellFormed(config)
  {
    if config.JObject? {
      if CheckRequiredKeys(config, RequiredKeys).Accepted? {
        assert forall k :: k in RequiredKeys ==> Field(config, k).Some?;
        AcceptedAfterRequired(config);
        WellFormedAfterRequired(config);
      } else {
        assert !ValidateConfig(config).Accepted?;
        WellFormedHasRequired(config);
      }
    }
  }

  /** A well-formed document has every required key. */
  lemma WellFormedHasRequired(config: Json)
    ensures ConfigWellFormed(config) ==> forall k :: k in RequiredKeys ==> Field(config, k).Some?
  {
  }

  /** Once the five keys are present, well-formedness is the same conjunction of checks. */
  lemma WellFormedAfterRequired(config: Json)
    requires config.JObject?
    requires forall k :: k in RequiredKeys ==> Field(config, k).Some?
    ensures var exchanges := Field(config, "exchanges").value;
      var profit := Field(config, "min_profit_percentage").value;
      var maxAge := Field(config, "max_age_seconds").value;
      var volumes := Field(config, "min_volume_usd").value;
      ConfigWellFormed(config) <==>
        && exchanges.JObject?
        && CheckExchanges(exchanges.fields, Keys(exchanges.fields)).Accepted?
        && IsNumber(profit)
        && Field(config, "testnet").value.JBool?
        && IsNumber(maxAge) && NumValue(maxAge) > 0.0
        && volumes.JObject?
        && CheckVolumeKeys(volumes, VolumeKeys).Accepted?
  {
    assert "exchanges" in RequiredKeys && "min_profit_percentage" in RequiredKeys && "testnet" in RequiredKeys;
    assert "max_age_seconds" in RequiredKeys && "min_volume_usd" in RequiredKeys;
    var exchanges := Field(config, "exchanges").value;
    var volumes := Field(config, "min_volume_usd").value;
    if exchanges.JObject? {
      ExchangesCheckIff(exchanges);
    }
    if volumes.JObject? {
      VolumeCheckIff(volumes);
    }
  }

  /** Once the five keys are present, acceptance is the conjunction of the remaining checks. */
  lemma AcceptedAfterRequired(config: Json)
    requires config.JObject?
    requires forall k :: k in RequiredKeys ==> Field(config, k).Some?
    ensures var exchanges := Field(config, "exchanges").value;
      var profit := Field(config, "min_profit_percentage").value;
      var maxAge := Field(config, "max_age_seconds").value;
      var volumes := Field(config, "min_volume_usd").value;
      ValidateConfig(config).Accepted? <==>
        && exchanges.JObject?
        && CheckExchanges(exchanges.fields, Keys(exchanges.fields)).Accepted?
        && IsNumber(profit)
        && Field(config, "testnet").value.JBool?
        && IsNumber(maxAge) && NumValue(maxAge) > 0.0
        && volumes.JObject?
        && CheckVolumeKeys(volumes, VolumeKeys).Accepted?
  {
    assert "exchanges" in RequiredKeys && "min_profit_percentage" in RequiredKeys && "testnet" in RequiredKeys;
    assert "max_age_seconds" in RequiredKeys && "min_volume_usd" in RequiredKeys;
    assert CheckRequiredKeys(config, RequiredKeys).Accepted?;
    assert Index(config, "exchanges") == Ok(Field(config, "exchanges").value);
    assert Index(config, "min_profit_percentage") == Ok(Field(config, "min_profit_percentage").value);
    assert Index(config, "testnet") == Ok(Field(config, "testnet").value);
    assert Index(config, "max_age_seconds") == Ok(Field(config, "max_age_seconds").value);
    assert Index(config, "min_volume_usd") == Ok(Field(config, "min_volume_usd").value);
  }

  lemma ExchangesCheckIff(exchanges: Json)
    requires exchanges.JObject?
    ensures CheckExchanges(exchanges.fields, Keys(exchanges.fields)).Accepted? <==>
      forall k :: Field(exchanges, k).Some? ==> ExchangeEntryOk(Field(exchanges, k).value)
  {
    var ks := Keys(exchanges.fields);
    assert forall k :: k in ks <==> Field(exchanges, k).Some?;
    assert forall k :: k in ks ==> Field(exchanges, k) == Lookup(exchanges.fields, k);
  }

  lemma VolumeCheckIff(volumes: Json)
    requires volumes.JObject?
    ensures CheckVolumeKeys(volumes, VolumeKeys).Accepted? <==>
      PositiveNumber(Field(volumes, "triangular")) && PositiveNumber(Field(volumes, "spatial"))
  {
    assert forall k :: k in VolumeKeys <==> k == "triangular" || k == "spatial";
  }

  /**
   * The first absent required key, in the listed order, decides the exit, whatever else is
   * wrong with the document.
   */
  lemma FirstMissingKeyWins(config: Json, i: nat)
    requires config.JObject?
    requires i < |RequiredKeys|
    requires Field(config, RequiredKeys[i]).None?
    requires forall j :: 0 <= j < i ==> Field(config, RequiredKeys[j]).Some?
    ensures ValidateConfig(config) == Exit(MissingKey(RequiredKeys[i]))
  {
    var v := CheckRequiredKeys(config, RequiredKeys);
    assert Contains(config, RequiredKeys[i]) == Ok(false);
    var i' :| FirstAbsent(config, RequiredKeys, i') && v.reason == MissingKey(RequiredKeys[i']);
    assert i' == i;
  }

  /** A document that is a number, a bool or null makes the first `in` test raise TypeError. */
  lemma ScalarDocumentRaises(config: Json)
    requires config.JNull? || config.JBool? || config.JInt? || config.JFloat?
    ensures ValidateConfig(config) == Raised(TypeError)
  {
  }

  /** Config._validate: an empty or null document raises ValueError, otherwise the same checks. */
  function ValidateLoaded(data: Json): (v: Verdict)
    ensures !Truthy(data) ==> v == Raised(ValueError)
  {
    if !Truthy(data) then Raised(ValueError) else ValidateConfig(data)
  }

  /** The two validators accept exactly the same documents. */
  lemma ValidatorsAgree(data: Json)
    ensures ValidateLoaded(data).Accepted? <==> ValidateConfig(data).Accepted?
  {
    ValidateConfigAccepts(data);
    if !Truthy(data) && data.JObject? {
      assert Field(data, "exchanges").None?;
    }
  }

  // ---------------------------------------------------------------------------------------
  // Accessors
  // ---------------------------------------------------------------------------------------

  /** get_exchange_ids: the keys of `exchanges`, each once, in dict order. */
  function GetExchangeIds(config: Json): (r: Result<seq<string>, PyError>)
    ensures r.Ok? <==> Field(config, "exchanges").Some? && Field(config, "exchanges").value.JObject?
    ensures r.Ok? ==> Distinct(r.value)
    ensures r.Ok? ==> forall k :: k in r.value <==> Field(Field(config, "exchanges").value, k).Some?
    ensures config.JObject? && Field(config, "exchanges").None? ==> r == Err(KeyError("exchanges"))
    ensures Field(config, "exchanges").Some? && !Field(config, "exchanges").value.JObject? ==>
      r == Err(AttributeError)
  {
    var exchanges := Index(config, "exchanges");
    if exchanges.Err? then Err(exchanges.error)
    else if !exchanges.value.JObject? then Err(AttributeError)
    else Ok(Keys(exchanges.value.fields))
  }

  /** `config['exchanges'].get(exchange_id, {}).get(key, default)`. */
  function ExchangeSetting(config: Json, exchangeId: string, key: string, default: Json)
    : (r: Result<Json, PyError>)
    ensures var exchanges := Field(config, "exchanges");
      exchanges.Some? && exchanges.value.JObject? && Field(exchanges.value, exchangeId).None? ==>
        r == Ok(default)
    ensures var exchanges := Field(config, "exchanges");
      exchanges.Some? && exchanges.value.JObject? && Field(exchanges.value, exchangeId).Some? &&
      Field(exchanges.value, exchangeId).value.JObject? ==>
        r == Ok(if Field(Field(exchanges.value, exchangeId).value, key).Some?
                then Field(Field(exchanges.value, exchangeId).value, key).value else default)
    ensures r.Err? ==> r.error == KeyError("exchanges") || r.error == TypeError || r.error == AttributeError
  {
    var exchanges := Index(config, "exchanges");
    if exchanges.Err? then Err(exchanges.error)
    else if !exchanges.value.JObject? then Err(AttributeError)
    else
      var entry := if Field(exchanges.value, exchangeId).Some? then Field(exchanges.value, exchangeId).value
                   else JObject([]);
      if !entry.JObject? then Err(AttributeError)
      else Ok(if Field(entry, key).Some? then Field(entry, key).value else default)
  }

  /** get_exchange_symbols: the exchange's `symbols`, or None (null) when there is none. */
  function GetExchangeSymbols(config: Json, exchangeId: string): Result<Json, PyError> {
    ExchangeSetting(config, exchangeId, "symbols", JNull)
  }

  /** get_exchange_poll_interval: the exchange's `poll_interval_seconds`, else 1.0. */
  function GetExchangePollInterval(config: Json, exchangeId: string): Result<Json, PyError> {
    ExchangeSetting(config, exchangeId, "poll_interval_seconds", JFloat(DefaultPollInterval))
  }

  /**
   * On a validated document: a listed exchange gives its symbols list, an unknown one gives
   * None, and the poll interval is the configured one or 1.0 (also for an unknown exchange).
   */
  lemma ExchangeAccessorsOnValid(config: Json, exchangeId: string)
    requires ConfigWellFormed(config)
    ensures var exchanges := Field(config, "exchanges").value;
      && (Field(exchanges, exchangeId).Some? ==>
            GetExchangeSymbols(config, exchangeId)
              == Ok(Field(Field(exchanges, exchangeId).value, "symbols").value)
            && GetExchangeSymbols(config, exchangeId).value.JArray?)
      && (Field(exchanges, exchangeId).None? ==>
            GetExchangeSymbols(config, exchangeId) == Ok(JNull)
            && GetExchangePollInterval(config, exchangeId) == Ok(JFloat(1.0)))
      && (Field(exchanges, exchangeId).Some? &&
          Field(Field(exchanges, exchangeId).value, "poll_interval_seconds").None? ==>
            GetExchangePollInterval(config, exchangeId) == Ok(JFloat(1.0)))
  {
    var exchanges := Field(config, "exchanges").value;
    if Field(exchanges, exchangeId).Some? {
      assert ExchangeEntryOk(Field(exchanges, exchangeId).value);
    }
  }

  function GetMinProfitPercentage(config: Json): Result<Json, PyError> {
    Index(config, "min_profit_percentage")
  }

  function IsTestnetEnabled(config: Json): Result<Json, PyError> {
    Index(config, "testnet")
  }

  function GetMaxAgeSeconds(config: Json): Result<Json, PyError> {
    Index(config, "max_age_seconds")
  }

  function GetMinVolumeUsd(config: Json, volumeKey: string): Result<Json, PyError> {
    var volumes := Index(config, "min_volume_usd");
    if volumes.Err? then volumes else Index(volumes.value, volumeKey)
  }

  /** On a validated document every key getter succeeds with a value of the validated kind. */
  lemma GettersOnValid(config: Json)
    requires ConfigWellFormed(config)
    ensures GetMinProfitPercentage(config).Ok? && IsNumber(GetMinProfitPercentage(config).value)
    ensures IsTestnetEnabled(config).Ok? && IsTestnetEnabled(config).value.JBool?
    ensures GetMaxAgeSeconds(config).Ok? && PositiveNumber(Some(GetMaxAgeSeconds(config).value))
    ensures GetMinVolumeUsd(config, "triangular").Ok?
      && PositiveNumber(Some(GetMinVolumeUsd(config, "triangular").value))
    ensures GetMinVolumeUsd(config, "spatial").Ok?
      && PositiveNumber(Some(GetMinVolumeUsd(config, "spatial").value))
  {
  }

  /** The getters are partial: an object without the key raises KeyError naming it. */
  lemma GettersRaiseOnMissing(config: Json)
    requires config.JObject?
    ensures Field(config, "min_profit_percentage").None? ==>
      GetMinProfitPercentage(config) == Err(KeyError("min_profit_percentage"))
    ensures Field(config, "testnet").None? ==> IsTestnetEnabled(config) == Err(KeyError("testnet"))
    ensures Field(config, "max_age_seconds").None? ==>
      GetMaxAgeSeconds(config) == Err(KeyError("max_age_seconds"))
    ensures var volumes := Field(config, "min_volume_usd");
      volumes.Some? && volumes.value.JObject? && Field(volumes.value, "spatial").None? ==>
        GetMinVolumeUsd(config, "spatial") == Err(KeyError("spatial"))
  {
  }

  // ---------------------------------------------------------------------------------------
  // get_all_symbols: a Python set filled by `update`
  // ---------------------------------------------------------------------------------------

  /** What a Python set compares: 1, 1.0 and True are one element, strings by value. */
  datatype HashKey = HNone | HNum(n: real) | HStr(s: string)

  /** Lists and dicts cannot be set elements. */
  predicate Hashable(j: Json) {
    !j.JArray? && !j.JObject?
  }

  function HashOf(j: Json): HashKey
    requires Hashable(j)
  {
    match j
    case JNull => HNone
    case JBool(b) => HNum(if b then 1.0 else 0.0)
    case JInt(i) => HNum(i as real)
    case JFloat(f) => HNum(f)
    case JStr(s) => HStr(s)
  }

  predicate AllHashable(xs: seq<Json>) {
    forall x :: x in xs ==> Hashable(x)
  }

  function Hashes(xs: seq<Json>): set<HashKey> {
    set x | x in xs && Hashable(x) :: HashOf(x)
  }

  /** No two elements are equal as set elements. */
  predicate DistinctHashes(xs: seq<Json>) {
    forall i, j :: 0 <= i < j < |xs| && Hashable(xs[i]) && Hashable(xs[j]) ==> HashOf(xs[i]) != HashOf(xs[j])
  }

  /** What iterating a value yields: a list its items, a string its characters, a dict its keys. */
  function Iterated(j: Json): (r: Result<seq<Json>, PyError>)
    ensures r.Err? <==> !(j.JArray? || j.JStr? || j.JObject?)
    ensures j.JArray? ==> r == Ok(j.items)
  {
    match j
    case JArray(items) => Ok(items)
    case JStr(s) => Ok(seq(|s|, i requires 0 <= i < |s| => JStr([s[i]])))
    case JObject(fields) =>
      var ks := Keys(fields);
      Ok(seq(|ks|, i requires 0 <= i < |ks| => JStr(ks[i])))
    case _ => Err(TypeError)
  }

  /**
   * `set.update(xs)` on a set held as the list of its elements in insertion order: an element
   * already present (as a set element) is skipped, an unhashable one raises TypeError.
   */
  function AddAll(acc: seq<Json>, xs: seq<Json>): (r: Result<seq<Json>, PyError>)
    ensures r.Ok? <==> AllHashable(xs)
    ensures r.Err? ==> r.error == TypeError
    ensures r.Ok? ==> acc <= r.value
    ensures r.Ok? ==> Hashes(r.value) == Hashes(acc) + Hashes(xs)
    ensures r.Ok? ==> forall x :: x in r.value ==> x in acc || x in xs
    ensures r.Ok? && DistinctHashes(acc) && AllHashable(acc) ==> DistinctHashes(r.value)
    decreases |xs|
  {
    if xs == [] then Ok(acc)
    else if !Hashable(xs[0]) then Err(TypeError)
    else
      var next := if HashOf(xs[0]) in Hashes(acc) then acc else acc + [xs[0]];
      HashesAppend(acc, xs[0]);
      assert Hashes(next) == Hashes(acc) + {HashOf(xs[0])};
      assert DistinctHashes(acc) && AllHashable(acc) ==> DistinctHashes(next) && AllHashable(next) by {
        if DistinctHashes(acc) && AllHashable(acc) && HashOf(xs[0]) !in Hashes(acc) {
          DistinctAppend(acc, xs[0]);
        }
      }
      var r := AddAll(next, xs[1..]);
      assert forall x :: x in xs <==> x == xs[0] || x in xs[1..];
      assert Hashes(xs) == {HashOf(xs[0])} + Hashes(xs[1..]);
      r
  }

  lemma HashesAppend(acc: seq<Json>, x: Json)
    requires Hashable(x)
    ensures Hashes(acc + [x]) == Hashes(acc) + {HashOf(x)}
  {
    assert forall y :: y in acc + [x] <==> y in acc || y == x;
  }

  lemma DistinctAppend(acc: seq<Json>, x: Json)
    requires Hashable(x) && AllHashable(acc) && DistinctHashes(acc)
    requires HashOf(x) !in Hashes(acc)
    ensures DistinctHashes(acc + [x]) && AllHashable(acc + [x])
  {
    var s := acc + [x];
    forall i, j | 0 <= i < j < |s| ensures HashOf(s[i]) != HashOf(s[j]) {
      if j == |acc| {
        assert s[i] == acc[i] && acc[i] in acc;
      } else {
        assert s[i] == acc[i] && s[j] == acc[j];
      }
    }
  }

  /** One element of `update`: skipped when its key is present, appended otherwise. */
  lemma AddAllStep(acc: seq<Json>, xs: seq<Json>)
    requires xs != []
    ensures AddAll(acc, xs) ==
      if !Hashable(xs[0]) then Err(TypeError)
      else AddAll(if HashOf(xs[0]) in Hashes(acc) then acc else acc + [xs[0]], xs[1..])
  {
  }

  /** The symbols of one exchange entry as `update` sees them: `entry['symbols']`, iterated. */
  function EntrySymbols(entry: Json): Result<seq<Json>, PyError> {
    var symbols := Index(entry, "symbols");
    if symbols.Err? then Err(symbols.error) else Iterated(symbols.value)
  }

  /** Everything the exchanges listed in `ks` contribute, as set elements. */
  function ListedHashes(fields: seq<(string, Json)>, ks: seq<string>): set<HashKey>
    requires forall k :: k in ks ==> Lookup(fields, k).Some?
  {
    if ks == [] then {}
    else
      var items := EntrySymbols(Lookup(fields, ks[0]).value);
      (if items.Ok? then Hashes(items.value) else {}) + ListedHashes(fields, ks[1..])
  }

  /** The exchange `k` lists `x` among its symbols. */
  predicate ListedBy(fields: seq<(string, Json)>, k: string, x: Json) {
    Lookup(fields, k).Some? && EntrySymbols(Lookup(fields, k).value).Ok? &&
    x in EntrySymbols(Lookup(fields, k).value).value
  }

  /** The loop over the exchange entries, in dict order, from the set so far. */
  function Collect(fields: seq<(string, Json)>, ks: seq<string>, acc: seq<Json>): (r: Result<seq<Json>, PyError>)
    requires forall k :: k in ks ==> Lookup(fields, k).Some?
    ensures r.Ok? ==> Hashes(r.value) == Hashes(acc) + ListedHashes(fields, ks)
    ensures r.Ok? ==> forall x :: x in r.value ==> x in acc || exists k :: k in ks && ListedBy(fields, k, x)
    ensures r.Ok? && DistinctHashes(acc) && AllHashable(acc) ==> DistinctHashes(r.value) && AllHashable(r.value)
  {
    if ks == [] then Ok(acc)
    else
      var items := EntrySymbols(Lookup(fields, ks[0]).value);
      if items.Err? then Err(items.error)
      else
        var added := AddAll(acc, items.value);
        if added.Err? then Err(added.error)
        else
          var r := Collect(fields, ks[1..], added.value);
          assert r.Ok? ==> forall x :: x in r.value ==> x in acc || exists k :: k in ks && ListedBy(fields, k, x) by {
            if r.Ok? {
              forall x | x in r.value && x !in acc ensures exists k :: k in ks && ListedBy(fields, k, x) {
                if x in added.value {
                  assert ListedBy(fields, ks[0], x);
                } else {
                  var k :| k in ks[1..] && ListedBy(fields, k, x);
                }
              }
            }
          }
          r
  }

  /** The specification of get_all_symbols. */
  function AllSymbols(config: Json): (r: Result<seq<Json>, PyError>)
    ensures config.JObject? && Field(config, "exchanges").None? ==> r == Err(KeyError("exchanges"))
    ensures r.Ok? ==> Field(config, "exchanges").Some? && Field(config, "exchanges").value.JObject?
  {
    var exchanges := Index(config, "exchanges");
    if exchanges.Err? then Err(exchanges.error)
    else if !exchanges.value.JObject? then Err(AttributeError)
    else Collect(exchanges.value.fields, Keys(exchanges.value.fields), [])
  }

  /**
   * get_all_symbols yields every symbol listed by any exchange exactly once (as set elements)
   * and nothing that no exchange lists.
   */
  lemma AllSymbolsExact(config: Json)
    requires AllSymbols(config).Ok?
    ensures var r := AllSymbols(config).value;
      var fields := Field(config, "exchanges").value.fields;
      && AllHashable(r)
      && DistinctHashes(r)
      && Hashes(r) == ListedHashes(fields, Keys(fields))
      && forall x :: x in r ==> exists k :: Lookup(fields, k).Some? && ListedBy(fields, k, x)
  {
    var fields := Field(config, "exchanges").value.fields;
    var r := AllSymbols(config).value;
    assert Hashes([]) == {};
    forall x | x in r ensures exists k :: Lookup(fields, k).Some? && ListedBy(fields, k, x) {
      var k :| k in Keys(fields) && ListedBy(fields, k, x);
    }
  }

  /** `set.update(xs)` on the set held as `symbols` with its element keys `seen`. */
  method SetUpdate(symbols: seq<Json>, seen: set<HashKey>, xs: seq<Json>)
    returns (r: Result<seq<Json>, PyError>, seen': set<HashKey>)
    requires seen == Hashes(symbols)
    ensures r == AddAll(symbols, xs)
    ensures r.Ok? ==> seen' == Hashes(r.value)
  {
    var current := symbols;
    seen' := seen;
    for m := 0 to |xs|
      invariant AddAll(current, xs[m..]) == AddAll(symbols, xs)
      invariant seen' == Hashes(current)
    {
      assert xs[m..][1..] == xs[m + 1..];
      AddAllStep(current, xs[m..]);
      if !Hashable(xs[m]) {
        return Err(TypeError), seen';
      }
      if HashOf(xs[m]) !in seen' {
        HashesAppend(current, xs[m]);
        current := current + [xs[m]];
        seen' := seen' + {HashOf(xs[m])};
      }
    }
    assert xs[|xs|..] == [];
    r := Ok(current);
  }

  /** get_all_symbols: fill a set from every exchange's symbols list, in dict order. */
  method GetAllSymbols(config: Json) returns (r: Result<seq<Json>, PyError>)
    ensures r == AllSymbols(config)
  {
    var exchanges := Index(config, "exchanges");
    if exchanges.Err? {
      return Err(exchanges.error);
    }
    if !exchanges.value.JObject? {
      return Err(AttributeError);
    }
    var fields := exchanges.value.fields;
    var ks := Keys(fields);
    var symbols: seq<Json> := [];
    var seen: set<HashKey> := {};
    for i := 0 to |ks|
      invariant Collect(fields, ks[i..], symbols) == AllSymbols(config)
      invariant seen == Hashes(symbols)
    {
      assert ks[i..][1..] == ks[i + 1..];
      var items := EntrySymbols(Lookup(fields, ks[i]).value);
      if items.Err? {
        return Err(items.error);
      }
      var added;
      added, seen := SetUpdate(symbols, seen, items.value);
      if added.Err? {
        return Err(added.error);
      }
      symbols := added.value;
    }
    assert ks[|ks|..] == [];
    r := Ok(symbols);
  }
}
