/**
 * The exchange handle lifecycle of src/exchange_wrapper.py.
 *
 * The ccxt exchange object is modelled by what the wrapper observes of it: its `has`
 * capability table, whether it offers `set_sandbox_mode`, the keys of its `urls` table,
 * whether sandbox mode was switched on, whether its markets were loaded, and how many
 * times close was called on it.  Creating it, loading its markets and closing it are network
 * or library calls; their outcomes are parameters.
 */
module ExchangeLifecycle {
  import opened Wrappers

  /** A value of the `has` table: ccxt uses True, False, 'emulated' and None. */
  datatype Flag = FTrue | FFalse | FEmulated | FNone

  predicate Truthy(f: Flag) {
    f == FTrue || f == FEmulated
  }

  /** What a freshly created exchange object offers. */
  datatype Capabilities = Capabilities(has: map<string, Flag>, hasSetSandboxMode: bool, urls: set<string>)

  /** The exchange object as the wrapper sees it over time. */
  datatype Handle = Handle(caps: Capabilities, sandbox: bool, marketsLoaded: bool, closeCount: nat)

  /** Why entering the context failed. */
  datatype EnterError =
    | UnknownExchange      // `getattr(ccxt, exchange_id)` found no such class
    | SandboxUnsupported   // testnet requested but not offered (the ValueError)
    | LoadMarketsFailed    // `load_markets` raised

  /** Why leaving the context failed: `close` raised. */
  datatype CloseError = CloseFailed

  /** The answer of get_websocket_support. */
  datatype WebsocketSupport = WebsocketSupport(ticker: Flag, orderbook: Flag)

  /** `has.get(name, False)`. */
  function HasFlag(has: map<string, Flag>, name: string): (f: Flag)
    ensures name !in has ==> f == FFalse
    ensures name in has ==> f == has[name]
  {
    if name in has then has[name] else FFalse
  }

  /** The support table of an optional exchange object; nothing is supported without one. */
  function SupportOf(exchange: Option<Handle>): (s: WebsocketSupport)
    ensures exchange.None? ==> s == WebsocketSupport(FFalse, FFalse)
    ensures exchange.Some? ==>
      && s.ticker == HasFlag(exchange.value.caps.has, "watchTicker")
      && s.orderbook == HasFlag(exchange.value.caps.has, "watchOrderBook")
  {
    match exchange
    case None => WebsocketSupport(FFalse, FFalse)
    case Some(h) => WebsocketSupport(HasFlag(h.caps.has, "watchTicker"), HasFlag(h.caps.has, "watchOrderBook"))
  }

  /** Python's `ticker and orderbook`: the first falsy operand, else the second. */
  function BothSupported(s: WebsocketSupport): (f: Flag)
    ensures Truthy(f) <==> Truthy(s.ticker) && Truthy(s.orderbook)
    ensures f == s.ticker || f == s.orderbook
  {
    if !Truthy(s.ticker) then s.ticker else s.orderbook
  }

  /** Sandbox mode can be entered exactly when the object offers the switch and a 'test' URL. */
  predicate SandboxAvailable(caps: Capabilities) {
    caps.hasSetSandboxMode && "test" in caps.urls
  }

  class ExchangeWrapper {
    const exchangeId: string
    const symbols: seq<string>
    const useTestnet: bool
    var exchange: Option<Handle>
    var closed: bool

    /** The lifecycle invariant: the closed flag is only set once an object exists. */
    ghost predicate Valid()
      reads this
    {
      closed ==> exchange.Some?
    }

    /** `__init__`: the arguments as given, no exchange object, not closed. */
    constructor (exchangeId: string, symbols: seq<string>, useTestnet: bool)
      ensures Valid()
      ensures this.exchangeId == exchangeId && this.symbols == symbols && this.useTestnet == useTestnet
      ensures exchange.None? && !closed
    {
      this.exchangeId := exchangeId;
      this.symbols := symbols;
      this.useTestnet := useTestnet;
      exchange := None;
      closed := false;
    }

    /**
     * `__aenter__`.  `created` is the object `getattr(ccxt, exchange_id)()` yields (None when
     * there is no such exchange) and `loadOk` whether `load_markets` returns normally.  The
     * object is stored before the sandbox check, so a failed entry leaves it in place.
     */
    method Enter(created: Option<Capabilities>, loadOk: bool) returns (r: Result<(), EnterError>)
      requires Valid()
      modifies this
      ensures Valid()
      ensures created.None? ==> r == Err(UnknownExchange) && exchange == old(exchange) && closed == old(closed)
      ensures created.Some? ==> closed == old(closed) && exchange.Some? && exchange.value.caps == created.value
      ensures created.Some? && useTestnet && !SandboxAvailable(created.value) ==>
        r == Err(SandboxUnsupported) && exchange == Some(Handle(created.value, false, false, 0))
      ensures created.Some? && (!useTestnet || SandboxAvailable(created.value)) ==>
        && exchange == Some(Handle(created.value, useTestnet, loadOk, 0))
        && (r.Ok? <==> loadOk)
        && (r.Err? ==> r.error == LoadMarketsFailed)
    {
      if created.None? {
        return Err(UnknownExchange);
      }
      exchange := Some(Handle(created.value, false, false, 0));
      if useTestnet {
        if SandboxAvailable(created.value) {
          exchange := Some(exchange.value.(sandbox := true));
        } else {
          return Err(SandboxUnsupported);
        }
      }
      if !loadOk {
        return Err(LoadMarketsFailed);
      }
      exchange := Some(exchange.value.(marketsLoaded := true));
      r := Ok(());
    }

    /**
     * `__aexit__`: close the object if there is one and it is not closed yet.  `closeOk` is
     * whether `close` returns normally; the flag is set only then, and when `close` raises the
     * error propagates with the flag still clear.
     */
    method Exit(closeOk: bool) returns (r: Result<(), CloseError>)
      requires Valid()
      modifies this
      ensures Valid()
      ensures old(exchange).Some? && !old(closed) ==>
        && exchange == Some(old(exchange).value.(closeCount := old(exchange).value.closeCount + 1))
        && closed == closeOk
        && r == (if closeOk then Ok(()) else Err(CloseFailed))
      ensures old(exchange).None? || old(closed) ==>
        exchange == old(exchange) && closed == old(closed) && r == Ok(())
    {
      if exchange.Some? && !closed {
        exchange := Some(exchange.value.(closeCount := exchange.value.closeCount + 1));
        if !closeOk {
          return Err(CloseFailed);
        }
        closed := true;
      }
      r := Ok(());
    }

    /** get_websocket_support. */
    function GetWebsocketSupport(): (s: WebsocketSupport)
      reads this
      ensures exchange.None? ==> s == WebsocketSupport(FFalse, FFalse)
      ensures Truthy(s.ticker) ==> exchange.Some? && "watchTicker" in exchange.value.caps.has
      ensures Truthy(s.orderbook) ==> exchange.Some? && "watchOrderBook" in exchange.value.caps.has
    {
      SupportOf(exchange)
    }

    /** supports_websocket: truthy exactly when both WebSocket capabilities are. */
    function SupportsWebsocket(): (f: Flag)
      reads this
      ensures Truthy(f) <==> Truthy(GetWebsocketSupport().ticker) && Truthy(GetWebsocketSupport().orderbook)
      ensures exchange.None? ==> f == FFalse
    {
      BothSupported(GetWebsocketSupport())
    }

    function GetSymbols(): (r: seq<string>)
      ensures r == symbols
    {
      symbols
    }

    function GetExchangeId(): (r: string)
      ensures r == exchangeId
    {
      exchangeId
    }
  }

  /**
   * Two exits in a row on an open object: after a close that returns normally the second exit
   * does not call close again; after a close that raises, the second exit calls it once more.
   * The object ends closed exactly when one of the calls succeeded.
   */
  method ExitTwice(w: ExchangeWrapper, firstOk: bool, secondOk: bool)
    requires w.Valid() && w.exchange.Some? && !w.closed
    modifies w
    ensures w.Valid()
    ensures w.closed <==> firstOk || secondOk
    ensures w.exchange.Some?
    ensures w.exchange.value == old(w.exchange.value).(closeCount :=
      old(w.exchange.value.closeCount) + if firstOk then 1 else 2)
  {
    var first := w.Exit(firstOk);
    var second := w.Exit(secondOk);
  }
}
