/**
 * The price store of src/data_manager.py: per (exchange, symbol) a buffer of at most 100
 * (timestamp, quote) entries, appended in arrival order with the oldest evicted first,
 * and the staleness gate that reads only the newest entry.
 */
module PriceStore {
  import opened Wrappers
  import opened PriceValidation

  /** The `maxlen` of every buffer. */
  const Capacity: nat := 100

  /** One stored observation: capture time and validated quote. */
  datatype Entry = Entry(ts: real, quote: EnhancedQuote)

  type Key = (string, string)

  /** A snapshot of the store: (exchange id, symbol) to its buffer, oldest entry first. */
  type Store = map<Key, seq<Entry>>

  /** The buffer of one key; a key never written to reads as an empty buffer. */
  function Buffer(store: Store, exchangeId: string, symbol: string): seq<Entry> {
    if (exchangeId, symbol) in store then store[(exchangeId, symbol)] else []
  }

  /** The newest entries of a stream, as many as a buffer of Capacity holds, oldest first. */
  function Newest(s: seq<Entry>): (r: seq<Entry>)
    ensures |r| == if |s| < Capacity then |s| else Capacity
    ensures forall k :: 0 <= k < |r| ==> r[k] == s[|s| - |r| + k]
  {
    if |s| <= Capacity then s else s[|s| - Capacity..]
  }

  /** Appending to a buffer with a maximum length (`deque.append` with `maxlen`). */
  function BoundedAppend(buf: seq<Entry>, e: Entry): (r: seq<Entry>)
    ensures |r| == if |buf| < Capacity then |buf| + 1 else Capacity
    ensures r[|r| - 1] == e
  {
    Newest(buf + [e])
  }

  /** A buffer with room grows by exactly the new entry. */
  lemma AppendWithRoom(buf: seq<Entry>, e: Entry)
    requires |buf| < Capacity
    ensures BoundedAppend(buf, e) == buf + [e]
  {
  }

  /** A full buffer drops exactly its oldest entry; the others keep their order. */
  lemma AppendWhenFull(buf: seq<Entry>, e: Entry)
    requires |buf| == Capacity
    ensures BoundedAppend(buf, e) == buf[1..] + [e]
  {
    assert (buf + [e])[1..] == buf[1..] + [e];
  }

  /** Appending a stream of entries, one at a time, in arrival order. */
  function AppendAll(buf: seq<Entry>, es: seq<Entry>): (r: seq<Entry>)
    decreases |es|
  {
    if es == [] then buf else AppendAll(BoundedAppend(buf, es[0]), es[1..])
  }

  /** Truncating before or after one more append makes no difference. */
  lemma NewestStep(s: seq<Entry>, e: Entry)
    ensures Newest(Newest(s) + [e]) == Newest(s + [e])
  {
    if |s| > Capacity {
      var t := s[|s| - Capacity..];
      assert (t + [e])[1..] == s[|s| + 1 - Capacity..] + [e];
      assert (s + [e])[|s| + 1 - Capacity..] == s[|s| + 1 - Capacity..] + [e];
    }
  }

  /**
   * FIFO eviction: whatever the stream, a buffer ends up holding exactly the newest
   * Capacity entries of everything appended to it, in arrival order.
   */
  lemma {:induction false} AppendAllKeepsNewest(s: seq<Entry>, es: seq<Entry>)
    ensures AppendAll(Newest(s), es) == Newest(s + es)
    decreases |es|
  {
    if es == [] {
      assert s + es == s;
    } else {
      var s', rest := s + [es[0]], es[1..];
      AppendAllHead(s, es);
      AppendAllKeepsNewest(s', rest);
      StreamSplit(s, es);
    }
  }

  lemma StreamSplit(s: seq<Entry>, es: seq<Entry>)
    requires es != []
    ensures (s + [es[0]]) + es[1..] == s + es
  {
    assert es == [es[0]] + es[1..];
  }

  /** One step of AppendAll on a truncated stream. */
  lemma AppendAllHead(s: seq<Entry>, es: seq<Entry>)
    requires es != []
    ensures AppendAll(Newest(s), es) == AppendAll(Newest(s + [es[0]]), es[1..])
  {
    NewestStep(s, es[0]);
  }

  /** A buffer within its bound, holding validated quotes only. */
  predicate BufferValid(buf: seq<Entry>) {
    && |buf| <= Capacity
    && forall i :: 0 <= i < |buf| ==> WellFormed(buf[i].quote)
  }

  /** The store invariant: every buffer is valid. */
  predicate StoreValid(store: Store) {
    forall k :: k in store ==> BufferValid(store[k])
  }

  /** Appending a validated quote to a valid buffer keeps it valid. */
  lemma BoundedAppendValid(buf: seq<Entry>, e: Entry)
    requires BufferValid(buf)
    requires WellFormed(e.quote)
    ensures BufferValid(BoundedAppend(buf, e))
  {
    var r := BoundedAppend(buf, e);
    var all := buf + [e];
    forall i | 0 <= i < |r| ensures WellFormed(r[i].quote) {
      var j := i + (|all| - |r|);
      assert r[i] == all[j];
      if j < |buf| {
        assert all[j] == buf[j];
      }
    }
  }

  /**
   * The store after `data_store[exchange_id][symbol].append(e)`: that key's buffer gets the
   * entry, every other buffer is untouched.
   */
  function StoreAppend(store: Store, exchangeId: string, symbol: string, e: Entry): (r: Store)
    ensures forall k :: k in r <==> k in store || k == (exchangeId, symbol)
    ensures Buffer(r, exchangeId, symbol) == BoundedAppend(Buffer(store, exchangeId, symbol), e)
    ensures forall k :: k in store && k != (exchangeId, symbol) ==> r[k] == store[k]
  {
    store[(exchangeId, symbol) := BoundedAppend(Buffer(store, exchangeId, symbol), e)]
  }

  /** Appending a validated quote to one key keeps the invariant. */
  lemma AppendKeepsValid(store: Store, exchangeId: string, symbol: string, e: Entry)
    requires StoreValid(store)
    requires WellFormed(e.quote)
    ensures StoreValid(StoreAppend(store, exchangeId, symbol, e))
  {
    var buf := Buffer(store, exchangeId, symbol);
    assert BufferValid(buf);
    BoundedAppendValid(buf, e);
    var updated := StoreAppend(store, exchangeId, symbol, e);
    forall k | k in updated ensures BufferValid(updated[k]) {
      if k != (exchangeId, symbol) {
        assert updated[k] == store[k];
      }
    }
  }

  /**
   * get_tradeable_price: only the newest entry of the key is consulted; it is returned
   * unless it is older than maxAge seconds at time `now`.  An entry exactly maxAge old is
   * still fresh.  The liquidity threshold `minVolumeUsd` is accepted but not enforced.
   */
  function LatestTradeable(store: Store, exchangeId: string, symbol: string, now: real,
                           maxAge: real, minVolumeUsd: real): (r: Option<EnhancedQuote>)
    ensures var buf := Buffer(store, exchangeId, symbol);
      && (r.Some? <==> |buf| > 0 && now - buf[|buf| - 1].ts <= maxAge)
      && (r.Some? ==> r.value == buf[|buf| - 1].quote)
  {
    var buf := Buffer(store, exchangeId, symbol);
    if |buf| == 0 then
      None
    else
      var newest := buf[|buf| - 1];
      var age := now - newest.ts;
      if age > maxAge then
        None
      else
        // The source computes the available liquidity here; its threshold check is disabled.
        var _ := LiquidityUsd(newest.quote.bid, newest.quote.bidVolume,
                              newest.quote.ask, newest.quote.askVolume);
        Some(newest.quote)
  }

  /** The liquidity threshold has no effect on the answer. */
  lemma TradeableIgnoresMinVolume(store: Store, exchangeId: string, symbol: string, now: real,
                                  maxAge: real, v1: real, v2: real)
    ensures LatestTradeable(store, exchangeId, symbol, now, maxAge, v1)
         == LatestTradeable(store, exchangeId, symbol, now, maxAge, v2)
  {
  }

  /** Two stores whose buffers for the key end in the same entry give the same answer. */
  lemma TradeableReadsOnlyNewest(s1: Store, s2: Store, exchangeId: string, symbol: string,
                                 now: real, maxAge: real, minVolumeUsd: real)
    requires |Buffer(s1, exchangeId, symbol)| > 0 && |Buffer(s2, exchangeId, symbol)| > 0
    requires var b1, b2 := Buffer(s1, exchangeId, symbol), Buffer(s2, exchangeId, symbol);
      b1[|b1| - 1] == b2[|b2| - 1]
    ensures LatestTradeable(s1, exchangeId, symbol, now, maxAge, minVolumeUsd)
         == LatestTradeable(s2, exchangeId, symbol, now, maxAge, minVolumeUsd)
  {
  }

  /** In a valid store every tradeable quote satisfies the validation invariant. */
  lemma TradeableIsWellFormed(store: Store, exchangeId: string, symbol: string, now: real,
                              maxAge: real, minVolumeUsd: real)
    requires StoreValid(store)
    requires LatestTradeable(store, exchangeId, symbol, now, maxAge, minVolumeUsd).Some?
    ensures WellFormed(LatestTradeable(store, exchangeId, symbol, now, maxAge, minVolumeUsd).value)
  {
    var buf := Buffer(store, exchangeId, symbol);
    assert (exchangeId, symbol) in store;
    assert BufferValid(buf);
    assert WellFormed(buf[|buf| - 1].quote);
  }

  /** The global `data_store`: one mutable object holding every buffer. */
  class DataStore {
    var buffers: Store

    ghost predicate Valid()
      reads this
    {
      StoreValid(buffers)
    }

    constructor ()
      ensures Valid()
      ensures buffers == map[]
    {
      buffers := map[];
    }

    /** `data_store[exchange_id][symbol].append((ts, quote))` for a validated quote. */
    method Append(exchangeId: string, symbol: string, ts: real, quote: EnhancedQuote)
      requires Valid()
      requires WellFormed(quote)
      modifies this
      ensures Valid()
      ensures buffers == StoreAppend(old(buffers), exchangeId, symbol, Entry(ts, quote))
    {
      AppendKeepsValid(buffers, exchangeId, symbol, Entry(ts, quote));
      buffers := StoreAppend(buffers, exchangeId, symbol, Entry(ts, quote));
    }

    /**
     * The ingestion step shared by the streaming and the polling loop: validate the raw
     * quote and append it, timestamped, only if it passed; a rejected quote changes nothing.
     */
    method Ingest(exchangeId: string, symbol: string, ts: real, raw: RawQuote,
                  curve: real -> real) returns (stored: bool)
      requires Valid()
      modifies this
      ensures Valid()
      ensures stored <==> Validate(raw, curve).Ok?
      ensures stored ==> buffers == StoreAppend(old(buffers), exchangeId, symbol,
                                                Entry(ts, Validate(raw, curve).value))
      ensures !stored ==> buffers == old(buffers)
    {
      var enhanced := Validate(raw, curve);
      stored := enhanced.Ok?;
      if stored {
        Append(exchangeId, symbol, ts, enhanced.value);
      }
    }
  }
}
