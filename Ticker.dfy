/** The market-data session of src/main/Ticker.ts: at most one WebSocket
    handle, a `suspended` flag, the table of confirmed subscriptions keyed by
    `base/quote/interval`, and the 2-second reconnection after a close.
    Socket events (`open`, `close`, a message) are method calls; a socket is
    an id, and the sockets the ticker has created and not yet seen close are
    kept with their ready state, so that the `close` event of a socket that
    was terminated earlier can be delivered too. The wait of the retry is a
    pending step, `FireRetry`, instead of real time. */
module Ticker {
  import opened Wrappers
  import opened Text
  import Utils
  import Catalog
  import opened Kraken

  /** The table of confirmed subscriptions. */
  type Table = map<string, EventFields>

  /** Three slash-free pieces joined by `/` split back into those pieces. */
  lemma KeyPieces(base: string, quote: string, minutes: string)
    requires '/' !in base && '/' !in quote && '/' !in minutes
    ensures Split(base + "/" + quote + "/" + minutes, '/') == [base, quote, minutes]
  {
    assert base + "/" + quote + "/" + minutes == base + ['/'] + (quote + ['/'] + minutes);
    SplitAt(base, quote + ['/'] + minutes, '/');
    SplitAt(quote, minutes, '/');
    SplitWhole(minutes, '/');
  }

  /** The printed interval holds no slash. */
  lemma IntervalTextNoSlash(interval: int)
    ensures '/' !in IntToString(interval)
  {
    if interval < 0 {
      assert IntToString(interval) == "-" + NatToString(-interval);
    }
  }

  /** The key `subscribe`/`unsubscribe` look up: `${base}/${quote}/${interval}`
      of the parsed pair. It splits back into the canonical base, the quote
      and the printed interval. */
  function SubscriptionKey(pair: string, interval: int): (r: string)
    ensures var p := Utils.ParsePair(pair);
      Split(r, '/') == [p.base, Utils.SymbolText(p.quote), IntToString(interval)]
  {
    var p := Utils.ParsePair(pair);
    var quote := Utils.SymbolText(p.quote);
    var minutes := IntToString(interval);
    assert '/' !in Utils.UNDEFINED;
    IntervalTextNoSlash(interval);
    KeyPieces(p.base, quote, minutes);
    p.base + "/" + quote + "/" + minutes
  }

  /** `parseInt` reads the interval back from the third piece of the key. */
  lemma KeyInterval(pair: string, interval: int)
    ensures JsParseInt(Split(SubscriptionKey(pair, interval), '/')[2]) == Some(interval)
  {
    ParseIntToString(interval);
  }

  /** The key an acknowledgement is stored under:
      `${normalizePair(data.pair)}/${data.subscription.interval}`. It is the
      key a subscription of the acknowledged pair and interval looks up. */
  function AckKey(fields: EventFields): (r: string)
    ensures r == SubscriptionKey(fields.pair, fields.interval)
  {
    Utils.NormalizePair(fields.pair) + "/" + IntToString(fields.interval)
  }

  /** The effect of `subscriptionStatus` on the table: a `subscribed` ack
      stores the ack under its key, an `unsubscribed` ack deletes that key,
      and no other key is touched. */
  function AfterAck(table: Table, fields: EventFields): (r: Table)
    ensures fields.status == "subscribed" ==> AckKey(fields) in r && r[AckKey(fields)] == fields
    ensures fields.status == "unsubscribed" ==> AckKey(fields) !in r
    ensures forall k :: k != AckKey(fields) ==> (k in r <==> k in table) && (k in r ==> r[k] == table[k])
    ensures fields.status != "subscribed" && fields.status != "unsubscribed" ==> r == table
  {
    var key := AckKey(fields);
    var stored := if fields.status == "subscribed" then table[key := fields] else table;
    if fields.status == "unsubscribed" then stored - {key} else stored
  }

  /** The pair `subscribe` sends is read back from the key, whose third
      `/`-piece `parsePair` drops, and it is the normalised pair. */
  lemma SentPairOfKey(pair: string, interval: int)
    ensures Utils.NormalizePair(SubscriptionKey(pair, interval)) == Utils.NormalizePair(pair)
  {
    var p := Utils.ParsePair(pair);
    Utils.PiecesHaveNoSlash(pair);
    assert Utils.SymbolText(p.quote) != "XBT";
    Utils.ParsePairKeepsTwo(p.base, Utils.SymbolText(p.quote), IntToString(interval));
  }

  /** The key a `subscribed` ack is stored under is the key a later
      `subscribe` of any pair with the same normalised spelling looks up, so
      that `subscribe` sends nothing; after the `unsubscribed` ack it sends
      again. */
  lemma AckGuardsSubscribe(table: Table, fields: EventFields, pair: string)
    requires Utils.NormalizePair(fields.pair) == Utils.NormalizePair(pair)
    ensures AckKey(fields) == SubscriptionKey(pair, fields.interval)
    ensures fields.status == "subscribed" ==> SubscriptionKey(pair, fields.interval) in AfterAck(table, fields)
    ensures fields.status == "unsubscribed" ==> SubscriptionKey(pair, fields.interval) !in AfterAck(table, fields)
  {
    var p := Utils.ParsePair(pair);
    assert Utils.NormalizePair(pair) == p.base + "/" + Utils.SymbolText(p.quote);
  }

  /** An ack that Kraken spells `XBT/USD` guards a later `BTC/USD` subscribe. */
  lemma WireAliasAck(table: Table)
    ensures SubscriptionKey("BTC/USD", 1)
         in AfterAck(table, EventFields("subscriptionStatus", "subscribed", Some(42), "ohlc-1", "XBT/USD", 1))
  {
    Utils.BitcoinAliasRoundTrip();
    AckGuardsSubscribe(table, EventFields("subscriptionStatus", "subscribed", Some(42), "ohlc-1", "XBT/USD", 1), "BTC/USD");
  }

  class Ticker {
    var ws: Option<nat>
    var sockets: map<nat, SocketState>
    var nextSocket: nat
    var suspended: bool
    var subscription: Table
    var pendingRetries: nat
    /** `_assets` and `_coinMap`: unset (`None`) until `loadAssets`. */
    var assets: Option<seq<Catalog.Asset>>
    var coinMap: Option<Catalog.CoinMap>

    /** The handle names a socket that is not being torn down, and every
        socket id was handed out. */
    ghost predicate Sound()
      reads this
    {
      && (ws.Some? ==> ws.value in sockets && sockets[ws.value] != Closing)
      && (forall id :: id in sockets ==> id < nextSocket)
    }

    /** Besides, a suspended ticker holds no handle. */
    ghost predicate Valid()
      reads this
    {
      Sound() && (suspended ==> ws.None?)
    }

    /** Every socket that is not being torn down is the handle: there is no
        second live connection. */
    ghost predicate SingleLive()
      reads this
    {
      forall id :: id in sockets && sockets[id] != Closing ==> ws == Some(id)
    }

    /** `this.ws && this.ws.readyState === WebSocket.OPEN`. */
    predicate IsOpen()
      reads this
    {
      ws.Some? && ws.value in sockets && sockets[ws.value] == Open
    }

    constructor ()
      ensures Valid() && SingleLive()
      ensures ws.None? && sockets == map[] && nextSocket == 0 && !suspended && subscription == map[] && pendingRetries == 0
      ensures assets.None? && coinMap.None?
    {
      ws := None;
      sockets := map[];
      nextSocket := 0;
      suspended := false;
      subscription := map[];
      pendingRetries := 0;
      assets := None;
      coinMap := None;
    }

    /** `loadAssets`, given the `wsname` of every pair of the AssetPairs
        answer (an empty list when the request fails). */
    method LoadAssets(wsnames: seq<string>)
      modifies this`assets, this`coinMap
      ensures assets == Some(Catalog.AssetsOf(wsnames)) && coinMap.Some?
      ensures forall q :: q in coinMap.value <==> exists a :: a in assets.value && a.quote == q
      ensures forall q :: q in coinMap.value ==> Catalog.StrictlySorted(coinMap.value[q])
      ensures forall q, b :: q in coinMap.value ==> (b in coinMap.value[q] <==> Catalog.Asset(b, q) in assets.value)
    {
      var loaded := Catalog.AssetsOf(wsnames);
      assets := Some(loaded);
      var built := Catalog.BuildCoinMap(loaded);
      coinMap := Some(built);
    }

    /** `connect`: a socket is created only when there is no handle and the
        ticker is not suspended. */
    method Connect()
      requires Valid()
      modifies this`ws, this`sockets, this`nextSocket
      ensures Valid()
      ensures old(ws).None? && !suspended ==>
        ws == Some(old(nextSocket)) && sockets == old(sockets)[old(nextSocket) := Connecting]
        && nextSocket == old(nextSocket) + 1
      ensures old(ws).Some? || suspended ==>
        ws == old(ws) && sockets == old(sockets) && nextSocket == old(nextSocket)
      ensures old(SingleLive()) ==> SingleLive()
    {
      if ws.None? && !suspended {
        var id := nextSocket;
        sockets := sockets[id := Connecting];
        ws := Some(id);
        nextSocket := nextSocket + 1;
      }
    }

    /** `disconnect`: the handle's socket is terminated (its `close` event
        is still to come) and the handle is dropped. */
    method Disconnect()
      requires Sound()
      modifies this`ws, this`sockets
      ensures Sound() && ws.None?
      ensures old(ws).Some? ==> sockets == old(sockets)[old(ws).value := Closing]
      ensures old(ws).None? ==> sockets == old(sockets)
      ensures old(SingleLive()) ==> SingleLive()
    {
      if ws.Some? {
        sockets := sockets[ws.value := Closing];
        ws := None;
      }
    }

    /** `resume`: clear the flag, then connect. */
    method Resume()
      requires Valid()
      modifies this`suspended, this`ws, this`sockets, this`nextSocket
      ensures Valid() && !suspended && ws.Some?
      ensures old(ws).None? ==>
        ws == Some(old(nextSocket)) && sockets == old(sockets)[old(nextSocket) := Connecting]
        && nextSocket == old(nextSocket) + 1
      ensures old(ws).Some? ==> ws == old(ws) && sockets == old(sockets) && nextSocket == old(nextSocket)
      ensures old(SingleLive()) ==> SingleLive()
    {
      suspended := false;
      Connect();
    }

    /** `suspend`: set the flag, then disconnect. */
    method Suspend()
      requires Valid()
      modifies this`suspended, this`ws, this`sockets
      ensures Valid() && suspended && ws.None?
      ensures old(ws).Some? ==> sockets == old(sockets)[old(ws).value := Closing]
      ensures old(ws).None? ==> sockets == old(sockets)
      ensures old(SingleLive()) ==> SingleLive()
    {
      suspended := true;
      Disconnect();
    }

    /** `retryConnection` up to its wait: a retry is scheduled only when
        the ticker is not suspended. */
    method RetryConnection()
      modifies this`pendingRetries
      ensures pendingRetries == old(pendingRetries) + (if suspended then 0 else 1)
    {
      if !suspended {
        pendingRetries := pendingRetries + 1;
      }
    }

    /** The end of the 2-second wait of one scheduled retry: `connect`,
        which checks the flag again. */
    method FireRetry()
      requires Valid() && pendingRetries > 0
      modifies this`pendingRetries, this`ws, this`sockets, this`nextSocket
      ensures Valid() && pendingRetries == old(pendingRetries) - 1
      ensures old(ws).None? && !suspended ==>
        ws == Some(old(nextSocket)) && sockets == old(sockets)[old(nextSocket) := Connecting]
        && nextSocket == old(nextSocket) + 1
      ensures old(ws).Some? || suspended ==> ws == old(ws) && sockets == old(sockets)
      ensures old(SingleLive()) ==> SingleLive()
    {
      pendingRetries := pendingRetries - 1;
      Connect();
    }

    /** The `open` event of a socket that is connecting. */
    method OnOpen(id: nat)
      requires Valid() && id in sockets && sockets[id] == Connecting
      modifies this`sockets
      ensures Valid() && sockets == old(sockets)[id := Open]
      ensures old(SingleLive()) ==> SingleLive()
      ensures ws == Some(id) ==> IsOpen()
    {
      sockets := sockets[id := Open];
    }

    /** `onClose` as written: whichever socket closed, the table is emptied,
        the handle is dropped and a retry is scheduled. When the socket that
        closed is an older, terminated one while a newer socket is live, the
        newer socket loses its handle but stays connected. */
    method OnClose(id: nat)
      requires Valid() && id in sockets
      modifies this`sockets, this`ws, this`subscription, this`pendingRetries
      ensures Valid()
      ensures sockets == old(sockets) - {id} && ws.None? && subscription == map[]
      ensures pendingRetries == old(pendingRetries) + (if suspended then 0 else 1)
      ensures old(SingleLive()) && (old(ws).None? || old(ws) == Some(id)) ==> SingleLive()
      ensures old(ws).Some? && old(ws) != Some(id) ==> !SingleLive()
    {
      ghost var live := ws;
      sockets := sockets - {id};
      subscription := map[];
      ws := None;
      RetryConnection();
      if live.Some? && live != Some(id) {
        assert live.value in sockets && sockets[live.value] != Closing;
      }
    }

    /** `onClose` acting only on the close of the current handle; the close
        of a socket terminated earlier only forgets that socket. */
    method OnCloseChecked(id: nat)
      requires Valid() && id in sockets
      modifies this`sockets, this`ws, this`subscription, this`pendingRetries
      ensures Valid() && sockets == old(sockets) - {id}
      ensures old(ws) == Some(id) ==>
        ws.None? && subscription == map[]
        && pendingRetries == old(pendingRetries) + (if suspended then 0 else 1)
      ensures old(ws) != Some(id) ==>
        ws == old(ws) && subscription == old(subscription) && pendingRetries == old(pendingRetries)
      ensures old(SingleLive()) ==> SingleLive()
    {
      sockets := sockets - {id};
      if ws == Some(id) {
        subscription := map[];
        ws := None;
        RetryConnection();
      }
    }

    /** `subscribe(pair, interval)`: one `subscribe` command for the
        normalised pair, sent only when the socket is open and the key is
        not in the table. */
    method Subscribe(pair: string, interval: int) returns (sent: Option<Command>)
      ensures sent.Some? <==> IsOpen() && SubscriptionKey(pair, interval) !in subscription
      ensures sent.Some? ==> sent.value == Command(SubscribeEvent.Subscribe, Utils.NormalizePair(pair), interval)
    {
      sent := None;
      if IsOpen() {
        var p := Utils.ParsePair(pair);
        var intervalPair := p.base + "/" + Utils.SymbolText(p.quote) + "/" + IntToString(interval);
        if intervalPair !in subscription {
          var split := Utils.ParsePair(intervalPair);
          SentPairOfKey(pair, interval);
          sent := Some(Command(SubscribeEvent.Subscribe, split.base + "/" + Utils.SymbolText(split.quote), interval));
        }
      }
    }

    /** `unsubscribe(pair, interval)`: one `unsubscribe` command for the
        normalised pair, sent only when the socket is open and the key is in
        the table. */
    method Unsubscribe(pair: string, interval: int) returns (sent: Option<Command>)
      ensures sent.Some? <==> IsOpen() && SubscriptionKey(pair, interval) in subscription
      ensures sent.Some? ==> sent.value == Command(SubscribeEvent.Unsubscribe, Utils.NormalizePair(pair), interval)
    {
      sent := None;
      if IsOpen() {
        var p := Utils.ParsePair(pair);
        var intervalPair := p.base + "/" + Utils.SymbolText(p.quote) + "/" + IntToString(interval);
        if intervalPair in subscription {
          var split := Utils.ParsePair(intervalPair);
          SentPairOfKey(pair, interval);
          sent := Some(Command(SubscribeEvent.Unsubscribe, split.base + "/" + Utils.SymbolText(split.quote), interval));
        }
      }
    }

    /** `onMessage`: the frame is classified, and a `subscriptionStatus`
        event updates the table; the classification is what the ticker
        emits (`update`, `heartbeat`, `status-change`, or the ack's status). */
    method OnMessage(frame: Frame) returns (inbound: Inbound)
      modifies this`subscription
      ensures inbound == Classify(frame)
      ensures inbound.SubscriptionStatus? ==> subscription == AfterAck(old(subscription), inbound.fields)
      ensures !inbound.SubscriptionStatus? ==> subscription == old(subscription)
    {
      inbound := Classify(frame);
      if inbound.SubscriptionStatus? {
        subscription := AfterAck(subscription, inbound.fields);
      }
    }
  }

  /** A suspend and a resume in quick succession: the close event of the
      terminated first socket arrives after the second socket has opened,
      and `onClose` drops the handle of the second one. The retry then opens
      a third socket while the second is still connected. */
  method StaleCloseScenario() returns (t: Ticker)
    ensures t.Valid() && !t.SingleLive()
    ensures t.ws == Some(2) && t.sockets == map[1 := Open, 2 := Connecting]
  {
    t := new Ticker();
    t.Resume();
    t.OnOpen(0);
    t.Suspend();
    assert t.ws.None? && t.sockets == map[0 := Closing] && t.nextSocket == 1;
    t.Resume();
    t.OnOpen(1);
    assert t.ws == Some(1) && t.sockets == map[0 := Closing, 1 := Open] && t.nextSocket == 2;
    t.OnClose(0);
    assert t.ws.None? && t.sockets == map[1 := Open] && t.pendingRetries == 1;
    t.FireRetry();
    assert 1 in t.sockets && t.sockets[1] == Open && t.ws == Some(2);
  }

  /** The same events with the checked close handler keep one live socket. */
  method StaleCloseCheckedScenario() returns (t: Ticker)
    ensures t.Valid() && t.SingleLive()
    ensures t.ws == Some(1) && t.sockets == map[1 := Open] && t.pendingRetries == 0
  {
    t := new Ticker();
    t.Resume();
    t.OnOpen(0);
    t.Suspend();
    t.Resume();
    t.OnOpen(1);
    t.OnCloseChecked(0);
  }
}
