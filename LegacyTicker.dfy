/** The older ticker of source/Ticker.ts. It follows one pair, chosen by a
    `{base, quote}` configuration, holds a single subscription slot, and
    reconnects through one cancellable timer: every `retryConnection`
    clears the previous timer before it arms a new one. Socket events and
    the expiry of a timer are method calls; timers are ids, and the ids of
    the timers that are armed and have neither fired nor been cleared are
    kept in `pendingTimers`. */
module LegacyTicker {
  import opened Wrappers
  import Utils
  import Catalog
  import opened Kraken

  /** The saved configuration (`updateRate` is never read). */
  datatype Config = Config(base: string, quote: string)

  /** The configuration written when none is saved yet. */
  const DEFAULT_CONFIG := Config("BTC", "USD")

  /** What this ticker sends: `{event: "subscribe", pair: [pair],
      subscription: {name: "ohlc"}}` and `{event: "unsubscribe", channelID}`. */
  datatype LegacyCommand = SubscribeOhlc(pair: string) | UnsubscribeChannel(channelID: int)

  /** The result of `subscriptionStatus` on the slot: the new slot, or the
      `TypeError` of reading `channelName` of an empty slot. */
  datatype AckResult = Stored(slot: Option<EventFields>) | TypeError

  /** The base `subscribe` settles on: the requested one when the quote's
      table has it, else `BTC` when the table has that, else the table's
      first key (`head(keys(...))`, printed as `undefined` when there is
      none). */
  function FallbackBase(coinMap: Catalog.CoinMap, base: string, quote: string): (r: string)
    ensures quote in coinMap && base in coinMap[quote] ==> r == base
    ensures quote in coinMap && base !in coinMap[quote] && "BTC" in coinMap[quote] ==> r == "BTC"
    ensures quote in coinMap && base !in coinMap[quote] && "BTC" !in coinMap[quote] && coinMap[quote] != []
            ==> r == coinMap[quote][0]
    ensures quote in coinMap && coinMap[quote] != [] ==> r in coinMap[quote]
    ensures (quote !in coinMap || coinMap[quote] == []) ==> r == Utils.UNDEFINED
  {
    var table := if quote in coinMap then coinMap[quote] else [];
    if base in table then base
    else if "BTC" in table then "BTC"
    else if table != [] then table[0]
    else Utils.UNDEFINED
  }

  /** Once a base has been settled on, settling again keeps it. */
  lemma FallbackStable(coinMap: Catalog.CoinMap, base: string, quote: string)
    requires quote in coinMap && coinMap[quote] != []
    ensures FallbackBase(coinMap, FallbackBase(coinMap, base, quote), quote) == FallbackBase(coinMap, base, quote)
  {
  }

  /** `subscriptionStatus` on the slot: a `subscribed` ack replaces it, an
      `unsubscribed` ack empties it when channel name and pair both match the
      stored ack and fails when the slot is empty, any other status leaves it. */
  function SlotAfterAck(slot: Option<EventFields>, fields: EventFields): (r: AckResult)
    ensures fields.status == "subscribed" ==> r == Stored(Some(fields))
    ensures fields.status == "unsubscribed" ==> (r.TypeError? <==> slot.None?)
    ensures fields.status == "unsubscribed" && slot.Some? ==>
      (r == Stored(None) <==> slot.value.channelName == fields.channelName && slot.value.pair == fields.pair)
      && (r != Stored(None) ==> r == Stored(slot))
    ensures fields.status != "subscribed" && fields.status != "unsubscribed" ==> r == Stored(slot)
  {
    if fields.status == "subscribed" then Stored(Some(fields))
    else if fields.status == "unsubscribed" then
      if slot.None? then TypeError
      else if fields.channelName == slot.value.channelName && fields.pair == slot.value.pair then Stored(None)
      else Stored(slot)
    else Stored(slot)
  }

  /** A subscription is cleared by the `unsubscribed` ack of the same channel
      and pair and by no other ack; an earlier slot makes no difference. */
  lemma SubscribeThenUnsubscribe(slot: Option<EventFields>, sub: EventFields, unsub: EventFields)
    requires sub.status == "subscribed" && unsub.status == "unsubscribed"
    ensures SlotAfterAck(SlotAfterAck(slot, sub).slot, unsub) == Stored(None)
        <==> sub.channelName == unsub.channelName && sub.pair == unsub.pair
    ensures SlotAfterAck(SlotAfterAck(slot, sub).slot, unsub).Stored?
  {
  }

  /** At most one timer is ever armed: the timers that are pending all are
      the one the ticker remembers. */
  lemma {:induction false} AtMostOneTimer(pending: set<nat>, timer: Option<nat>)
    requires forall t :: t in pending ==> timer == Some(t)
    ensures |pending| <= 1
    ensures pending != {} ==> pending == {timer.value}
  {
    if pending != {} {
      var t :| t in pending;
      assert pending == {t};
    }
  }

  class LegacyTicker {
    var ws: Option<nat>
    var sockets: map<nat, SocketState>
    var nextSocket: nat
    var suspended: bool
    var subscription: Option<EventFields>
    var config: Config
    var reconnectTimer: Option<nat>
    var pendingTimers: set<nat>
    var nextTimer: nat
    /** `_assets` and `_coinMap`: unset (`None`) until `loadAssets`. */
    var assets: Option<seq<Catalog.Asset>>
    var coinMap: Option<Catalog.CoinMap>

    /** The handle names a socket that is not being torn down, ids were
        handed out, and every pending timer is the remembered one. */
    ghost predicate Valid()
      reads this
    {
      && (ws.Some? ==> ws.value in sockets && sockets[ws.value] != Closing)
      && (forall id :: id in sockets ==> id < nextSocket)
      && (forall t :: t in pendingTimers ==> t < nextTimer && reconnectTimer == Some(t))
    }

    /** A suspended ticker holds no handle and has no timer armed. */
    ghost predicate Quiet()
      reads this
    {
      suspended ==> ws.None? && pendingTimers == {}
    }

    /** `this.ws && this.ws.readyState === WebSocket.OPEN`. */
    predicate IsOpen()
      reads this
    {
      ws.Some? && ws.value in sockets && sockets[ws.value] == Open
    }

    /** The constructor, given the configuration `loadConfig` reads. */
    constructor (saved: Config)
      ensures Valid() && Quiet()
      ensures config == saved && ws.None? && sockets == map[] && nextSocket == 0 && !suspended
      ensures subscription.None? && reconnectTimer.None? && pendingTimers == {} && nextTimer == 0
      ensures assets.None? && coinMap.None?
    {
      ws := None;
      sockets := map[];
      nextSocket := 0;
      suspended := false;
      subscription := None;
      config := saved;
      reconnectTimer := None;
      pendingTimers := {};
      nextTimer := 0;
      assets := None;
      coinMap := None;
    }

    /** `loadAssets`, given the `wsname` of every pair of the AssetPairs
        answer (an empty list when the request fails). */
    method LoadAssets(wsnames: seq<string>)
      modifies this`assets, this`coinMap
      ensures assets == Some(Catalog.AssetsOf(wsnames)) && coinMap.Some?
      ensures forall q :: q in coinMap.value <==> exists a :: a in assets.value && a.quote == q
      ensures forall q :: q in coinMap.value ==> Catalog.StrictlySorted(coinMap.value[q])
      ensures forall q, b :: q in coinMap.value ==> (b in coinMap.value[q] <==> Catalog.Asset(b, q) in assets.value)
    {
      var loaded := Catalog.AssetsOf(wsnames);
      assets := Some(loaded);
      var built := Catalog.BuildCoinMap(loaded);
      coinMap := Some(built);
    }

    /** `connect`: a socket is created when there is no handle; unlike the
        newer ticker, the flag is not consulted. */
    method Connect()
      requires Valid()
      modifies this`ws, this`sockets, this`nextSocket
      ensures Valid()
      ensures old(ws).None? ==>
        ws == Some(old(nextSocket)) && sockets == old(sockets)[old(nextSocket) := Connecting]
        && nextSocket == old(nextSocket) + 1
      ensures old(ws).Some? ==> ws == old(ws) && sockets == old(sockets) && nextSocket == old(nextSocket)
      ensures old(Quiet()) && !suspended ==> Quiet()
    {
      if ws.None? {
        var id := nextSocket;
        sockets := sockets[id := Connecting];
        ws := Some(id);
        nextSocket := nextSocket + 1;
      }
    }

    /** `disconnect` as written: close and terminate the socket and drop the
        handle; the timer is cleared too, but only when there was a handle. */
    method Disconnect()
      requires Valid()
      modifies this`ws, this`sockets, this`reconnectTimer, this`pendingTimers
      ensures Valid() && ws.None?
      ensures old(ws).Some? ==>
        sockets == old(sockets)[old(ws).value := Closing] && reconnectTimer.None? && pendingTimers == {}
      ensures old(ws).None? ==>
        sockets == old(sockets) && reconnectTimer == old(reconnectTimer) && pendingTimers == old(pendingTimers)
    {
      if ws.Some? {
        sockets := sockets[ws.value := Closing];
        ws := None;
        if reconnectTimer.Some? {
          pendingTimers := pendingTimers - {reconnectTimer.value};
          reconnectTimer := None;
        }
        AtMostOneTimer(old(pendingTimers), old(reconnectTimer));
      }
    }

    /** `disconnect` that clears the timer whether or not there is a handle. */
    method DisconnectChecked()
      requires Valid()
      modifies this`ws, this`sockets, this`reconnectTimer, this`pendingTimers
      ensures Valid() && ws.None? && reconnectTimer.None? && pendingTimers == {}
      ensures old(ws).Some? ==> sockets == old(sockets)[old(ws).value := Closing]
      ensures old(ws).None? ==> sockets == old(sockets)
    {
      if ws.Some? {
        sockets := sockets[ws.value := Closing];
        ws := None;
      }
      if reconnectTimer.Some? {
        pendingTimers := pendingTimers - {reconnectTimer.value};
        reconnectTimer := None;
      }
      AtMostOneTimer(old(pendingTimers), old(reconnectTimer));
    }

    /** `resume`: clear the flag, then connect. */
    method Resume()
      requires Valid()
      modifies this`suspended, this`ws, this`sockets, this`nextSocket
      ensures Valid() && Quiet() && !suspended && ws.Some?
      ensures old(ws).None? ==>
        ws == Some(old(nextSocket)) && sockets == old(sockets)[old(nextSocket) := Connecting]
        && nextSocket == old(nextSocket) + 1
      ensures old(ws).Some? ==> ws == old(ws) && sockets == old(sockets)
    {
      suspended := false;
      Connect();
    }

    /** `suspend` as written: set the flag, then `disconnect`. A timer armed
        by an earlier close, while there is no handle, stays armed. */
    method Suspend()
      requires Valid()
      modifies this`suspended, this`ws, this`sockets, this`reconnectTimer, this`pendingTimers
      ensures Valid() && suspended && ws.None?
      ensures old(ws).Some? ==>
        sockets == old(sockets)[old(ws).value := Closing] && reconnectTimer.None? && Quiet()
      ensures old(ws).None? ==>
        sockets == old(sockets) && reconnectTimer == old(reconnectTimer) && pendingTimers == old(pendingTimers)
    {
      suspended := true;
      Disconnect();
    }

    /** `suspend` over the checked `disconnect`: nothing is left armed. */
    method SuspendChecked()
      requires Valid()
      modifies this`suspended, this`ws, this`sockets, this`reconnectTimer, this`pendingTimers
      ensures Valid() && Quiet() && suspended
      ensures old(ws).Some? ==> sockets == old(sockets)[old(ws).value := Closing]
      ensures old(ws).None? ==> sockets == old(sockets)
    {
      suspended := true;
      DisconnectChecked();
    }

    /** `retryConnection`: the previous timer is always cleared first, and a
        new one is armed only when the ticker is not suspended. */
    method RetryConnection()
      requires Valid()
      modifies this`reconnectTimer, this`pendingTimers, this`nextTimer
      ensures Valid()
      ensures suspended ==> reconnectTimer.None? && pendingTimers == {}
      ensures !suspended ==>
        reconnectTimer == Some(old(nextTimer)) && pendingTimers == {old(nextTimer)}
        && nextTimer == old(nextTimer) + 1
      ensures old(Quiet()) ==> Quiet()
    {
      if reconnectTimer.Some? {
        pendingTimers := pendingTimers - {reconnectTimer.value};
        reconnectTimer := None;
      }
      AtMostOneTimer(old(pendingTimers), old(reconnectTimer));
      if !suspended {
        var t := nextTimer;
        reconnectTimer := Some(t);
        pendingTimers := pendingTimers + {t};
        nextTimer := nextTimer + 1;
      }
    }

    /** Expiry of an armed timer: `connect`. */
    method FireTimer(t: nat)
      requires Valid() && t in pendingTimers
      modifies this`pendingTimers, this`ws, this`sockets, this`nextSocket
      ensures Valid() && pendingTimers == old(pendingTimers) - {t}
      ensures old(ws).None? ==>
        ws == Some(old(nextSocket)) && sockets == old(sockets)[old(nextSocket) := Connecting]
      ensures old(ws).Some? ==> ws == old(ws) && sockets == old(sockets)
      ensures old(Quiet()) ==> Quiet()
    {
      pendingTimers := pendingTimers - {t};
      Connect();
    }

    /** The `open` event of a socket that is connecting. */
    method OnOpen(id: nat)
      requires Valid() && id in sockets && sockets[id] == Connecting
      modifies this`sockets
      ensures Valid() && sockets == old(sockets)[id := Open]
      ensures ws == Some(id) ==> IsOpen()
      ensures old(Quiet()) ==> Quiet()
    {
      sockets := sockets[id := Open];
    }

    /** `onClose`: the slot is emptied, the handle dropped, and the retry
        timer replaced. */
    method OnClose(id: nat)
      requires Valid() && id in sockets
      modifies this`sockets, this`ws, this`subscription, this`reconnectTimer, this`pendingTimers, this`nextTimer
      ensures Valid() && sockets == old(sockets) - {id} && ws.None? && subscription.None?
      ensures suspended ==> pendingTimers == {}
      ensures !suspended ==> reconnectTimer == Some(old(nextTimer)) && pendingTimers == {old(nextTimer)}
      ensures old(Quiet()) ==> Quiet()
    {
      sockets := sockets - {id};
      subscription := None;
      ws := None;
      RetryConnection();
    }

    /** `unsubscribe`: one command naming the stored channel, sent only when
        the socket is open and the slot holds an ack with a truthy
        `channelID` (so a channel id of 0 is never unsubscribed). */
    method Unsubscribe() returns (sent: Option<LegacyCommand>)
      ensures sent.Some? <==>
        IsOpen() && subscription.Some? && subscription.value.channelID.Some?
        && subscription.value.channelID.value != 0
      ensures sent.Some? ==> sent.value == UnsubscribeChannel(subscription.value.channelID.value)
    {
      sent := None;
      if IsOpen() && subscription.Some? && subscription.value.channelID.Some?
         && subscription.value.channelID.value != 0 {
        sent := Some(UnsubscribeChannel(subscription.value.channelID.value));
      }
    }

    /** `subscribe(base, quote)`: store the requested pair, settle on a
        base, run `unsubscribe`, then send the subscription when the socket
        is open. Before `loadAssets` there is no coin map: reading the
        quote's table throws a `TypeError` (`ok` is false) after the
        requested pair was stored, and nothing is sent. */
    method Subscribe(base: string, quote: string) returns (sent: seq<LegacyCommand>, ok: bool)
      modifies this`config
      ensures ok <==> coinMap.Some?
      ensures !ok ==> config == Config(base, quote) && sent == []
      ensures ok ==> config == Config(FallbackBase(coinMap.value, base, quote), quote)
      ensures ok && quote in coinMap.value && coinMap.value[quote] != [] ==> config.base in coinMap.value[quote]
      ensures |sent| <= 2
      ensures ok && IsOpen() ==> |sent| >= 1 && sent[|sent| - 1] == SubscribeOhlc(config.base + "/" + quote)
      ensures !IsOpen() ==> sent == []
      ensures |sent| == 2 <==>
        ok && IsOpen() && subscription.Some? && subscription.value.channelID.Some?
        && subscription.value.channelID.value != 0
      ensures |sent| == 2 ==> sent[0] == UnsubscribeChannel(subscription.value.channelID.value)
    {
      config := Config(base, quote);
      sent := [];
      ok := coinMap.Some?;
      if ok {
        config := Config(FallbackBase(coinMap.value, base, quote), quote);
        var unsub := Unsubscribe();
        sent := if unsub.Some? then [unsub.value] else [];
        if IsOpen() {
          sent := sent + [SubscribeOhlc(config.base + "/" + config.quote)];
        }
      }
    }

    /** `systemStatus`: an `online` status subscribes the configured pair
        again; any other status sends nothing. Before `loadAssets` the
        `subscribe` throws (`ok` is false) and nothing changes. */
    method SystemStatus(fields: EventFields) returns (sent: seq<LegacyCommand>, ok: bool)
      modifies this`config
      ensures ok <==> fields.status != "online" || coinMap.Some?
      ensures !ok ==> config == old(config) && sent == []
      ensures fields.status == "online" && ok ==>
        config == Config(FallbackBase(coinMap.value, old(config.base), old(config.quote)), old(config.quote))
        && |sent| <= 2
        && (IsOpen() ==> |sent| >= 1 && sent[|sent| - 1] == SubscribeOhlc(config.base + "/" + config.quote))
        && (!IsOpen() ==> sent == [])
        && (|sent| == 2 <==>
             IsOpen() && subscription.Some? && subscription.value.channelID.Some?
             && subscription.value.channelID.value != 0)
        && (|sent| == 2 ==> sent[0] == UnsubscribeChannel(subscription.value.channelID.value))
      ensures fields.status != "online" ==> config == old(config) && sent == []
    {
      sent, ok := [], true;
      if fields.status == "online" {
        sent, ok := Subscribe(config.base, config.quote);
      }
    }

    /** `subscriptionStatus`: the slot after the ack, or `false` when the
        handler fails on an empty slot (nothing is emitted then). */
    method SubscriptionStatus(fields: EventFields) returns (ok: bool)
      modifies this`subscription
      ensures ok <==> SlotAfterAck(old(subscription), fields).Stored?
      ensures ok ==> subscription == SlotAfterAck(old(subscription), fields).slot
      ensures !ok ==> subscription == old(subscription)
    {
      var r := SlotAfterAck(subscription, fields);
      ok := r.Stored?;
      if ok {
        subscription := r.slot;
      }
    }
  }

  /** The connection drops, a retry is armed, and the machine is suspended
      before the retry fires: the handle is already gone, so the timer is
      not cleared, and when it fires the ticker connects while suspended. */
  method ArmedTimerScenario() returns (t: LegacyTicker)
    ensures t.Valid() && t.suspended && t.ws == Some(1) && !t.Quiet()
  {
    t := new LegacyTicker(DEFAULT_CONFIG);
    t.Resume();
    t.OnOpen(0);
    t.OnClose(0);
    t.Suspend();
    t.FireTimer(0);
  }

  /** With the checked `suspend` the same drop leaves nothing armed, and the
      ticker stays quiet until it is resumed. */
  method ArmedTimerCheckedScenario() returns (t: LegacyTicker)
    ensures t.Valid() && t.Quiet() && t.suspended && t.ws.None? && t.pendingTimers == {}
  {
    t := new LegacyTicker(DEFAULT_CONFIG);
    t.Resume();
    t.OnOpen(0);
    t.OnClose(0);
    t.SuspendChecked();
  }

  /** An `online` status on an open socket before `loadAssets`: the
      `subscribe` throws, the configuration stays, and nothing is sent. */
  method OnlineBeforeLoadScenario() returns (t: LegacyTicker, sent: seq<LegacyCommand>, ok: bool)
    ensures t.IsOpen() && t.coinMap.None?
    ensures !ok && sent == [] && t.config == Config("ETH", "USD")
  {
    t := new LegacyTicker(Config("ETH", "USD"));
    t.Resume();
    t.OnOpen(0);
    sent, ok := t.SystemStatus(EventFields("systemStatus", "online", None, "", "", 0));
  }
}
