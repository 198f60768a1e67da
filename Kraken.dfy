/** Messages of Kraken's public WebSocket API (`ohlc` channel), already
    parsed from JSON, and the decoding step of `onMessage`/`tickerUpdate`
    in src/main/Ticker.ts. A frame whose JSON root is an array is a candle
    update; an object is an event dispatched by its `event` name. */
module Kraken {
  import opened Wrappers
  import opened Text
  import Utils

  /** The price fields of a candle, kept as the decimal text the exchange
      sends; the model never interprets them. */
  datatype Prices = Prices(open: string, high: string, low: string, close: string, vwap: string, volume: string)

  /** The properties of an event object that the handlers read (a missing
      `channelID` is `None`; `interval` is `subscription.interval`). */
  datatype EventFields = EventFields(
    event: string,
    status: string,
    channelID: Option<int>,
    channelName: string,
    pair: string,
    interval: int)

  /** An inbound frame. Start and end times are whole seconds. */
  datatype Frame =
    | OhlcFrame(channelId: int, starttime: int, endtime: int, prices: Prices, channelName: string, pair: string)
    | EventFrame(fields: EventFields)
    | ScalarFrame   // a JSON root that is neither an array nor an object

  /** The `TickerUpdate` that the `update` event carries. */
  datatype TickerUpdate = TickerUpdate(
    starttime: int,
    endtime: int,
    prices: Prices,
    base: string,
    quote: Option<string>,
    interval: Option<int>,
    channel: string)

  /** Which handler `onMessage` runs. */
  datatype Inbound =
    | Update(update: TickerUpdate)
    | Heartbeat
    | SystemStatus(fields: EventFields)
    | SubscriptionStatus(fields: EventFields)
    | Ignored(event: string)   // `invoke` finds no handler of that name
    | Unsupported             // "Unsupported response type."

  /** `readyState` of a socket a ticker created. A terminated socket is
      `Closing` until its `close` event arrives. */
  datatype SocketState = Connecting | Open | Closing

  datatype SubscribeEvent = Subscribe | Unsubscribe

  /** `{event, pair: [pair], subscription: {interval, name: "ohlc"}}`. */
  datatype Command = Command(event: SubscribeEvent, pair: string, interval: int)

  /** `parseInt(channelName.split('-')[1])`; a missing piece is `undefined`,
      which parses as `NaN`. So a channel name without a `-` has no
      interval. */
  function IntervalOf(channelName: string): (r: Option<int>)
    ensures r.Some? ==> '-' in channelName
  {
    var pieces := Split(channelName, '-');
    assert |pieces| > 1 ==> channelName[|pieces[0]|] == '-';
    assert Utils.UNDEFINED[0] == 'u';
    JsParseInt(if |pieces| > 1 then pieces[1] else Utils.UNDEFINED)
  }

  /** `tickerUpdate`: times, prices and channel name passed on, the pair
      split and canonicalised (no `XBT`, no quote without a slash), the
      interval read from the channel name. */
  function DecodeOhlc(starttime: int, endtime: int, prices: Prices, channelName: string, pair: string): (r: TickerUpdate)
    ensures r.starttime == starttime && r.endtime == endtime && r.prices == prices && r.channel == channelName
    ensures r.base != "XBT" && (r.quote.Some? ==> r.quote.value != "XBT")
    ensures r.quote.None? <==> '/' !in pair
    ensures r.interval.Some? ==> '-' in channelName
  {
    var p := Utils.ParsePair(pair);
    TickerUpdate(starttime, endtime, prices, p.base, p.quote, IntervalOf(channelName), channelName)
  }

  /** The dispatch of `onMessage`: an array is a candle update, an object
      goes to the handler named by its `event` (ignored when there is none),
      anything else is unsupported. */
  function Classify(frame: Frame): (r: Inbound)
    ensures r.Update? <==> frame.OhlcFrame?
    ensures r.Unsupported? <==> frame.ScalarFrame?
    ensures r.Update? ==> r.update.channel == frame.channelName && r.update.starttime == frame.starttime
    ensures frame.EventFrame? ==> (r.Heartbeat? <==> frame.fields.event == "heartbeat")
    ensures r.SystemStatus? ==> frame.EventFrame? && r.fields == frame.fields && r.fields.event == "systemStatus"
    ensures r.SubscriptionStatus? ==> frame.EventFrame? && r.fields == frame.fields && r.fields.event == "subscriptionStatus"
    ensures r.Ignored? <==> frame.EventFrame? && frame.fields.event !in {"heartbeat", "systemStatus", "subscriptionStatus"}
  {
    match frame
    case OhlcFrame(_, starttime, endtime, prices, channelName, pair) =>
      Update(DecodeOhlc(starttime, endtime, prices, channelName, pair))
    case EventFrame(fields) =>
      if fields.event == "heartbeat" then Heartbeat
      else if fields.event == "systemStatus" then SystemStatus(fields)
      else if fields.event == "subscriptionStatus" then SubscriptionStatus(fields)
      else Ignored(fields.event)
    case ScalarFrame => Unsupported
  }

  // ---------------------------------------------------------------------

  /** The interval is the integer after the `-` of the channel name. */
  lemma IntervalOfChannel(name: string, minutes: nat)
    requires '-' !in name
    ensures IntervalOf(name + "-" + NatToString(minutes)) == Some(minutes)
  {
    var digits := NatToString(minutes);
    assert '-' !in digits;
    SplitAt(name, digits, '-');
    SplitWhole(digits, '-');
    ParseIntToString(minutes);
  }

  /** An OHLC frame for a one-slash pair decodes to an update with the
      canonical base and quote, the channel name unchanged, the interval of
      the channel name, and its times and prices as sent. */
  lemma DecodeOhlcFrame(channelId: int, starttime: int, endtime: int, prices: Prices,
                        name: string, minutes: nat, base: string, quote: string)
    requires '-' !in name && '/' !in base && '/' !in quote
    ensures var channel := name + "-" + NatToString(minutes);
      Classify(OhlcFrame(channelId, starttime, endtime, prices, channel, base + "/" + quote))
      == Update(TickerUpdate(starttime, endtime, prices, Utils.Canonical(base), Some(Utils.Canonical(quote)),
                             Some(minutes), channel))
  {
    IntervalOfChannel(name, minutes);
    Utils.ParsePairOfTwo(base, quote);
  }

  /** A sample `XBT/USD` frame on `ohlc-1`. */
  lemma DecodeSampleFrame()
    ensures Classify(OhlcFrame(120, 1616700000, 1616700060,
                               Prices("100.0", "101.0", "99.5", "100.5", "100.2", "10.0"), "ohlc-1", "XBT/USD"))
         == Update(TickerUpdate(1616700000, 1616700060,
                                Prices("100.0", "101.0", "99.5", "100.5", "100.2", "10.0"),
                                "BTC", Some("USD"), Some(1), "ohlc-1"))
  {
    assert NatToString(1) == "1";
    assert "ohlc-1" == "ohlc" + "-" + NatToString(1);
    assert "XBT/USD" == "XBT" + "/" + "USD";
    assert '-' !in "ohlc" && '/' !in "XBT" && '/' !in "USD";
    DecodeOhlcFrame(120, 1616700000, 1616700060,
                    Prices("100.0", "101.0", "99.5", "100.5", "100.2", "10.0"), "ohlc", 1, "XBT", "USD");
  }
}
