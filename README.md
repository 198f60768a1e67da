# crypto-steel core in Dafny

crypto-steel is an Electron tray application. It follows Kraken's public
WebSocket market data and paints a ticker on the OLED screen and the
per-key lighting of SteelSeries keyboards via GameSense. This project
models the parts of it that make decisions:

- the pair spelling rules (`XBT` versus `BTC`, `parsePair`, `normalizePair`, `denormalizePair`);
- the catalog grouping of `loadAssets`, which gives each quote its sorted, duplicate-free list of bases;
- decoding of the OHLC frame and the dispatch of inbound events;
- the newer ticker (`src/main/Ticker.ts`):
  - its lifecycle: connect, disconnect, suspend, resume, close, retry;
  - its table of confirmed subscriptions, keyed by `base/quote/interval`;
  - the guards on `subscribe` and `unsubscribe`;
- the older single-subscription ticker (`source/Ticker.ts`):
  - its cancellable reconnect timer;
  - its base fallback;
  - its subscription slot;
- `setPairs` of the tray application (validity filter with fallback, `config-change` payload);
- the main-process handlers (`src/main/main.ts`):
  - the `subscribePair`/`unsubscribePair` command pairs;
  - the `status-change` resubscription;
  - the `config-change` diff;
  - the rolling one-day window of 15-minute candles;
  - the `subscribed`/`unsubscribed` messages to the renderer;
  - the order of `suspendAll`/`resumeAll`;
- the renderer's subscription-list reducer and its stable `sortBy`;
- the OLED screen (`GameSenseScreen`): a 0/1 buffer with the brightness threshold, written in place by nested loops;
- the keyboard (`GameSenseKeyboard`): an RGB matrix, written in place by nested loops.

Modules follow the source files:

| module | models |
|---|---|
| `Wrappers` | an `Option` type |
| `Text` | the JavaScript string operations used: `split`/`join`, number printing, `parseInt`, `toLowerCase` on ASCII letters, and the `<` order of strings |
| `Utils` | `src/main/utils.ts` |
| `Catalog` | the coin map that `loadAssets` builds (both tickers share the code) |
| `Kraken` | the frames and commands of the WebSocket API and the decoding in `onMessage`/`tickerUpdate` |
| `Ticker` | `src/main/Ticker.ts`, as a class |
| `LegacyTicker` | `source/Ticker.ts`, as a class |
| `App` | `setPairs` of `src/main/App.ts`, as a class |
| `Controller` | `src/main/main.ts` |
| `TickerSubscriptions` | `src/render/ticker/hooks/tickerSubscriptions.ts` |
| `GameSenseScreen` | `src/main/GameSense/GameSenseScreen.ts`: the buffer is an `array<int>` |
| `GameSenseKeyboard` | `src/main/GameSense/GameSenseKeyboard.ts`: the matrix is an `array<Rgb>` |

A socket is an id, and each ticker keeps the state of the sockets it
created: `Connecting`, `Open`, or `Closing` (terminated but not yet seen
to close). Socket events are method calls on the ticker. The 2-second
wait is modelled as follows:

- in the newer ticker, a count of pending retries that `FireRetry` consumes;
- in the older ticker, timer ids that `FireTimer` fires and `clearTimeout` removes.

The WebSocket, the REST clients, JSON, logging, clocks and GameSense HTTP
posts are outside the model. What they would supply is a parameter (the
`wsname`s of the AssetPairs answer, the candle backfill, the bitmap). What
they would receive is a return value (commands and renderer messages).

Source notes:

- `source/Ticker.ts:189-197` (`parsePair` of the older ticker) has the same text as `src/main/utils.ts:45-53`. Both are modelled by `Utils.ParsePair`.
- `src/main/GameSense/GameSenseKeyboard.ts:4` imports `hasGameSense` from `./gotGamesense`, but `src/main/GameSense/gotGamesense.ts:20` has only a default export. The keyboard takes it instead as a constructor flag that never changes.

## Model

| member | source | states |
|---|---|---|
| Text.Split | src/main/utils.ts:46 | `split` returns at least one piece, no piece holds the separator, and joining the pieces gives the text back |
| Text.SplitJoin | src/main/utils.ts:46 | splitting the join of separator-free pieces gives the pieces back (the other round trip) |
| Text.SplitAt | src/main/utils.ts:46 | text of the form `a + sep + b`, with no separator in `a`, splits into `a` followed by the pieces of `b` |
| Text.NatToString | src/main/Ticker.ts:121 | the template-string text of a natural number is non-empty, all digits, and has no leading zero |
| Text.NatToStringValue | src/main/Ticker.ts:121 | the digits printed for `n` have the value `n` |
| Text.JsParseInt | src/main/Ticker.ts:240 | `parseInt` gives a number only for text that, after leading white space, opens with a digit or with one sign and a digit; the number is negative only after a `-` |
| Text.ParseIntToString | src/main/Ticker.ts:240 | `parseInt` reads back the printed text of every integer, negative ones included |
| Text.ParseIntDecimal | src/main/Ticker.ts:240 | `parseInt` of an optional `-` followed by decimal digits without a leading zero is the signed value of the digits |
| Text.ToLower | src/main/main.ts:191 | `toLowerCase` keeps the length and lowers each character on its own |
| Text.BelowIrreflexive | src/render/ticker/hooks/tickerSubscriptions.ts:39 | no string is below itself under `<` |
| Text.BelowTransitive | src/render/ticker/hooks/tickerSubscriptions.ts:39 | `<` on strings is transitive |
| Text.BelowTotal | src/render/ticker/hooks/tickerSubscriptions.ts:39 | any two different strings are ordered one way or the other |
| Text.BelowAsymmetric | src/render/ticker/hooks/tickerSubscriptions.ts:39 | `a < b` excludes `b < a` |
| Utils.Canonical | src/main/utils.ts:47-48 | `XBT` becomes `BTC`, every other symbol is kept, and the result is never `XBT` |
| Utils.ParsePair | src/main/utils.ts:45-53 | neither the base nor the quote holds a slash or is spelled `XBT`, and the quote is missing exactly when the text has no slash |
| Utils.NormalizePair | src/main/utils.ts:55-58 | the normalised text is two pieces around one slash, and neither piece is spelled `XBT` |
| Utils.DenormalizePair | src/main/utils.ts:60-63 | the denormalised text is two pieces around one slash; the base is never spelled `BTC` and the quote never `XBT` |
| Utils.ParsePairOfTwo | src/main/utils.ts:45-53 | a one-slash pair parses into its canonicalised base and quote |
| Utils.ParsePairKeepsTwo | src/main/utils.ts:45-53 | only the first two pieces count: `b/q/rest` parses as `b/q` |
| Utils.ParsePairNoSlash | src/main/utils.ts:45-53 | text without a slash has no quote (`undefined`) |
| Utils.PiecesHaveNoSlash | src/main/utils.ts:45-53 | a parsed base and a printed quote contain no slash |
| Utils.NormalizeIsCanonical | src/main/utils.ts:55-58 | parsing a normalised pair gives back its canonical pieces, and no `XBT` survives on either side |
| Utils.NormalizeIdempotent | src/main/utils.ts:55-58 | normalising twice is normalising once |
| Utils.DenormalizePieces | src/main/utils.ts:60-63 | the result has exactly two pieces; the base is `XBT` exactly when the input base was `BTC` or `XBT`, any other base is kept, and the quote is the canonical quote |
| Utils.NormalizeDenormalize | src/main/utils.ts:55-63 | normalising a denormalised pair gives the same result as normalising the original, for any pair text |
| Utils.BitcoinAliasRoundTrip | src/main/utils.ts:45-63 | `XBT/USD` and `BTC/USD` normalise to `BTC/USD`, and `BTC/USD` denormalises to `XBT/USD` |
| Catalog.AssetsOf | src/main/Ticker.ts:73-80 | one asset per `wsname`, in order, each the parsed pair |
| Catalog.Insert | src/main/Ticker.ts:92 | inserting into a strictly sorted list keeps it strictly sorted and adds exactly the new element |
| Catalog.SortedDistinct | src/main/Ticker.ts:92-93 | the result is strictly sorted (sorted by `<` with duplicates collapsed) and holds exactly the input's elements |
| Catalog.SortedUnique | src/main/Ticker.ts:92-93 | two strictly sorted lists with the same elements are equal, so the key list is determined by its contents |
| Catalog.QuotesOf | src/main/Ticker.ts:82-85 | the quotes listed are exactly those that some asset has |
| Catalog.BasesOf | src/main/Ticker.ts:92 | the bases listed for a quote are exactly those of the assets with that quote |
| Catalog.BuildCoinMap | src/main/Ticker.ts:87-95 | the keys are exactly the quotes of the assets; each quote's base list is strictly sorted; a base is in it exactly when that asset exists |
| Kraken.IntervalOf | src/main/Ticker.ts:240 | a channel name without `-` has no interval (`parseInt("undefined")` is `NaN`) |
| Kraken.DecodeOhlc | src/main/Ticker.ts:230-259 | times, prices and channel name are passed on; the base and quote are never `XBT`; the quote is missing exactly when the pair has no slash; an interval needs a `-` in the channel name |
| Kraken.Classify | src/main/Ticker.ts:217-228 | an array frame is an update and only an array frame; any other non-object is unsupported; an object goes to `heartbeat`, `systemStatus` or `subscriptionStatus` by its event name with its fields, and is ignored exactly when no handler has that name |
| Kraken.IntervalOfChannel | src/main/Ticker.ts:240 | the interval read from a channel `name-N` is `N` |
| Kraken.DecodeOhlcFrame | src/main/Ticker.ts:217-260 | an array frame becomes an `update` with times and prices as sent, the canonical base and quote of a one-slash pair, the channel name unchanged, and the channel's interval |
| Kraken.DecodeSampleFrame | src/main/Ticker.ts:230-260 | a sample `XBT/USD` frame on `ohlc-1` decodes with base `BTC`, quote `USD` and interval 1 |
| Ticker.SubscriptionKey | src/main/Ticker.ts:120-121 | the key splits on `/` into exactly three pieces: the canonical base, the quote and the printed interval |
| Ticker.KeyInterval | src/main/Ticker.ts:120-121 | `parseInt` of the key's third piece is the interval |
| Ticker.AckKey | src/main/Ticker.ts:276-277 | an ack's key is the key that `subscribe` of the acknowledged pair and interval looks up |
| Ticker.AfterAck | src/main/Ticker.ts:272-287 | a `subscribed` ack is stored under its normalised key, an `unsubscribed` ack deletes that key, no other key changes, and other statuses leave the table unchanged |
| Ticker.SentPairOfKey | src/main/Ticker.ts:120-124 | the pair `subscribe` reads back from its key is the normalised pair; the interval piece is dropped |
| Ticker.AckGuardsSubscribe | src/main/Ticker.ts:272-287 | an ack is stored under the key that a later `subscribe` of any spelling of the same pair looks up: after `subscribed` the key is present, after `unsubscribed` it is absent |
| Ticker.WireAliasAck | src/main/Ticker.ts:272-287 | an ack that Kraken spells `XBT/USD` guards a later `BTC/USD` subscribe |
| Ticker.Ticker.constructor | src/main/Ticker.ts:59-66 | no handle, no sockets, an empty table, not suspended, and neither assets nor a coin map until `loadAssets` |
| Ticker.Ticker.LoadAssets | src/main/Ticker.ts:68-96 | the assets are set to the parsed `wsname`s and the coin map is set and groups them as `Catalog.BuildCoinMap` states |
| Ticker.Ticker.Connect | src/main/Ticker.ts:162-179 | a socket is created exactly when there is no handle and the ticker is not suspended; otherwise nothing changes |
| Ticker.Ticker.Disconnect | src/main/Ticker.ts:181-187 | the handle's socket is terminated (now `Closing`) and the handle dropped; with no handle nothing changes |
| Ticker.Ticker.Resume | src/main/Ticker.ts:106-110 | the flag is cleared and a handle exists afterwards; a socket is created (as `Connecting`, with the next id) only if there was no handle; otherwise sockets and ids are unchanged; at most one live socket stays so |
| Ticker.Ticker.Suspend | src/main/Ticker.ts:112-116 | the flag is set and the handle is gone; a suspended ticker holds no handle |
| Ticker.Ticker.RetryConnection | src/main/Ticker.ts:189-197 | a retry is scheduled exactly when the ticker is not suspended |
| Ticker.Ticker.FireRetry | src/main/Ticker.ts:192-195 | the end of a wait runs `connect`, which checks the flag again |
| Ticker.Ticker.OnOpen | src/main/Ticker.ts:199-202 | the socket becomes `Open`; when it is the handle the ticker is open |
| Ticker.Ticker.OnClose | src/main/Ticker.ts:204-211 | as written: the table is emptied, the handle dropped and a retry scheduled for any socket's close; the close of an older socket while a newer one is live leaves a live socket without a handle |
| Ticker.Ticker.OnCloseChecked | src/main/Ticker.ts:204-211 | corrected: only the handle's close resets the ticker, and at most one live socket is kept |
| Ticker.Ticker.Subscribe | src/main/Ticker.ts:118-138 | a command is sent exactly when the socket is open and the key is not in the table, and it names the normalised pair and the interval |
| Ticker.Ticker.Unsubscribe | src/main/Ticker.ts:140-160 | a command is sent exactly when the socket is open and the key is in the table, and it names the normalised pair and the interval |
| Ticker.Ticker.OnMessage | src/main/Ticker.ts:217-228 | the frame is dispatched by its kind and event name, and only a `subscriptionStatus` changes the table, as `AfterAck` states |
| Ticker.StaleCloseScenario | src/main/Ticker.ts:204-211 | suspend, resume, a late close of the first socket and the retry leave the second socket open without a handle while the handle is on a third, still connecting: two live sockets |
| Ticker.StaleCloseCheckedScenario | src/main/Ticker.ts:204-211 | the same events with the corrected close handler keep one open socket as the handle, with no retry pending |
| LegacyTicker.FallbackBase | source/Ticker.ts:137-144 | the requested base if the quote's table has it, else `BTC` if present, else the first key; the result is in the table whenever the table is not empty |
| LegacyTicker.FallbackStable | source/Ticker.ts:137-144 | settling again on a settled base keeps it |
| LegacyTicker.SlotAfterAck | source/Ticker.ts:300-315 | `subscribed` replaces the slot; `unsubscribed` empties it exactly when channel name and pair match the stored ack, and fails on an empty slot |
| LegacyTicker.SubscribeThenUnsubscribe | source/Ticker.ts:300-315 | after a `subscribed` ack, an `unsubscribed` ack clears the slot exactly when it names the same channel and pair, and it never fails |
| LegacyTicker.AtMostOneTimer | source/Ticker.ts:214-227 | when every pending timer is the remembered one, at most one timer is pending |
| LegacyTicker.LegacyTicker.constructor | source/Ticker.ts:55-71 | the saved configuration, no handle, no timer, an empty slot, and neither assets nor a coin map until `loadAssets` |
| LegacyTicker.LegacyTicker.LoadAssets | source/Ticker.ts:73-105 | the assets are set and the coin map is set as `Catalog.BuildCoinMap` states |
| LegacyTicker.LegacyTicker.Connect | source/Ticker.ts:163-173 | a socket is created exactly when there is no handle; the flag is not consulted |
| LegacyTicker.LegacyTicker.Disconnect | source/Ticker.ts:175-187 | as written: with a handle, the socket is terminated and the timer cleared; without one, nothing changes, not even the timer |
| LegacyTicker.LegacyTicker.DisconnectChecked | source/Ticker.ts:175-187 | corrected: the timer is cleared whether or not there is a handle |
| LegacyTicker.LegacyTicker.Resume | source/Ticker.ts:123-126 | the flag is cleared and a handle exists afterwards |
| LegacyTicker.LegacyTicker.Suspend | source/Ticker.ts:128-131 | as written: the flag is set and the handle dropped; with a handle, its socket is terminated (`Closing`) and the timer cleared; without one, the sockets and the timer stay as they were, so a timer armed by an earlier close stays armed |
| LegacyTicker.LegacyTicker.SuspendChecked | source/Ticker.ts:128-131 | corrected: a suspended ticker has neither a handle nor an armed timer |
| LegacyTicker.LegacyTicker.RetryConnection | source/Ticker.ts:214-227 | the old timer is always cleared first; a new timer is armed, and is then the only pending one, exactly when the ticker is not suspended |
| LegacyTicker.LegacyTicker.FireTimer | source/Ticker.ts:222-225 | an expiring timer leaves the pending set and runs `connect` |
| LegacyTicker.LegacyTicker.OnOpen | source/Ticker.ts:229-232 | the socket becomes `Open` |
| LegacyTicker.LegacyTicker.OnClose | source/Ticker.ts:234-241 | the slot is emptied, the handle dropped and the timer replaced |
| LegacyTicker.LegacyTicker.Unsubscribe | source/Ticker.ts:317-330 | a command is sent exactly when the socket is open and the slot holds a truthy `channelID` (0 never counts), and it names that channel |
| LegacyTicker.LegacyTicker.Subscribe | source/Ticker.ts:133-161 | before `loadAssets` the requested pair is stored, the lookup fails (a `TypeError`) and nothing is sent; afterwards the configuration becomes the fallback base and the quote; the `unsubscribe` command, if any, comes first; the new subscription is sent exactly when the socket is open |
| LegacyTicker.LegacyTicker.SystemStatus | source/Ticker.ts:292-298 | an `online` status before `loadAssets` fails in `subscribe`, changing and sending nothing; after it, an `online` status runs the whole `subscribe` of the configured pair: the fallback configuration, nothing sent on a socket that is not open, at most two commands, a leading `unsubscribe` exactly when the slot holds a truthy `channelID`, and the subscription last; other statuses change and send nothing |
| LegacyTicker.LegacyTicker.SubscriptionStatus | source/Ticker.ts:300-315 | the slot becomes the one `SlotAfterAck` gives; when the handler fails on an empty slot, the slot is unchanged |
| LegacyTicker.OnlineBeforeLoadScenario | source/Ticker.ts:133-137 | an `online` status on an open socket before `loadAssets` fails and sends nothing, the configuration kept |
| LegacyTicker.ArmedTimerScenario | source/Ticker.ts:175-187 | a close, then a suspend before the retry fires, gives a timer that connects while the ticker is suspended |
| LegacyTicker.ArmedTimerCheckedScenario | source/Ticker.ts:128-131 | with the corrected suspend, the same events leave the ticker quiet, with nothing armed |
| App.ValidCoins | src/main/App.ts:147 | the kept coins are exactly the requested coins that the quote's table has, and all of them are kept when all are valid |
| App.ValidCoinsAppend | src/main/App.ts:147 | the filter keeps the requested order |
| App.FirstKey | src/main/App.ts:151-152 | the table's first key, or `undefined` for an empty table |
| App.NewBase | src/main/App.ts:147-153 | never empty; the valid coins when there are any, otherwise the first key alone; every base is in the table when the table is not empty |
| App.App.constructor | src/main/App.ts:72-83 | the catalog and the saved configuration; the menu is built once |
| App.App.SetPairs | src/main/App.ts:141-161 | an unchanged request changes nothing and emits nothing; any other request stores the checked bases and the quote and reports the previous and the new configuration; the menu is rebuilt in both cases |
| App.ChoiceExample | src/main/App.ts:147-153 | concrete cases: valid coins kept in order, an invalid choice falling back to the first key, an empty table giving `undefined` |
| TickerSubscriptions.Reject | src/render/ticker/hooks/tickerSubscriptions.ts:20 | the result lists exactly the entries that differ from the pair, and is no longer than the state |
| TickerSubscriptions.RejectCounts | src/render/ticker/hooks/tickerSubscriptions.ts:20 | every copy of the pair goes; every other entry is kept as often as it occurs |
| TickerSubscriptions.RejectAppend | src/render/ticker/hooks/tickerSubscriptions.ts:20 | the kept entries stay in order |
| TickerSubscriptions.RejectAbsent | src/render/ticker/hooks/tickerSubscriptions.ts:20 | removing a pair that is not listed leaves the list unchanged |
| TickerSubscriptions.Reduce | src/render/ticker/hooks/tickerSubscriptions.ts:17-21 | `sub` appends the pair after the unchanged earlier entries; any other type removes the pair and keeps every other entry's count |
| TickerSubscriptions.SubThenUnsub | src/render/ticker/hooks/tickerSubscriptions.ts:17-21 | `sub` then a non-`sub` action of the same pair leaves the earlier list without that pair |
| TickerSubscriptions.Dispatched | src/render/ticker/hooks/tickerSubscriptions.ts:16-22 | the list grows by at most one entry per action, every listed pair was subscribed by some `sub` action, and the pair of a last non-`sub` action is not listed |
| TickerSubscriptions.DispatchedSubUnsub | src/render/ticker/hooks/tickerSubscriptions.ts:16-22 | after `sub` and `unsub` of a pair, whatever came before, the pair is not listed |
| TickerSubscriptions.InsertAfterEqual | src/render/ticker/hooks/tickerSubscriptions.ts:39 | one element is added and nothing else changes in the multiset |
| TickerSubscriptions.SortByBase | src/render/ticker/hooks/tickerSubscriptions.ts:39 | the sort is a permutation of its input |
| TickerSubscriptions.InsertAfterEqualSorted | src/render/ticker/hooks/tickerSubscriptions.ts:39 | insertion keeps the list in base order |
| TickerSubscriptions.SortByBaseSorted | src/render/ticker/hooks/tickerSubscriptions.ts:39 | in the sorted list, no base is below the base of an earlier entry |
| TickerSubscriptions.InsertAfterEqualWithBase | src/render/ticker/hooks/tickerSubscriptions.ts:39 | the inserted entry goes after every entry with the same base |
| TickerSubscriptions.SortByBaseStable | src/render/ticker/hooks/tickerSubscriptions.ts:39 | the sort is stable: the entries of each base keep their order |
| TickerSubscriptions.Displayed | src/render/ticker/hooks/tickerSubscriptions.ts:15-40 | the hook's result is in base order, is a permutation of the reduced list, and keeps the list order within each base |
| Controller.SubscribePair | src/main/main.ts:110-113 | the 1-minute command, then the 15-minute one, each only when the ticker sends it; at most two, all subscribing the normalised pair |
| Controller.UnsubscribePair | src/main/main.ts:115-118 | the same for `unsubscribe` |
| Controller.IssueCalls | src/main/main.ts:225-230 | the commands of a series of calls are those of each call, in order |
| Controller.SubscribePairFresh | src/main/main.ts:110-113 | on an open ticker with an empty table, exactly two commands are sent: 1-minute, then 15-minute |
| Controller.UnsubscribeUnknown | src/main/main.ts:115-118 | unsubscribing a pair the table does not hold sends nothing |
| Controller.OnStatusChange | src/main/main.ts:206-210 | one `subscribePair` per configured base, in order, for `base/quote` |
| Controller.StatusChangeSubscribesAll | src/main/main.ts:206-210 | on a fresh connection, `status-change` sends both channels of every configured pair: twice as many commands as bases, all subscribes, all for configured pairs |
| Controller.Difference | src/main/main.ts:216-223 | lodash `difference`: exactly the entries of the first list that the second lacks, each as often as it occurs |
| Controller.DifferenceAppend | src/main/main.ts:216-223 | `difference` keeps the order of the first list: the difference of a concatenation is the concatenation of the differences |
| Controller.CallsOf | src/main/main.ts:225-230 | the plan's calls: unsubscribes first, then subscribes |
| Controller.IssuePlan | src/main/main.ts:225-230 | the two `forEach` loops issue the plan's calls in order |
| Controller.ConfigChangePlan | src/main/main.ts:214-231 | as written: unsubscribe exactly the removed bases and subscribe exactly the added bases, both paired with the new quote |
| Controller.CommonBasesIssueNothing | src/main/main.ts:214-231 | a base kept by the change gets no call |
| Controller.QuoteOnlyChange | src/main/main.ts:214-231 | for every base list and any two different quotes, changing only the quote issues no call, so the old quote's pairs stay subscribed; for a non-empty list of slash-free bases these differ from the new configuration's pairs |
| Controller.PairPlan | src/main/main.ts:214-231 | corrected: unsubscribe exactly the old configuration's pairs that the new one lacks, and subscribe exactly the new pairs |
| Controller.PairPlanSettles | src/main/main.ts:214-231 | after the corrected plan, the subscribed pairs are exactly the new configuration's |
| Controller.SameQuotePlansAgree | src/main/main.ts:214-231 | while the quote stays the same, the handler's plan is the corrected one and so also settles on the new configuration |
| Controller.RangeReachedSeconds | src/main/main.ts:183-186 | `(end - first)/60 >= 60*24` holds exactly when the new candle ends at least 86400 seconds after the first |
| Controller.WindowAfter | src/main/main.ts:165-188 | an update that is not a newer 15-minute candle leaves the window unchanged; a newer one becomes the last candle, the earlier candles are kept, and exactly one oldest candle is dropped exactly when the range is reached |
| Controller.MessageAfter | src/main/main.ts:164-201 | a stale candle update sends nothing; an appended candle sends the whole window on `candle-update-<base>`; any other update is passed on as `ticker-update-<base>`, lower-cased |
| Controller.WindowAfterIncreasing | src/main/main.ts:172-188 | a window in strictly increasing order of end time stays so |
| Controller.FullDayDropsOldest | src/main/main.ts:183-188 | a candle one day after the first drops the first |
| Controller.SubscribedMessage | src/main/main.ts:234-249 | a 15-minute ack sends the backfill on the base's candle channel; any other ack announces the parsed base and quote of the ack's pair with its interval |
| Controller.UnsubscribedMessage | src/main/main.ts:251-255 | only a non-15-minute ack sends a `ticker-unsubscribe`, and it names the parsed base and quote of the ack's pair |
| Controller.AckAnnouncesCanonicalPair | src/main/main.ts:243-253 | for an ack of `base/quote`, both messages name the canonical base and quote, so an `XBT` ack is listed as `BTC` |
| Controller.AckPairRoundTrip | src/main/main.ts:234-255 | a `subscribed` and then an `unsubscribed` ack of the same channel remove from the renderer's list exactly the pair that was added |
| Controller.CandleWindow.constructor | src/main/main.ts:44 | the window starts empty |
| Controller.CandleWindow.OnUpdate | src/main/main.ts:164-201 | the window and the message are those of `WindowAfter` and `MessageAfter`, and increasing order is kept |
| Controller.CandleWindow.OnSubscribed | src/main/main.ts:234-249 | a 15-minute ack replaces the window by the backfill; the message is that of `SubscribedMessage` |
| Controller.SuspendTicker | src/main/main.ts:101 | the ticker's suspend, logged as one call: no handle afterwards, the old handle's socket `Closing` and every other socket as it was; only the flag, the handle and the sockets may change, so the table of acknowledgements and the pending retries are kept; at most one live socket stays so |
| Controller.ResumeTicker | src/main/main.ts:96 | the ticker's resume, logged as one call: a handle afterwards; without an earlier handle it is a new `Connecting` socket with the next id, otherwise nothing but the flag changes; the table and the pending retries are kept; at most one live socket stays so |
| Controller.SuspendScreen | src/main/main.ts:105 | the screen's suspend, logged as one call: every cell 0 |
| Controller.SuspendKeyboard | src/main/main.ts:104 | the keyboard's suspend, logged as one call: every cell black |
| Controller.CallOutside | src/main/main.ts:91-95 | a call with no modelled state, logged as one call |
| Controller.SuspendAll | src/main/main.ts:100-107 | the calls made, in the log, are ticker, ticker renderer, effect renderer, keyboard, screen, game; afterwards the ticker is in the state `SuspendTicker` states (no handle, the old socket `Closing`, table and retries kept), the screen is all zeros and the keyboard all black |
| Controller.ResumeAll | src/main/main.ts:90-97 | the calls made, in the log, are game, screen, keyboard, effect renderer, ticker renderer, ticker; afterwards the ticker is in the state `ResumeTicker` states (a handle, a new `Connecting` socket only if there was none, table and retries kept) |
| GameSenseScreen.PixelBit | src/main/GameSense/GameSenseScreen.ts:53-57 | the bit is 0 or 1; it is 1 exactly when all three bytes are in the bitmap and add up to at least 384 |
| GameSenseScreen.ScreenAfter | src/main/GameSense/GameSenseScreen.ts:51-59 | the length is kept, and a buffer of 0/1 cells stays 0/1 |
| GameSenseScreen.RowCol | src/main/GameSense/GameSenseScreen.ts:54 | cell `y*width + x` lies in row `y`, column `x` |
| GameSenseScreen.ScreenAfterIdempotent | src/main/GameSense/GameSenseScreen.ts:51-59 | painting the same rectangle and image twice gives the same result as painting it once |
| GameSenseScreen.ScreenAfterEmptyImage | src/main/GameSense/GameSenseScreen.ts:76-86 | a full-screen paint with an empty image blanks every cell |
| GameSenseScreen.Screen.constructor | src/main/GameSense/GameSenseScreen.ts:12-16 | `width * height` cells, all zero |
| GameSenseScreen.Screen.Update | src/main/GameSense/GameSenseScreen.ts:45-59 | cells stay 0/1; for a rectangle within the width, the cells inside it take the pixel's bit (pixel at `y*width*4 + x*4`) and every other cell is unchanged |
| GameSenseScreen.Screen.Clear | src/main/GameSense/GameSenseScreen.ts:76-86 | every cell becomes 0 |
| GameSenseScreen.Screen.Suspend | src/main/GameSense/GameSenseScreen.ts:35-43 | every cell becomes 0 |
| GameSenseKeyboard.ByteAt | src/main/GameSense/GameSenseKeyboard.ts:65-69 | a byte inside the bitmap is read as itself; outside, it is `undefined` |
| GameSenseKeyboard.KeyboardAfter | src/main/GameSense/GameSenseKeyboard.ts:58-71 | one colour per cell, whatever was there before |
| GameSenseKeyboard.CellAtReorders | src/main/GameSense/GameSenseKeyboard.ts:65-69 | a pixel inside the bitmap becomes red, green and blue from BGRA; alpha is dropped |
| GameSenseKeyboard.KeyboardCell | src/main/GameSense/GameSenseKeyboard.ts:61-69 | the loop step at row `y`, column `x` writes cell `y*width + x` with the pixel at `y*imgWidth*4 + x*4` |
| GameSenseKeyboard.Keyboard.constructor | src/main/GameSense/GameSenseKeyboard.ts:9-15 | `width * height` black cells with GameSense, no cells without it |
| GameSenseKeyboard.Keyboard.Update | src/main/GameSense/GameSenseKeyboard.ts:52-71 | with GameSense, every cell is overwritten from the image as `KeyboardAfter` states and the rectangle is ignored; without it, nothing changes |
| GameSenseKeyboard.Keyboard.Clear | src/main/GameSense/GameSenseKeyboard.ts:99-106 | every cell becomes `[0, 0, 0]`; without GameSense nothing changes |
| GameSenseKeyboard.Keyboard.Suspend | src/main/GameSense/GameSenseKeyboard.ts:40-50 | every cell becomes `[0, 0, 0]` |

## Left out

- The WebSocket transport, the REST clients, JSON encoding, logging, the GameSense HTTP posts and the `bitwise/buffer` bit packing are left out as I/O. The `connected`/`closed`/`heartbeat`/status events are left out as emissions with no state behind them.
- Timing and concurrency: the 2-second wait is a pending step. Promise interleavings are not modelled; every handler runs to completion before the next event.
- Floating point: prices stay the decimal text the exchange sends, and end times are integers. Only the range test converts to `real`, as the source's division does. `diff`/`delta` and price formatting are not modelled.
- `parseInt` is modelled for decimal text, with the `0x` prefix and sign handling; other radix edge cases are not. `toLowerCase` lowers ASCII letters only. Strings are sequences of characters compared one character at a time; JavaScript compares UTF-16 code units.
- lodash `has` treats a key with `.` or `[` as a path. The model treats every key as a plain key. Exchange symbols never contain those characters.
- `invoke` of an event name that names another member of the ticker (not a handler) is classified as ignored.
- A missing value printed by a template string is modelled as the text `undefined`.
- An object's key order puts integer-like keys first. The model keeps the keys of the coin map in sorted order; exchange symbols are not integer-like.
- Catalog.BuildCoinMap: `mapKeys` keeps the last asset for a repeated base. The model keeps only the base list, which is all that the core reads.
- GameSenseScreen.Screen.Update: the exact contents are stated only for a rectangle within the screen's width. A wider rectangle writes wrapped cells, which the model allows but does not describe. Cells stay 0/1 in every case.
- GameSenseKeyboard.Keyboard: without GameSense the source never allocates the matrix. The model gives it no cells.
- Controller.SubscribedMessage: the `ticker-subscribe` payload's `interval` is carried in the message. The renderer's list entry keeps only base and quote, which are all that `reject` compares.
- Controller.CandleWindow.OnSubscribed: the `getCandles` backfill, including its REST calls and its `sortBy` on end time, is a parameter.
- Tray menu, icons, renderer windows and config file load/save are left out as UI and file I/O. `setPairs` counts menu rebuilds instead.
- The `app/*.js` compiled copies and `src/Ticker.ts` are left out as duplicates or as delegating to a reconnecting socket library. So are the threshold loops in the other GameSense files; they repeat `GameSenseScreen.update`.

## Findings

| source | as written | input that shows it | evidently intended | confidence | as-written member | corrected member |
|---|---|---|---|---|---|---|
| source/Ticker.ts:128-131, source/Ticker.ts:175-187, source/Ticker.ts:214-227 | `disconnect` clears the reconnect timer only when a handle exists | the socket closes (so `onClose` arms a retry and drops the handle), then a suspend comes before the retry fires: the timer stays armed and connects while suspended | suspend leaves no timer armed | medium, not executed | LegacyTicker.LegacyTicker.Suspend, LegacyTicker.ArmedTimerScenario | LegacyTicker.LegacyTicker.SuspendChecked, LegacyTicker.LegacyTicker.DisconnectChecked |
| src/main/Ticker.ts:181-187, src/main/Ticker.ts:204-211 | `onClose` resets the ticker for the close of any socket | suspend and resume in quick succession; the terminated first socket reports its close after the second socket opened: the open socket loses its handle and the retry opens a third | only the current socket's close resets the ticker | low, not executed | Ticker.Ticker.OnClose, Ticker.StaleCloseScenario | Ticker.Ticker.OnCloseChecked, Ticker.StaleCloseCheckedScenario |
| src/main/main.ts:214-231 | the diff compares base lists only and pairs every call with the new quote | base list `["BTC"]` with the quote changed from `USD` to `EUR`: no call at all, `BTC/USD` stays subscribed, `BTC/EUR` is never subscribed | the subscribed pairs become the new configuration's | medium, not executed | Controller.ConfigChangePlan, Controller.QuoteOnlyChange | Controller.PairPlan, Controller.PairPlanSettles |
