/** The wiring of the main process, src/main/main.ts: the handlers that
    turn configuration changes and server status into ticker subscriptions,
    the rolling window of 15-minute candles sent to the ticker renderer, and
    the order in which the services are suspended and resumed. A message to
    the renderer is a returned value; the REST backfill of `getCandles` is a
    parameter. */
module Controller {
  import opened Wrappers
  import opened Text
  import Utils
  import opened Kraken
  import Ticker
  import App
  import TickerSubscriptions
  import GameSenseScreen
  import GameSenseKeyboard

  /** The candle channel's interval, and the span of candles kept. */
  const CANDLE_INTERVAL_MINUTES: int := 15
  const CANDLE_RANGE_MINUTES: int := 60 * 24

  // ---------------------------------------------------------------------
  // subscribePair / unsubscribePair

  /** `subscribePair(pair)` or `unsubscribePair(pair)` as the handlers call them. */
  datatype PairCall = SubscribePairCall(pair: string) | UnsubscribePairCall(pair: string)

  function When(c: bool, cmd: Command): (r: seq<Command>)
    ensures c <==> r == [cmd]
    ensures !c <==> r == []
  {
    if c then [cmd] else []
  }

  /** What the ticker sends for one call: the command of the 1-minute and
      that of the 15-minute channel, each only when the socket is open and
      the table says it is needed. */
  function PairCommands(open: bool, table: Ticker.Table, call: PairCall): seq<Command> {
    match call
    case SubscribePairCall(pair) =>
      When(open && Ticker.SubscriptionKey(pair, 1) !in table,
           Command(SubscribeEvent.Subscribe, Utils.NormalizePair(pair), 1))
      + When(open && Ticker.SubscriptionKey(pair, CANDLE_INTERVAL_MINUTES) !in table,
             Command(SubscribeEvent.Subscribe, Utils.NormalizePair(pair), CANDLE_INTERVAL_MINUTES))
    case UnsubscribePairCall(pair) =>
      When(open && Ticker.SubscriptionKey(pair, 1) in table,
           Command(SubscribeEvent.Unsubscribe, Utils.NormalizePair(pair), 1))
      + When(open && Ticker.SubscriptionKey(pair, CANDLE_INTERVAL_MINUTES) in table,
             Command(SubscribeEvent.Unsubscribe, Utils.NormalizePair(pair), CANDLE_INTERVAL_MINUTES))
  }

  /** The lists of commands of a series of calls, one list per call. */
  function Batches(open: bool, table: Ticker.Table, calls: seq<PairCall>): (r: seq<seq<Command>>)
    ensures |r| == |calls|
    ensures forall i :: 0 <= i < |calls| ==> r[i] == PairCommands(open, table, calls[i])
  {
    seq(|calls|, i requires 0 <= i < |calls| => PairCommands(open, table, calls[i]))
  }

  /** The lists one after the other. */
  function Flatten(parts: seq<seq<Command>>): seq<Command>
  {
    if parts == [] then []
    else Flatten(parts[..|parts| - 1]) + parts[|parts| - 1]
  }

  /** A command of one of the lists is in the flattened list. */
  lemma {:induction false} FlattenHas(parts: seq<seq<Command>>, k: int, c: Command)
    requires 0 <= k < |parts| && c in parts[k]
    ensures c in Flatten(parts)
  {
    var n := |parts| - 1;
    if k < n {
      assert parts[..n][k] == parts[k];
      FlattenHas(parts[..n], k, c);
    }
  }

  /** Every command of the flattened list comes from one of the lists. */
  lemma {:induction false} FlattenFrom(parts: seq<seq<Command>>, c: Command) returns (k: nat)
    requires c in Flatten(parts)
    ensures k < |parts| && c in parts[k]
  {
    var n := |parts| - 1;
    if c in parts[n] {
      k := n;
    } else {
      k := FlattenFrom(parts[..n], c);
      assert parts[..n][k] == parts[k];
    }
  }

  /** Lists of two commands each flatten to twice as many commands. */
  lemma {:induction false} FlattenPairs(parts: seq<seq<Command>>)
    requires forall k :: 0 <= k < |parts| ==> |parts[k]| == 2
    ensures |Flatten(parts)| == 2 * |parts|
  {
    if parts != [] {
      var n := |parts| - 1;
      assert forall k :: 0 <= k < n ==> parts[..n][k] == parts[k];
      FlattenPairs(parts[..n]);
    }
  }

  /** The commands of a series of calls, in order. */
  function CommandsOf(open: bool, table: Ticker.Table, calls: seq<PairCall>): seq<Command>
  {
    Flatten(Batches(open, table, calls))
  }

  /** A call sends at most two commands, all of its own kind and for its
      normalised pair. */
  lemma PairCommandsShape(open: bool, table: Ticker.Table, call: PairCall)
    ensures |PairCommands(open, table, call)| <= 2
    ensures forall c :: c in PairCommands(open, table, call) ==>
      c.event == (if call.SubscribePairCall? then SubscribeEvent.Subscribe else SubscribeEvent.Unsubscribe)
      && c.pair == Utils.NormalizePair(call.pair)
  {
    var event := if call.SubscribePairCall? then SubscribeEvent.Subscribe else SubscribeEvent.Unsubscribe;
    var first := Command(event, Utils.NormalizePair(call.pair), 1);
    var second := Command(event, Utils.NormalizePair(call.pair), CANDLE_INTERVAL_MINUTES);
    var sent := PairCommands(open, table, call);
    assert exists b1: bool, b2: bool :: sent == When(b1, first) + When(b2, second);
    forall c | c in sent
      ensures c == first || c == second
    {
      var b1: bool, b2: bool :| sent == When(b1, first) + When(b2, second);
      assert c in When(b1, first) || c in When(b2, second);
    }
  }

  /** `subscribePair`: `subscribe(pair, 1)`, then `subscribe(pair, 15)`. */
  method SubscribePair(t: Ticker.Ticker, pair: string) returns (sent: seq<Command>)
    ensures sent == PairCommands(t.IsOpen(), t.subscription, SubscribePairCall(pair))
    ensures |sent| <= 2
    ensures forall c :: c in sent ==> c.event == SubscribeEvent.Subscribe && c.pair == Utils.NormalizePair(pair)
  {
    var one := t.Subscribe(pair, 1);
    var candles := t.Subscribe(pair, CANDLE_INTERVAL_MINUTES);
    sent := (if one.Some? then [one.value] else []) + (if candles.Some? then [candles.value] else []);
    PairCommandsShape(t.IsOpen(), t.subscription, SubscribePairCall(pair));
  }

  /** `unsubscribePair`: `unsubscribe(pair, 1)`, then `unsubscribe(pair, 15)`. */
  method UnsubscribePair(t: Ticker.Ticker, pair: string) returns (sent: seq<Command>)
    ensures sent == PairCommands(t.IsOpen(), t.subscription, UnsubscribePairCall(pair))
    ensures |sent| <= 2
    ensures forall c :: c in sent ==> c.event == SubscribeEvent.Unsubscribe && c.pair == Utils.NormalizePair(pair)
  {
    var one := t.Unsubscribe(pair, 1);
    var candles := t.Unsubscribe(pair, CANDLE_INTERVAL_MINUTES);
    sent := (if one.Some? then [one.value] else []) + (if candles.Some? then [candles.value] else []);
    PairCommandsShape(t.IsOpen(), t.subscription, UnsubscribePairCall(pair));
  }

  /** One call. */
  method IssueCall(t: Ticker.Ticker, call: PairCall) returns (sent: seq<Command>)
    ensures sent == PairCommands(t.IsOpen(), t.subscription, call)
  {
    match call {
      case SubscribePairCall(pair) =>
        sent := SubscribePair(t, pair);
      case UnsubscribePairCall(pair) =>
        sent := UnsubscribePair(t, pair);
    }
  }

  /** One call more sends its commands after those of the earlier calls. */
  lemma CommandsOfPrefix(open: bool, table: Ticker.Table, calls: seq<PairCall>, i: int)
    requires 0 <= i < |calls|
    ensures CommandsOf(open, table, calls[..i + 1]) == CommandsOf(open, table, calls[..i]) + PairCommands(open, table, calls[i])
  {
    var before, after := Batches(open, table, calls[..i]), Batches(open, table, calls[..i + 1]);
    assert after[..i] == before;
    assert after[i] == PairCommands(open, table, calls[i]);
  }

  /** The calls of a handler carried out one after the other. The ticker's
      table changes only on acknowledgements, so every call sees the same
      table. */
  method IssueCalls(t: Ticker.Ticker, calls: seq<PairCall>) returns (sent: seq<Command>)
    ensures sent == CommandsOf(t.IsOpen(), t.subscription, calls)
  {
    ghost var open, table := t.IsOpen(), t.subscription;
    sent := [];
    var i := 0;
    while i < |calls|
      invariant 0 <= i <= |calls|
      invariant sent == CommandsOf(open, table, calls[..i])
    {
      var more := IssueCall(t, calls[i]);
      CommandsOfPrefix(open, table, calls, i);
      sent := sent + more;
      i := i + 1;
    }
    assert calls[..i] == calls;
  }

  /** Subscribing one pair on an open socket with an empty table sends both
      channels, the 1-minute one first. */
  lemma SubscribePairFresh(pair: string)
    ensures PairCommands(true, map[], SubscribePairCall(pair))
         == [Command(SubscribeEvent.Subscribe, Utils.NormalizePair(pair), 1),
             Command(SubscribeEvent.Subscribe, Utils.NormalizePair(pair), CANDLE_INTERVAL_MINUTES)]
  {
  }

  /** Unsubscribing a pair the table does not hold sends nothing. */
  lemma UnsubscribeUnknown(open: bool, table: Ticker.Table, pair: string)
    requires Ticker.SubscriptionKey(pair, 1) !in table
    requires Ticker.SubscriptionKey(pair, CANDLE_INTERVAL_MINUTES) !in table
    ensures PairCommands(open, table, UnsubscribePairCall(pair)) == []
  {
  }

  // ---------------------------------------------------------------------
  // status-change

  /** `status-change`: `subscribePair(`${base}/${quote}`)` for every
      configured base, in order. */
  method OnStatusChange(bases: seq<string>, quote: string) returns (calls: seq<PairCall>)
    ensures |calls| == |bases|
    ensures forall i :: 0 <= i < |bases| ==> calls[i] == SubscribePairCall(bases[i] + "/" + quote)
  {
    calls := [];
    var i := 0;
    while i < |bases|
      invariant 0 <= i <= |bases|
      invariant |calls| == i
      invariant forall k :: 0 <= k < i ==> calls[k] == SubscribePairCall(bases[k] + "/" + quote)
    {
      calls := calls + [SubscribePairCall(bases[i] + "/" + quote)];
      i := i + 1;
    }
  }

  /** A command one of the calls sends is among the commands of the series. */
  lemma CommandsOfHas(open: bool, table: Ticker.Table, calls: seq<PairCall>, k: int, c: Command)
    requires 0 <= k < |calls| && c in PairCommands(open, table, calls[k])
    ensures c in CommandsOf(open, table, calls)
  {
    FlattenHas(Batches(open, table, calls), k, c);
  }

  /** Every command of the series is sent by one of the calls. */
  lemma CommandsOfFrom(open: bool, table: Ticker.Table, calls: seq<PairCall>, c: Command) returns (k: nat)
    requires c in CommandsOf(open, table, calls)
    ensures k < |calls| && c in PairCommands(open, table, calls[k])
  {
    k := FlattenFrom(Batches(open, table, calls), c);
  }

  /** On a fresh connection every subscribe call sends two commands. */
  lemma FreshSubscribesLength(calls: seq<PairCall>)
    requires forall k :: 0 <= k < |calls| ==> calls[k].SubscribePairCall?
    ensures |CommandsOf(true, map[], calls)| == 2 * |calls|
  {
    var parts := Batches(true, map[], calls);
    forall k | 0 <= k < |calls| ensures |parts[k]| == 2 {
      SubscribePairFresh(calls[k].pair);
    }
    FlattenPairs(parts);
  }

  /** On a fresh connection both channels of every configured pair are sent. */
  lemma FreshSendsEveryPair(calls: seq<PairCall>, bases: seq<string>, quote: string, i: int)
    requires |calls| == |bases| && 0 <= i < |bases|
    requires calls[i] == SubscribePairCall(bases[i] + "/" + quote)
    ensures Command(SubscribeEvent.Subscribe, Utils.NormalizePair(bases[i] + "/" + quote), 1) in CommandsOf(true, map[], calls)
    ensures Command(SubscribeEvent.Subscribe, Utils.NormalizePair(bases[i] + "/" + quote), CANDLE_INTERVAL_MINUTES)
            in CommandsOf(true, map[], calls)
  {
    var pair := bases[i] + "/" + quote;
    SubscribePairFresh(pair);
    CommandsOfHas(true, map[], calls, i, Command(SubscribeEvent.Subscribe, Utils.NormalizePair(pair), 1));
    CommandsOfHas(true, map[], calls, i, Command(SubscribeEvent.Subscribe, Utils.NormalizePair(pair), CANDLE_INTERVAL_MINUTES));
  }

  /** On a fresh connection every command sent subscribes a configured pair. */
  lemma FreshSendsOnlyConfigured(calls: seq<PairCall>, bases: seq<string>, quote: string, c: Command) returns (k: nat)
    requires |calls| == |bases|
    requires forall i :: 0 <= i < |bases| ==> calls[i] == SubscribePairCall(bases[i] + "/" + quote)
    requires c in CommandsOf(true, map[], calls)
    ensures k < |bases| && c.event == SubscribeEvent.Subscribe && c.pair == Utils.NormalizePair(bases[k] + "/" + quote)
  {
    k := CommandsOfFrom(true, map[], calls, c);
    assert calls[k] == SubscribePairCall(bases[k] + "/" + quote);
    SubscribePairFresh(bases[k] + "/" + quote);
  }

  /** On a fresh connection (open, nothing acknowledged yet), the calls of
      `status-change` send both channels of every configured pair and
      nothing else. */
  lemma StatusChangeSubscribesAll(calls: seq<PairCall>, bases: seq<string>, quote: string)
    requires |calls| == |bases|
    requires forall i :: 0 <= i < |bases| ==> calls[i] == SubscribePairCall(bases[i] + "/" + quote)
    ensures |CommandsOf(true, map[], calls)| == 2 * |bases|
    ensures forall i :: 0 <= i < |bases| ==>
      Command(SubscribeEvent.Subscribe, Utils.NormalizePair(bases[i] + "/" + quote), 1) in CommandsOf(true, map[], calls)
      && Command(SubscribeEvent.Subscribe, Utils.NormalizePair(bases[i] + "/" + quote), CANDLE_INTERVAL_MINUTES)
         in CommandsOf(true, map[], calls)
    ensures forall c :: c in CommandsOf(true, map[], calls) ==>
      c.event == SubscribeEvent.Subscribe
      && exists i :: 0 <= i < |bases| && c.pair == Utils.NormalizePair(bases[i] + "/" + quote)
  {
    FreshSubscribesLength(calls);
    forall i | 0 <= i < |bases|
      ensures Command(SubscribeEvent.Subscribe, Utils.NormalizePair(bases[i] + "/" + quote), 1) in CommandsOf(true, map[], calls)
      ensures Command(SubscribeEvent.Subscribe, Utils.NormalizePair(bases[i] + "/" + quote), CANDLE_INTERVAL_MINUTES)
              in CommandsOf(true, map[], calls)
    {
      FreshSendsEveryPair(calls, bases, quote, i);
    }
    forall c: Command | c in CommandsOf(true, map[], calls)
      ensures c.event == SubscribeEvent.Subscribe
      ensures exists i :: 0 <= i < |bases| && c.pair == Utils.NormalizePair(bases[i] + "/" + quote)
    {
      var k := FreshSendsOnlyConfigured(calls, bases, quote, c);
    }
  }

  // ---------------------------------------------------------------------
  // config-change

  /** lodash `difference(a, b)`: the entries of `a` that `b` lacks, in the
      order of `a` and as often as they occur there. */
  function Difference(a: seq<string>, b: seq<string>): (r: seq<string>)
    ensures |r| <= |a|
    ensures forall x :: x in r <==> x in a && x !in b
    ensures forall x :: multiset(r)[x] == if x in b then 0 else multiset(a)[x]
  {
    if a == [] then []
    else
      assert a == [a[0]] + a[1..];
      (if a[0] in b then [] else [a[0]]) + Difference(a[1..], b)
  }

  /** One step of `Difference`: the first entry is kept exactly when `b`
      lacks it. */
  lemma DifferenceCons(x: string, rest: seq<string>, b: seq<string>)
    ensures Difference([x] + rest, b) == (if x in b then [] else [x]) + Difference(rest, b)
  {
    assert ([x] + rest)[0] == x && ([x] + rest)[1..] == rest;
  }

  lemma SplitHead(a: seq<string>, c: seq<string>)
    requires a != []
    ensures a == [a[0]] + a[1..] && a + c == [a[0]] + (a[1..] + c)
  {
  }

  lemma AppendAssoc(h: seq<string>, d: seq<string>, e: seq<string>)
    ensures h + (d + e) == (h + d) + e
  {
  }

  /** The step of `DifferenceAppend` from the tail of `a` to `a`. */
  lemma DifferenceAppendStep(a: seq<string>, c: seq<string>, b: seq<string>)
    requires a != []
    requires Difference(a[1..] + c, b) == Difference(a[1..], b) + Difference(c, b)
    ensures Difference(a + c, b) == Difference(a, b) + Difference(c, b)
  {
    SplitHead(a, c);
    DifferenceCons(a[0], a[1..] + c, b);
    DifferenceCons(a[0], a[1..], b);
    AppendAssoc(if a[0] in b then [] else [a[0]], Difference(a[1..], b), Difference(c, b));
  }

  /** `Difference` keeps the order of its first argument: the difference of
      a concatenation is the concatenation of the differences. */
  lemma {:induction false} DifferenceAppend(a: seq<string>, c: seq<string>, b: seq<string>)
    ensures Difference(a + c, b) == Difference(a, b) + Difference(c, b)
  {
    if a == [] {
      assert a + c == c;
    } else {
      DifferenceAppend(a[1..], c, b);
      DifferenceAppendStep(a, c, b);
    }
  }

  /** `${base}/${quote}` for every base. */
  function Suffixed(bases: seq<string>, quote: string): (r: seq<string>)
    ensures |r| == |bases|
    ensures forall i :: 0 <= i < |bases| ==> r[i] == bases[i] + "/" + quote
  {
    if bases == [] then [] else [bases[0] + "/" + quote] + Suffixed(bases[1..], quote)
  }

  /** The pairs to unsubscribe, then the pairs to subscribe. */
  datatype Plan = Plan(unsubscribe: seq<string>, subscribe: seq<string>)

  /** The calls of a plan, in order. */
  function CallsOf(plan: Plan): (calls: seq<PairCall>)
    ensures |calls| == |plan.unsubscribe| + |plan.subscribe|
  {
    seq(|plan.unsubscribe|, i requires 0 <= i < |plan.unsubscribe| => UnsubscribePairCall(plan.unsubscribe[i]))
    + seq(|plan.subscribe|, i requires 0 <= i < |plan.subscribe| => SubscribePairCall(plan.subscribe[i]))
  }

  /** The two `forEach` loops of `config-change`. */
  method IssuePlan(plan: Plan) returns (calls: seq<PairCall>)
    ensures calls == CallsOf(plan)
  {
    calls := [];
    var i := 0;
    while i < |plan.unsubscribe|
      invariant 0 <= i <= |plan.unsubscribe| && |calls| == i
      invariant forall k :: 0 <= k < i ==> calls[k] == UnsubscribePairCall(plan.unsubscribe[k])
    {
      calls := calls + [UnsubscribePairCall(plan.unsubscribe[i])];
      i := i + 1;
    }
    var unsubscribes := |calls|;
    var j := 0;
    while j < |plan.subscribe|
      invariant 0 <= j <= |plan.subscribe| && |calls| == unsubscribes + j
      invariant forall k :: 0 <= k < unsubscribes ==> calls[k] == UnsubscribePairCall(plan.unsubscribe[k])
      invariant forall k :: 0 <= k < j ==> calls[unsubscribes + k] == SubscribePairCall(plan.subscribe[k])
    {
      calls := calls + [SubscribePairCall(plan.subscribe[j])];
      j := j + 1;
    }
  }

  /** The plan of `config-change` as written: the removed and the added
      bases, both paired with the new quote. */
  function ConfigChangePlan(from: App.AppConfig, to: App.AppConfig): (plan: Plan)
    ensures forall p :: p in plan.unsubscribe <==>
      exists b :: b in from.base && b !in to.base && p == b + "/" + to.quote
    ensures forall p :: p in plan.subscribe <==>
      exists b :: b in to.base && b !in from.base && p == b + "/" + to.quote
  {
    var removed := Difference(from.base, to.base);
    var added := Difference(to.base, from.base);
    var plan := Plan(Suffixed(removed, to.quote), Suffixed(added, to.quote));
    assert forall p :: p in plan.unsubscribe ==> exists b :: b in removed && p == b + "/" + to.quote;
    assert forall p :: p in plan.subscribe ==> exists b :: b in added && p == b + "/" + to.quote;
    assert forall b :: b in removed ==> b + "/" + to.quote in plan.unsubscribe;
    assert forall b :: b in added ==> b + "/" + to.quote in plan.subscribe;
    plan
  }

  /** The pairs a configuration displays. */
  function PairsOf(c: App.AppConfig): set<string> {
    set p | p in Suffixed(c.base, c.quote)
  }

  /** The set of subscribed pairs once a plan has been carried out. */
  function Settle(subscribed: set<string>, plan: Plan): set<string> {
    (subscribed - set p | p in plan.unsubscribe) + set p | p in plan.subscribe
  }

  lemma SuffixInjective(a: string, b: string, quote: string)
    requires a + "/" + quote == b + "/" + quote
    ensures a == b
  {
    assert |a| == |b|;
    assert a == (a + "/" + quote)[..|a|];
    assert b == (b + "/" + quote)[..|b|];
  }

  /** A base in both configurations, under one quote, has no call. */
  lemma CommonBasesIssueNothing(from: App.AppConfig, to: App.AppConfig, base: string)
    requires base in from.base && base in to.base
    ensures base + "/" + to.quote !in ConfigChangePlan(from, to).unsubscribe
    ensures base + "/" + to.quote !in ConfigChangePlan(from, to).subscribe
  {
    var plan := ConfigChangePlan(from, to);
    if base + "/" + to.quote in plan.unsubscribe {
      var b :| b in from.base && b !in to.base && base + "/" + to.quote == b + "/" + to.quote;
      SuffixInjective(base, b, to.quote);
    }
    if base + "/" + to.quote in plan.subscribe {
      var b :| b in to.base && b !in from.base && base + "/" + to.quote == b + "/" + to.quote;
      SuffixInjective(base, b, to.quote);
    }
  }

  /** Two pair texts with slash-free bases are equal only when base and
      quote both agree. */
  lemma SlashPairInjective(a: string, q: string, b: string, r: string)
    requires '/' !in a && '/' !in b && a + "/" + q == b + "/" + r
    ensures a == b && q == r
  {
    SplitAt(a, q, '/');
    SplitAt(b, r, '/');
    assert [a] + Split(q, '/') == [b] + Split(r, '/');
    assert Split(q, '/') == ([a] + Split(q, '/'))[1..];
    assert Split(r, '/') == ([b] + Split(r, '/'))[1..];
  }

  /** A base list with no `/` in any base. */
  predicate SlashFree(bases: seq<string>) {
    forall i :: 0 <= i < |bases| ==> '/' !in bases[i]
  }

  /** Changing only the quote issues no call at all: the handler keeps the
      old quote's pairs subscribed, and, for a non-empty base list of
      slash-free symbols, these are not the new configuration's pairs. */
  lemma QuoteOnlyChange(bases: seq<string>, oldQuote: string, newQuote: string)
    requires oldQuote != newQuote
    ensures ConfigChangePlan(App.AppConfig(bases, oldQuote), App.AppConfig(bases, newQuote)) == Plan([], [])
    ensures Settle(PairsOf(App.AppConfig(bases, oldQuote)), Plan([], [])) == PairsOf(App.AppConfig(bases, oldQuote))
    ensures bases != [] && SlashFree(bases) ==>
      PairsOf(App.AppConfig(bases, oldQuote)) != PairsOf(App.AppConfig(bases, newQuote))
  {
    if bases != [] && SlashFree(bases) {
      var p := bases[0] + "/" + oldQuote;
      assert Suffixed(bases, oldQuote)[0] == p;
      if p in PairsOf(App.AppConfig(bases, newQuote)) {
        var k :| 0 <= k < |bases| && Suffixed(bases, newQuote)[k] == p;
        SlashPairInjective(bases[0], oldQuote, bases[k], newQuote);
        assert false;
      }
    }
  }

  /** The plan the handler evidently intends: the pairs of the old
      configuration that the new one lacks, each under its own quote, and
      the pairs of the new one that the old one lacked. */
  function PairPlan(from: App.AppConfig, to: App.AppConfig): (plan: Plan)
    ensures forall p :: p in plan.unsubscribe <==> p in PairsOf(from) && p !in PairsOf(to)
    ensures forall p :: p in plan.subscribe <==> p in PairsOf(to) && p !in PairsOf(from)
  {
    var before, after := Suffixed(from.base, from.quote), Suffixed(to.base, to.quote);
    Plan(Difference(before, after), Difference(after, before))
  }

  /** Carrying out the corrected plan leaves exactly the new configuration's
      pairs subscribed. */
  lemma PairPlanSettles(from: App.AppConfig, to: App.AppConfig)
    ensures Settle(PairsOf(from), PairPlan(from, to)) == PairsOf(to)
  {
    var plan := PairPlan(from, to);
    var settled := Settle(PairsOf(from), plan);
    forall p ensures p in settled <==> p in PairsOf(to) {
      assert p in plan.unsubscribe <==> p in PairsOf(from) && p !in PairsOf(to);
      assert p in plan.subscribe <==> p in PairsOf(to) && p !in PairsOf(from);
    }
  }

  lemma {:induction false} DifferenceSuffixed(a: seq<string>, b: seq<string>, quote: string)
    ensures Difference(Suffixed(a, quote), Suffixed(b, quote)) == Suffixed(Difference(a, b), quote)
  {
    if a != [] {
      DifferenceSuffixed(a[1..], b, quote);
      var x := a[0] + "/" + quote;
      assert Suffixed(a, quote)[1..] == Suffixed(a[1..], quote);
      if x in Suffixed(b, quote) {
        var k :| 0 <= k < |b| && Suffixed(b, quote)[k] == x;
        SuffixInjective(a[0], b[k], quote);
      }
      assert x in Suffixed(b, quote) <==> a[0] in b;
    }
  }

  /** While the quote is unchanged the handler's plan is the corrected one,
      and it leaves exactly the new configuration's pairs subscribed. */
  lemma SameQuotePlansAgree(from: App.AppConfig, to: App.AppConfig)
    requires from.quote == to.quote
    ensures ConfigChangePlan(from, to) == PairPlan(from, to)
    ensures Settle(PairsOf(from), ConfigChangePlan(from, to)) == PairsOf(to)
  {
    DifferenceSuffixed(from.base, to.base, to.quote);
    DifferenceSuffixed(to.base, from.base, to.quote);
    PairPlanSettles(from, to);
  }

  // ---------------------------------------------------------------------
  // messages to the ticker renderer

  /** A candle of the window: its end time in seconds and its prices. */
  datatype Candle = Candle(endtime: int, prices: Prices)

  datatype RendererMessage =
    | CandleMessage(channel: string, candles: seq<Candle>)            // `candle-update-<base>`
    | TickerMessage(channel: string, update: TickerUpdate)            // `ticker-update-<base>`
    | TickerSubscribeMessage(pair: TickerSubscriptions.TickerPair, interval: int)
    | TickerUnsubscribeMessage(pair: TickerSubscriptions.TickerPair)

  function CandleOf(u: TickerUpdate): Candle {
    Candle(u.endtime, u.prices)
  }

  /** Strictly increasing end times. */
  predicate Increasing(data: seq<Candle>) {
    forall i, j :: 0 <= i < j < |data| ==> data[i].endtime < data[j].endtime
  }

  /** `(endtime - first.endtime) / 60 >= CANDLE_RANGE_MINUTES`, on numbers. */
  predicate RangeReached(first: int, endtime: int) {
    ((endtime - first) as real) / 60.0 >= CANDLE_RANGE_MINUTES as real
  }

  /** The range is reached once the new candle ends a full day after the
      first one. */
  lemma RangeReachedSeconds(first: int, endtime: int)
    ensures RangeReached(first, endtime) <==> endtime - first >= CANDLE_RANGE_MINUTES * 60
  {
  }

  /** An update that `update` appends to the window: a candle update while
      the window is not empty, newer than its last candle. */
  predicate Appends(data: seq<Candle>, u: TickerUpdate) {
    data != [] && u.interval == Some(CANDLE_INTERVAL_MINUTES) && u.endtime > data[|data| - 1].endtime
  }

  /** The window after `update`. */
  function WindowAfter(data: seq<Candle>, u: TickerUpdate): (r: seq<Candle>)
    ensures !Appends(data, u) ==> r == data
    ensures Appends(data, u) ==>
      |r| >= 1 && r[|r| - 1] == CandleOf(u)
      && (|r| == |data| <==> RangeReached(data[0].endtime, u.endtime))
      && (|r| == |data| + 1 || |r| == |data|)
      && r[..|r| - 1] == data[|data| + 1 - |r|..]
  {
    if Appends(data, u) then
      var grown := data + [CandleOf(u)];
      if RangeReached(data[0].endtime, u.endtime) then grown[1..] else grown
    else data
  }

  /** The message `update` sends: a candle update that the window takes
      sends the whole window, a stale one sends nothing, and every other
      update is passed on. */
  function MessageAfter(data: seq<Candle>, u: TickerUpdate): (m: Option<RendererMessage>)
    ensures m.None? <==> data != [] && u.interval == Some(CANDLE_INTERVAL_MINUTES) && !Appends(data, u)
    ensures Appends(data, u) ==>
      m == Some(CandleMessage(ToLower("candle-update-" + u.base), WindowAfter(data, u)))
    ensures data == [] || u.interval != Some(CANDLE_INTERVAL_MINUTES) ==>
      m == Some(TickerMessage(ToLower("ticker-update-" + u.base), u))
  {
    if data != [] && u.interval == Some(CANDLE_INTERVAL_MINUTES) then
      if Appends(data, u) then Some(CandleMessage(ToLower("candle-update-" + u.base), WindowAfter(data, u)))
      else None
    else Some(TickerMessage(ToLower("ticker-update-" + u.base), u))
  }

  /** The window stays in order of end time. */
  lemma WindowAfterIncreasing(data: seq<Candle>, u: TickerUpdate)
    requires Increasing(data)
    ensures Increasing(WindowAfter(data, u))
  {
    if Appends(data, u) {
      var grown := data + [CandleOf(u)];
      assert Increasing(grown) by {
        forall i, j | 0 <= i < j < |grown| ensures grown[i].endtime < grown[j].endtime {
          if j == |data| && i < |data| - 1 {
            assert data[i].endtime < data[|data| - 1].endtime;
          }
        }
      }
    }
  }

  /** The message `subscribed` sends. */
  function SubscribedMessage(sub: EventFields, backfill: seq<Candle>): (m: RendererMessage)
    ensures sub.interval == CANDLE_INTERVAL_MINUTES <==> m.CandleMessage?
    ensures m.CandleMessage? ==>
      m.candles == backfill && m.channel == ToLower("candle-update-" + Utils.ParsePair(sub.pair).base)
    ensures m.TickerSubscribeMessage? ==>
      m.interval == sub.interval
      && m.pair == TickerSubscriptions.TickerPair(Utils.ParsePair(sub.pair).base, Utils.SymbolText(Utils.ParsePair(sub.pair).quote))
  {
    var pair := Utils.ParsePair(sub.pair);
    if sub.interval == CANDLE_INTERVAL_MINUTES then CandleMessage(ToLower("candle-update-" + pair.base), backfill)
    else TickerSubscribeMessage(TickerSubscriptions.TickerPair(pair.base, Utils.SymbolText(pair.quote)), sub.interval)
  }

  /** The message `unsubscribed` sends: only the 1-minute channel reaches
      the renderer's list. */
  function UnsubscribedMessage(sub: EventFields): (m: Option<RendererMessage>)
    ensures m.Some? <==> sub.interval != CANDLE_INTERVAL_MINUTES
    ensures m.Some? ==> m.value.TickerUnsubscribeMessage?
    ensures m.Some? ==>
      m.value.pair == TickerSubscriptions.TickerPair(Utils.ParsePair(sub.pair).base, Utils.SymbolText(Utils.ParsePair(sub.pair).quote))
  {
    if sub.interval != CANDLE_INTERVAL_MINUTES then
      var pair := Utils.ParsePair(sub.pair);
      Some(TickerUnsubscribeMessage(TickerSubscriptions.TickerPair(pair.base, Utils.SymbolText(pair.quote))))
    else None
  }

  /** For an ack whose pair text is `base/quote`, the pair announced to the
      renderer on the 1-minute channel is the canonical base and quote, so
      an ack Kraken spells with `XBT` is listed as `BTC`. */
  lemma AckAnnouncesCanonicalPair(sub: EventFields, base: string, quote: string, backfill: seq<Candle>)
    requires '/' !in base && '/' !in quote && sub.pair == base + "/" + quote
    requires sub.interval != CANDLE_INTERVAL_MINUTES
    ensures SubscribedMessage(sub, backfill) == TickerSubscribeMessage(
      TickerSubscriptions.TickerPair(Utils.Canonical(base), Utils.Canonical(quote)), sub.interval)
    ensures UnsubscribedMessage(sub) == Some(TickerUnsubscribeMessage(
      TickerSubscriptions.TickerPair(Utils.Canonical(base), Utils.Canonical(quote))))
  {
    Utils.ParsePairOfTwo(base, quote);
  }

  /** The renderer's list after a `subscribed` and an `unsubscribed` ack of
      the same pair and channel: the pair `subscribed` added is the pair
      `unsubscribed` removes, and everything else is as before. */
  lemma AckPairRoundTrip(state: seq<TickerSubscriptions.TickerPair>, sub: EventFields, unsub: EventFields, backfill: seq<Candle>)
    requires sub.pair == unsub.pair && sub.interval == unsub.interval && sub.interval != CANDLE_INTERVAL_MINUTES
    ensures SubscribedMessage(sub, backfill).TickerSubscribeMessage?
    ensures UnsubscribedMessage(unsub).Some?
    ensures var added := SubscribedMessage(sub, backfill).pair;
      TickerSubscriptions.Reduce(
        TickerSubscriptions.Reduce(state, TickerSubscriptions.Action("sub", added)),
        TickerSubscriptions.Action("unsub", UnsubscribedMessage(unsub).value.pair))
      == TickerSubscriptions.Reject(state, added)
  {
    TickerSubscriptions.SubThenUnsub(state, SubscribedMessage(sub, backfill).pair, "unsub");
  }

  /** The `let candleData` of the `ready` handler with the two handlers
      that change it. */
  class CandleWindow {
    var candleData: seq<Candle>

    constructor ()
      ensures candleData == []
    {
      candleData := [];
    }

    /** The `update` handler: `push` the newer candle, then `drop` the first
        one once the range is reached. */
    method OnUpdate(u: TickerUpdate) returns (msg: Option<RendererMessage>)
      modifies this`candleData
      ensures candleData == WindowAfter(old(candleData), u)
      ensures msg == MessageAfter(old(candleData), u)
      ensures old(Increasing(candleData)) ==> Increasing(candleData)
    {
      ghost var data := candleData;
      if Increasing(candleData) {
        WindowAfterIncreasing(candleData, u);
      }
      if |candleData| > 0 && u.interval == Some(CANDLE_INTERVAL_MINUTES) {
        var firstUpdate := candleData[0];
        var lastUpdate := candleData[|candleData| - 1];
        if u.endtime > lastUpdate.endtime {
          assert Appends(data, u);
          candleData := candleData + [Candle(u.endtime, u.prices)];
          if RangeReached(firstUpdate.endtime, u.endtime) {
            candleData := candleData[1..];
          }
          assert candleData == WindowAfter(data, u);
          msg := Some(CandleMessage(ToLower("candle-update-" + u.base), candleData));
        } else {
          msg := None;
        }
      } else {
        msg := Some(TickerMessage(ToLower("ticker-update-" + u.base), u));
      }
    }

    /** The `subscribed` handler, given what `getCandles` returns: the
        15-minute channel replaces the window by the backfill and sends it;
        any other channel announces the pair to the renderer. */
    method OnSubscribed(sub: EventFields, backfill: seq<Candle>) returns (msg: RendererMessage)
      modifies this`candleData
      ensures msg == SubscribedMessage(sub, backfill)
      ensures candleData == if sub.interval == CANDLE_INTERVAL_MINUTES then backfill else old(candleData)
    {
      var pair := Utils.ParsePair(sub.pair);
      if sub.interval == CANDLE_INTERVAL_MINUTES {
        candleData := backfill;
        msg := CandleMessage(ToLower("candle-update-" + pair.base), candleData);
      } else {
        msg := TickerSubscribeMessage(TickerSubscriptions.TickerPair(pair.base, Utils.SymbolText(pair.quote)), sub.interval);
      }
    }
  }

  /** A window holding a day of candles drops its oldest when a newer
      candle arrives. */
  lemma FullDayDropsOldest(p: Prices, u: TickerUpdate)
    requires u.interval == Some(CANDLE_INTERVAL_MINUTES) && u.endtime == 86400
    ensures WindowAfter([Candle(0, p), Candle(900, p)], u) == [Candle(900, p), CandleOf(u)]
  {
    RangeReachedSeconds(0, 86400);
  }

  // ---------------------------------------------------------------------
  // suspendAll / resumeAll

  /** The services that `suspendAll` and `resumeAll` call. */
  datatype Service = Game | ScreenService | KeyboardService | EffectRenderer | TickerRenderer | TickerService

  /** The services the model gives no state: the game and the two
      renderers only talk to outside processes. */
  predicate Outside(s: Service) {
    s == Game || s == EffectRenderer || s == TickerRenderer
  }

  /** The record of the services called, in the order of the calls. Each
      call below appends the service it reaches, so the order in which
      `suspendAll` and `resumeAll` reach the services is read off this log. */
  class PowerLog {
    var calls: seq<Service>

    constructor ()
      ensures calls == []
    {
      calls := [];
    }
  }

  /** `await ticker.suspend()`. */
  method SuspendTicker(ticker: Ticker.Ticker, log: PowerLog)
    requires ticker.Valid()
    modifies ticker`suspended, ticker`ws, ticker`sockets, log
    ensures log.calls == old(log.calls) + [TickerService]
    ensures ticker.Valid() && ticker.suspended && ticker.ws.None?
    ensures old(ticker.ws).Some? ==> ticker.sockets == old(ticker.sockets)[old(ticker.ws).value := Kraken.Closing]
    ensures old(ticker.ws).None? ==> ticker.sockets == old(ticker.sockets)
    ensures old(ticker.SingleLive()) ==> ticker.SingleLive()
  {
    ticker.Suspend();
    log.calls := log.calls + [TickerService];
  }

  /** `await ticker.resume()`. */
  method ResumeTicker(ticker: Ticker.Ticker, log: PowerLog)
    requires ticker.Valid()
    modifies ticker`suspended, ticker`ws, ticker`sockets, ticker`nextSocket, log
    ensures log.calls == old(log.calls) + [TickerService]
    ensures ticker.Valid() && !ticker.suspended && ticker.ws.Some?
    ensures old(ticker.ws).None? ==>
      ticker.ws == Some(old(ticker.nextSocket))
      && ticker.sockets == old(ticker.sockets)[old(ticker.nextSocket) := Kraken.Connecting]
      && ticker.nextSocket == old(ticker.nextSocket) + 1
    ensures old(ticker.ws).Some? ==>
      ticker.ws == old(ticker.ws) && ticker.sockets == old(ticker.sockets) && ticker.nextSocket == old(ticker.nextSocket)
    ensures old(ticker.SingleLive()) ==> ticker.SingleLive()
  {
    ticker.Resume();
    log.calls := log.calls + [TickerService];
  }

  /** `await screen.suspend()`. */
  method SuspendScreen(screen: GameSenseScreen.Screen, log: PowerLog)
    requires screen.Valid()
    modifies screen.buffer, log
    ensures log.calls == old(log.calls) + [ScreenService]
    ensures screen.Valid() && forall k :: 0 <= k < screen.buffer.Length ==> screen.buffer[k] == 0
  {
    screen.Suspend();
    log.calls := log.calls + [ScreenService];
  }

  /** `await keyboard.suspend()`. */
  method SuspendKeyboard(keyboard: GameSenseKeyboard.Keyboard, log: PowerLog)
    requires keyboard.Valid()
    modifies keyboard.matrix, log
    ensures log.calls == old(log.calls) + [KeyboardService]
    ensures keyboard.Valid()
    ensures forall k :: 0 <= k < keyboard.matrix.Length ==> keyboard.matrix[k] == GameSenseKeyboard.BLACK
  {
    keyboard.Suspend();
    log.calls := log.calls + [KeyboardService];
  }

  /** A suspend or resume whose effect lies outside the model: the game,
      the renderers, and the resume of the screen and the keyboard, which
      change no cell. */
  method CallOutside(s: Service, log: PowerLog)
    requires Outside(s) || s == ScreenService || s == KeyboardService
    modifies log
    ensures log.calls == old(log.calls) + [s]
  {
    log.calls := log.calls + [s];
  }

  /** `suspendAll`: the ticker first, the game last; the ticker drops its
      socket and the screen and the keyboard are blanked. */
  method SuspendAll(ticker: Ticker.Ticker, screen: GameSenseScreen.Screen, keyboard: GameSenseKeyboard.Keyboard, log: PowerLog)
    requires ticker.Valid() && screen.Valid() && keyboard.Valid()
    modifies ticker`suspended, ticker`ws, ticker`sockets, screen.buffer, keyboard.matrix, log
    ensures log.calls == old(log.calls) + [TickerService, TickerRenderer, EffectRenderer, KeyboardService, ScreenService, Game]
    ensures ticker.Valid() && ticker.suspended && ticker.ws.None?
    ensures old(ticker.ws).Some? ==> ticker.sockets == old(ticker.sockets)[old(ticker.ws).value := Kraken.Closing]
    ensures old(ticker.ws).None? ==> ticker.sockets == old(ticker.sockets)
    ensures old(ticker.SingleLive()) ==> ticker.SingleLive()
    ensures screen.Valid() && forall k :: 0 <= k < screen.buffer.Length ==> screen.buffer[k] == 0
    ensures keyboard.Valid() && forall k :: 0 <= k < keyboard.matrix.Length ==> keyboard.matrix[k] == GameSenseKeyboard.BLACK
  {
    SuspendTicker(ticker, log);
    CallOutside(TickerRenderer, log);
    CallOutside(EffectRenderer, log);
    SuspendKeyboard(keyboard, log);
    SuspendScreen(screen, log);
    CallOutside(Game, log);
  }

  /** `resumeAll`: the game first, the ticker last; the ticker reconnects. */
  method ResumeAll(ticker: Ticker.Ticker, log: PowerLog)
    requires ticker.Valid()
    modifies ticker`suspended, ticker`ws, ticker`sockets, ticker`nextSocket, log
    ensures log.calls == old(log.calls) + [Game, ScreenService, KeyboardService, EffectRenderer, TickerRenderer, TickerService]
    ensures ticker.Valid() && !ticker.suspended && ticker.ws.Some?
    ensures old(ticker.ws).None? ==>
      ticker.ws == Some(old(ticker.nextSocket))
      && ticker.sockets == old(ticker.sockets)[old(ticker.nextSocket) := Kraken.Connecting]
      && ticker.nextSocket == old(ticker.nextSocket) + 1
    ensures old(ticker.ws).Some? ==>
      ticker.ws == old(ticker.ws) && ticker.sockets == old(ticker.sockets) && ticker.nextSocket == old(ticker.nextSocket)
    ensures old(ticker.SingleLive()) ==> ticker.SingleLive()
  {
    CallOutside(Game, log);
    CallOutside(ScreenService, log);
    CallOutside(KeyboardService, log);
    CallOutside(EffectRenderer, log);
    CallOutside(TickerRenderer, log);
    ResumeTicker(ticker, log);
  }
}
