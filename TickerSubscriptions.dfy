/** The renderer's list of displayed pairs, the reducer of
    src/render/ticker/hooks/tickerSubscriptions.ts: a `sub` action appends
    the pair, any other action removes every entry equal to the pair, and
    the hook returns the list stably sorted by base (lodash `sortBy`, which
    compares with JavaScript's `<` and keeps equal bases in list order). */
module TickerSubscriptions {
  import opened Text

  /** `{base, quote}`. */
  datatype TickerPair = TickerPair(base: string, quote: string)

  /** `{type, pair}`. */
  datatype Action = Action(kind: string, pair: TickerPair)

  /** `reject(state, pair)`: the lodash `matches` shorthand drops the entries
      whose base and quote are those of the pair. */
  function Reject(state: seq<TickerPair>, pair: TickerPair): (r: seq<TickerPair>)
    ensures |r| <= |state|
    ensures forall p :: p in r <==> p in state && p != pair
  {
    if state == [] then []
    else
      (if state[0] == pair then [] else [state[0]]) + Reject(state[1..], pair)
  }

  /** The entries that are kept stay in their order: rejecting from a
      concatenation is concatenating the rejected parts. */
  lemma {:induction false} RejectAppend(a: seq<TickerPair>, b: seq<TickerPair>, pair: TickerPair)
    ensures Reject(a + b, pair) == Reject(a, pair) + Reject(b, pair)
  {
    if a == [] {
      assert a + b == b;
    } else {
      var head := if a[0] == pair then [] else [a[0]];
      var ab := a + b;
      assert ab[0] == a[0] && ab[1..] == a[1..] + b;
      assert Reject(ab, pair) == head + Reject(a[1..] + b, pair);
      RejectAppend(a[1..], b, pair);
      assert Reject(a, pair) == head + Reject(a[1..], pair);
    }
  }

  /** Every occurrence of the pair goes, every other entry is kept as
      often as it occurs. */
  lemma {:induction false} RejectCounts(state: seq<TickerPair>, pair: TickerPair)
    ensures multiset(Reject(state, pair)) == multiset(state)[pair := 0]
  {
    if state != [] {
      var x, rest := state[0], state[1..];
      var head := if x == pair then [] else [x];
      assert state == [x] + rest;
      calc {
        multiset(Reject(state, pair));
        multiset(head + Reject(rest, pair));
        multiset(head) + multiset(Reject(rest, pair));
        { RejectCounts(rest, pair); }
        multiset(head) + multiset(rest)[pair := 0];
        (multiset([x]) + multiset(rest))[pair := 0];
        multiset(state)[pair := 0];
      }
    }
  }

  /** Removing a pair that is not listed leaves the list as it was. */
  lemma {:induction false} RejectAbsent(state: seq<TickerPair>, pair: TickerPair)
    requires pair !in state
    ensures Reject(state, pair) == state
  {
    if state != [] {
      RejectAbsent(state[1..], pair);
      assert state == [state[0]] + state[1..];
    }
  }

  /** The reducer: `action.type === "sub" ? concat(state, action.pair)
      : reject(state, action.pair)`. */
  function Reduce(state: seq<TickerPair>, action: Action): (r: seq<TickerPair>)
    ensures action.kind == "sub" ==>
      |r| == |state| + 1 && r[..|state|] == state && r[|state|] == action.pair
    ensures action.kind != "sub" ==>
      action.pair !in r && |r| <= |state|
      && (forall p :: p != action.pair ==> multiset(r)[p] == multiset(state)[p])
  {
    if action.kind == "sub" then state + [action.pair]
    else
      RejectCounts(state, action.pair);
      Reject(state, action.pair)
  }

  /** The reducer folded over the dispatched actions, from the empty list.
      The list grows by at most one entry per action, every listed pair was
      subscribed by some action, and the pair of a last removal is gone. */
  function Dispatched(actions: seq<Action>): (r: seq<TickerPair>)
    ensures |r| <= |actions|
    ensures forall p :: p in r ==> Action("sub", p) in actions
    ensures actions != [] && actions[|actions| - 1].kind != "sub" ==> actions[|actions| - 1].pair !in r
  {
    if actions == [] then []
    else
      var init := actions[..|actions| - 1];
      var last := actions[|actions| - 1];
      assert actions == init + [last];
      var prev := Dispatched(init);
      ReduceSubscribed(prev, init, last);
      Reduce(prev, last)
  }

  /** One step of `Dispatched`: when every listed pair was subscribed by an
      earlier action, so is every pair listed after one more action. */
  lemma ReduceSubscribed(state: seq<TickerPair>, before: seq<Action>, action: Action)
    requires forall p :: p in state ==> Action("sub", p) in before
    ensures forall p :: p in Reduce(state, action) ==> Action("sub", p) in before + [action]
  {
    forall p | p in Reduce(state, action)
      ensures Action("sub", p) in before + [action]
    {
      if p != action.pair {
        ReduceFrom(state, action, p);
      }
    }
  }

  /** An entry listed after an action, other than the action's pair, was
      listed before it. */
  lemma ReduceFrom(state: seq<TickerPair>, action: Action, p: TickerPair)
    requires p in Reduce(state, action) && p != action.pair
    ensures p in state
  {
    var r := Reduce(state, action);
    if action.kind != "sub" {
      assert multiset(r)[p] == multiset(state)[p];
    } else {
      assert r == state + [action.pair];
    }
  }

  /** Subscribing a pair and then unsubscribing it leaves the other
      entries, in order, and none of the pair. */
  lemma SubThenUnsub(state: seq<TickerPair>, pair: TickerPair, other: string)
    requires other != "sub"
    ensures Reduce(Reduce(state, Action("sub", pair)), Action(other, pair)) == Reject(state, pair)
  {
    RejectAppend(state, [pair], pair);
    assert Reject([pair], pair) == [];
  }

  /** A pair that is subscribed once and then removed is not displayed,
      whatever was dispatched before. */
  lemma DispatchedSubUnsub(actions: seq<Action>, pair: TickerPair)
    ensures pair !in Dispatched(actions + [Action("sub", pair), Action("unsub", pair)])
  {
    var all := actions + [Action("sub", pair), Action("unsub", pair)];
    assert all[..|all| - 1] == actions + [Action("sub", pair)];
    assert (actions + [Action("sub", pair)])[..|actions| + 1 - 1] == actions;
  }

  // ---------------------------------------------------------------------
  // sortBy(pairs, 'base')

  /** In order of base: no entry has a base below that of an earlier one. */
  predicate SortedByBase(s: seq<TickerPair>) {
    forall i, j :: 0 <= i < j < |s| ==> !Below(s[j].base, s[i].base)
  }

  /** The entries with base `b`, in list order. */
  function WithBase(s: seq<TickerPair>, b: string): (r: seq<TickerPair>)
    ensures forall p :: p in r <==> p in s && p.base == b
  {
    if s == [] then []
    else (if s[0].base == b then [s[0]] else []) + WithBase(s[1..], b)
  }

  lemma WithBaseCons(x: TickerPair, rest: seq<TickerPair>, base: string)
    ensures WithBase([x] + rest, base) == (if x.base == base then [x] else []) + WithBase(rest, base)
  {
    assert ([x] + rest)[1..] == rest;
  }

  lemma ConsAppend(x: TickerPair, a: seq<TickerPair>, b: seq<TickerPair>)
    ensures [x] + a + b == [x] + (a + b)
  {
  }

  lemma {:induction false} WithBaseAppend(a: seq<TickerPair>, b: seq<TickerPair>, base: string)
    ensures WithBase(a + b, base) == WithBase(a, base) + WithBase(b, base)
  {
    if a == [] {
      assert a + b == b;
    } else {
      var x, rest := a[0], a[1..];
      var head := if x.base == base then [x] else [];
      assert a == [x] + rest;
      ConsAppend(x, rest, b);
      calc {
        WithBase(a + b, base);
        WithBase([x] + (rest + b), base);
        { WithBaseCons(x, rest + b, base); }
        head + WithBase(rest + b, base);
        { WithBaseAppend(rest, b, base); }
        head + (WithBase(rest, base) + WithBase(b, base));
        { WithBaseCons(x, rest, base); }
        WithBase(a, base) + WithBase(b, base);
      }
    }
  }

  /** Insert `x` into a sorted list after every entry whose base is not
      above `x`'s, so that it follows the entries with an equal base. */
  function InsertAfterEqual(x: TickerPair, t: seq<TickerPair>): (r: seq<TickerPair>)
    ensures |r| == |t| + 1
    ensures multiset(r) == multiset(t) + multiset{x}
  {
    if t == [] then [x]
    else if Below(x.base, t[0].base) then [x] + t
    else
      assert t == [t[0]] + t[1..];
      [t[0]] + InsertAfterEqual(x, t[1..])
  }

  /** Stable sort by base: the entries are inserted one by one, each after
      those placed before it with an equal base. */
  function SortByBase(s: seq<TickerPair>): (r: seq<TickerPair>)
    ensures |r| == |s|
    ensures multiset(r) == multiset(s)
  {
    if s == [] then []
    else
      assert s == s[..|s| - 1] + [s[|s| - 1]];
      InsertAfterEqual(s[|s| - 1], SortByBase(s[..|s| - 1]))
  }

  /** An entry whose base is below the first base of a sorted list can go
      in front of it. */
  lemma PrependSorted(x: TickerPair, t: seq<TickerPair>)
    requires SortedByBase(t) && t != [] && Below(x.base, t[0].base)
    ensures SortedByBase([x] + t)
  {
    var r := [x] + t;
    forall j | 1 <= j < |r| ensures !Below(r[j].base, x.base) {
      assert r[j] == t[j - 1];
      if j == 1 {
        BelowAsymmetric(x.base, t[0].base);
      } else if Below(r[j].base, x.base) {
        BelowTransitive(r[j].base, x.base, t[0].base);
      }
    }
    forall i, j | 1 <= i < j < |r| ensures !Below(r[j].base, r[i].base) {
      assert r[i] == t[i - 1] && r[j] == t[j - 1];
    }
  }

  /** An entry whose base is not above any base of a sorted list can go in
      front of it. */
  lemma ConsSorted(h: TickerPair, u: seq<TickerPair>)
    requires SortedByBase(u)
    requires forall e :: e in u ==> !Below(e.base, h.base)
    ensures SortedByBase([h] + u)
  {
    var r := [h] + u;
    forall i, j | 0 <= i < j < |r| ensures !Below(r[j].base, r[i].base) {
      assert r[j] == u[j - 1];
      if i > 0 {
        assert r[i] == u[i - 1];
      }
    }
  }

  lemma {:induction false} InsertAfterEqualSorted(x: TickerPair, t: seq<TickerPair>)
    requires SortedByBase(t)
    ensures SortedByBase(InsertAfterEqual(x, t))
  {
    if t == [] {
    } else if Below(x.base, t[0].base) {
      PrependSorted(x, t);
    } else {
      var u := InsertAfterEqual(x, t[1..]);
      assert SortedByBase(t[1..]) by {
        forall i, j | 0 <= i < j < |t[1..]| ensures !Below(t[1..][j].base, t[1..][i].base) {
          assert t[1..][i] == t[i + 1] && t[1..][j] == t[j + 1];
        }
      }
      InsertAfterEqualSorted(x, t[1..]);
      forall e | e in u ensures !Below(e.base, t[0].base) {
        assert e in multiset(u);
        if e != x {
          assert e in multiset(t[1..]);
          var k :| 0 <= k < |t[1..]| && t[1..][k] == e;
          assert t[k + 1] == e;
        }
      }
      ConsSorted(t[0], u);
    }
  }

  /** `sortBy` puts the entries in order of base. */
  lemma {:induction false} SortByBaseSorted(s: seq<TickerPair>)
    ensures SortedByBase(SortByBase(s))
  {
    if s != [] {
      SortByBaseSorted(s[..|s| - 1]);
      InsertAfterEqualSorted(s[|s| - 1], SortByBase(s[..|s| - 1]));
    }
  }

  /** A sorted list in which `x` is below the first base holds no entry
      with `x`'s base. */
  lemma NoneWithLowerBase(x: TickerPair, t: seq<TickerPair>)
    requires SortedByBase(t) && t != [] && Below(x.base, t[0].base)
    ensures WithBase(t, x.base) == []
  {
    forall p | p in t ensures p.base != x.base {
      var k :| 0 <= k < |t| && t[k] == p;
      if k > 0 {
        BelowTotal(t[0].base, p.base);
        if Below(t[0].base, p.base) {
          BelowTransitive(x.base, t[0].base, p.base);
        }
      }
      BelowIrreflexive(p.base);
    }
    if WithBase(t, x.base) != [] {
      assert WithBase(t, x.base)[0] in WithBase(t, x.base);
    }
  }

  lemma {:induction false} InsertAfterEqualWithBase(x: TickerPair, t: seq<TickerPair>, b: string)
    requires SortedByBase(t)
    ensures WithBase(InsertAfterEqual(x, t), b) == WithBase(t, b) + (if x.base == b then [x] else [])
  {
    var xs := if x.base == b then [x] else [];
    if t == [] {
    } else if Below(x.base, t[0].base) {
      InsertBelowWithBase(x, t, b);
    } else {
      SortedTail(t);
      InsertAfterStep(x, t, b);
      InsertAfterEqualWithBase(x, t[1..], b);
      AppendAssocPairs(if t[0].base == b then [t[0]] else [], WithBase(t[1..], b), xs);
    }
  }

  /** An entry whose base is not below the head's goes after the head. */
  lemma InsertAfterStep(x: TickerPair, t: seq<TickerPair>, b: string)
    requires t != [] && !Below(x.base, t[0].base)
    ensures WithBase(InsertAfterEqual(x, t), b)
         == (if t[0].base == b then [t[0]] else []) + WithBase(InsertAfterEqual(x, t[1..]), b)
  {
    WithBaseCons(t[0], InsertAfterEqual(x, t[1..]), b);
  }

  lemma AppendAssocPairs(a: seq<TickerPair>, b: seq<TickerPair>, c: seq<TickerPair>)
    ensures a + (b + c) == (a + b) + c
  {
  }

  /** An entry whose base is below every base of the list goes first, and
      the list has no entry with its base. */
  lemma InsertBelowWithBase(x: TickerPair, t: seq<TickerPair>, b: string)
    requires SortedByBase(t) && t != [] && Below(x.base, t[0].base)
    ensures WithBase(InsertAfterEqual(x, t), b) == WithBase(t, b) + (if x.base == b then [x] else [])
  {
    if x.base == b {
      NoneWithLowerBase(x, t);
    }
    WithBaseCons(x, t, b);
  }

  lemma SortedTail(t: seq<TickerPair>)
    requires SortedByBase(t) && t != []
    ensures SortedByBase(t[1..])
  {
  }


  /** `sortBy` is stable: the entries of any one base keep their order. */
  lemma {:induction false} SortByBaseStable(s: seq<TickerPair>, b: string)
    ensures WithBase(SortByBase(s), b) == WithBase(s, b)
  {
    if s != [] {
      var init, x := s[..|s| - 1], s[|s| - 1];
      var xs := if x.base == b then [x] else [];
      assert s == init + [x];
      SortByBaseSorted(init);
      calc {
        WithBase(SortByBase(s), b);
        WithBase(InsertAfterEqual(x, SortByBase(init)), b);
        { InsertAfterEqualWithBase(x, SortByBase(init), b); }
        WithBase(SortByBase(init), b) + xs;
        { SortByBaseStable(init, b); }
        WithBase(init, b) + xs;
        { WithBaseCons(x, [], b); assert [x] + [] == [x]; }
        WithBase(init, b) + WithBase([x], b);
        { WithBaseAppend(init, [x], b); }
        WithBase(s, b);
      }
    }
  }


  /** The list the hook returns. */
  function Displayed(actions: seq<Action>): (r: seq<TickerPair>)
    ensures SortedByBase(r)
    ensures multiset(r) == multiset(Dispatched(actions))
    ensures forall b :: WithBase(r, b) == WithBase(Dispatched(actions), b)
  {
    var r := SortByBase(Dispatched(actions));
    SortByBaseSorted(Dispatched(actions));
    forall b ensures WithBase(r, b) == WithBase(Dispatched(actions), b) {
      SortByBaseStable(Dispatched(actions), b);
    }
    r
  }
}
