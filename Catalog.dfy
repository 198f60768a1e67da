/** The pair catalog that both tickers build in `loadAssets`: every asset
    pair's `wsname` is parsed, the distinct quotes are collected, and for
    each quote the bases traded against it are listed sorted by name with
    duplicates collapsed (`mapKeys(sortBy(filter(assets, {quote}), "base"), "base")`).
    The catalog (`coinMap`) is kept as a map from quote to the ordered key
    list of its base table. */
module Catalog {
  import opened Text
  import Utils

  /** One entry of `_assets`; the quote is the text the template prints. */
  datatype Asset = Asset(base: string, quote: string) {
    /** The `pair` property, `base/quote`. */
    function PairText(): string {
      base + "/" + quote
    }
  }

  /** quote -> bases in key order. */
  type CoinMap = map<string, seq<string>>

  /** The asset that one `wsname` of the AssetPairs answer yields. */
  function AssetOf(wsname: string): Asset {
    var p := Utils.ParsePair(wsname);
    Asset(p.base, Utils.SymbolText(p.quote))
  }

  /** `_assets`: the parsed list; a failed fetch is an empty list. */
  function AssetsOf(wsnames: seq<string>): (assets: seq<Asset>)
    ensures |assets| == |wsnames|
    ensures forall i :: 0 <= i < |wsnames| ==> assets[i] == AssetOf(wsnames[i])
  {
    seq(|wsnames|, i requires 0 <= i < |wsnames| => AssetOf(wsnames[i]))
  }

  predicate StrictlySorted(s: seq<string>) {
    forall i, j :: 0 <= i < j < |s| ==> Below(s[i], s[j])
  }

  lemma BelowAllOfSorted(x: string, t: seq<string>)
    requires StrictlySorted(t) && t != [] && Below(x, t[0])
    ensures forall j :: 0 <= j < |t| ==> Below(x, t[j])
  {
    forall j | 0 < j < |t| ensures Below(x, t[j]) {
      BelowTransitive(x, t[0], t[j]);
    }
  }

  /** Insert a name into a strictly sorted list, keeping it strictly sorted. */
  function Insert(x: string, t: seq<string>): (r: seq<string>)
    requires StrictlySorted(t)
    ensures StrictlySorted(r)
    ensures forall y :: y in r <==> y in t || y == x
  {
    if t == [] then [x]
    else if x == t[0] then t
    else if Below(x, t[0]) then
      BelowAllOfSorted(x, t);
      [x] + t
    else
      BelowTotal(x, t[0]);
      var rest := Insert(x, t[1..]);
      assert forall j :: 0 <= j < |rest| ==> Below(t[0], rest[j]) by {
        forall j | 0 <= j < |rest| ensures Below(t[0], rest[j]) {
          assert rest[j] in rest;
          if rest[j] != x {
            var k :| 0 <= k < |t[1..]| && t[1..][k] == rest[j];
            assert t[k + 1] == rest[j];
          }
        }
      }
      [t[0]] + rest
  }

  /** The distinct names of `xs` in ascending order. */
  function SortedDistinct(xs: seq<string>): (r: seq<string>)
    ensures StrictlySorted(r)
    ensures forall y :: y in r <==> y in xs
  {
    if xs == [] then []
    else
      var r := Insert(xs[|xs| - 1], SortedDistinct(xs[..|xs| - 1]));
      assert xs == xs[..|xs| - 1] + [xs[|xs| - 1]];
      r
  }

  /** A strictly sorted list is determined by its elements, so whatever order
      the source's sort-then-collapse visits the bases in, the key list is
      this one. */
  lemma {:induction false} SortedUnique(a: seq<string>, b: seq<string>)
    requires StrictlySorted(a) && StrictlySorted(b)
    requires forall y :: y in a <==> y in b
    ensures a == b
    decreases |a|
  {
    if a != [] {
      assert a[0] in b;
    }
    if b != [] {
      assert b[0] in a;
    }
    if a != [] && b != [] {
      if a[0] != b[0] {
        assert a[0] in b && b[0] in a;
        var k :| 0 <= k < |b| && b[k] == a[0];
        var m :| 0 <= m < |a| && a[m] == b[0];
        assert Below(b[0], a[0]);
        assert Below(a[0], b[0]);
        BelowAsymmetric(a[0], b[0]);
        assert false;
      }
      forall y ensures y in a[1..] <==> y in b[1..] {
        if y in a[1..] {
          var k :| 0 <= k < |a[1..]| && a[1..][k] == y;
          assert a[k + 1] == y && Below(a[0], y);
          BelowIrreflexive(y);
          assert y in b && y != b[0];
          var n :| 0 <= n < |b| && b[n] == y;
          assert n != 0 && b[1..][n - 1] == y;
        }
        if y in b[1..] {
          var k :| 0 <= k < |b[1..]| && b[1..][k] == y;
          assert b[k + 1] == y && Below(b[0], y);
          BelowIrreflexive(y);
          assert y in a && y != a[0];
          var n :| 0 <= n < |a| && a[n] == y;
          assert n != 0 && a[1..][n - 1] == y;
        }
      }
      SortedUnique(a[1..], b[1..]);
      assert a == [a[0]] + a[1..] && b == [b[0]] + b[1..];
    }
  }

  /** `map(assets, "quote")`. */
  function QuotesOf(assets: seq<Asset>): (qs: seq<string>)
    ensures forall q :: q in qs <==> exists a :: a in assets && a.quote == q
  {
    if assets == [] then []
    else
      var qs := QuotesOf(assets[..|assets| - 1]) + [assets[|assets| - 1].quote];
      assert assets == assets[..|assets| - 1] + [assets[|assets| - 1]];
      qs
  }

  /** `map(filter(assets, {quote}), "base")`. */
  function BasesOf(assets: seq<Asset>, quote: string): (bs: seq<string>)
    ensures forall b :: b in bs <==> Asset(b, quote) in assets
  {
    if assets == [] then []
    else
      var a := assets[|assets| - 1];
      var bs := BasesOf(assets[..|assets| - 1], quote) + (if a.quote == quote then [a.base] else []);
      assert assets == assets[..|assets| - 1] + [a];
      bs
  }

  /** The `forEach` of `loadAssets` over the sorted distinct quotes: every
      quote of an asset becomes a key, and its base list holds exactly the
      bases traded against it, strictly ascending. */
  method BuildCoinMap(assets: seq<Asset>) returns (coinMap: CoinMap)
    ensures forall q :: q in coinMap <==> exists a :: a in assets && a.quote == q
    ensures forall q :: q in coinMap ==> StrictlySorted(coinMap[q])
    ensures forall q, b :: q in coinMap ==> (b in coinMap[q] <==> Asset(b, q) in assets)
  {
    var quoteCoins := SortedDistinct(QuotesOf(assets));
    coinMap := map[];
    var i := 0;
    while i < |quoteCoins|
      invariant 0 <= i <= |quoteCoins|
      invariant forall q :: q in coinMap <==> q in quoteCoins[..i]
      invariant forall q :: q in coinMap ==> coinMap[q] == SortedDistinct(BasesOf(assets, q))
    {
      var quote := quoteCoins[i];
      coinMap := coinMap[quote := SortedDistinct(BasesOf(assets, quote))];
      assert quoteCoins[..i + 1] == quoteCoins[..i] + [quote];
      i := i + 1;
    }
    assert quoteCoins[..i] == quoteCoins;
    CoinMapGroups(assets, quoteCoins, coinMap);
  }

  /** A map from every quote of the assets to its sorted bases groups the
      assets as `BuildCoinMap` promises. */
  lemma CoinMapGroups(assets: seq<Asset>, quoteCoins: seq<string>, coinMap: CoinMap)
    requires quoteCoins == SortedDistinct(QuotesOf(assets))
    requires forall q :: q in coinMap <==> q in quoteCoins
    requires forall q :: q in coinMap ==> coinMap[q] == SortedDistinct(BasesOf(assets, q))
    ensures forall q :: q in coinMap <==> exists a :: a in assets && a.quote == q
    ensures forall q :: q in coinMap ==> StrictlySorted(coinMap[q])
    ensures forall q, b :: q in coinMap ==> (b in coinMap[q] <==> Asset(b, q) in assets)
  {
  }
}
