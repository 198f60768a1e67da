/** The tray application of src/main/App.ts, reduced to what `setPairs`
    does to the configuration: the requested bases are checked against the
    catalog's table for the requested quote, an empty choice falls back to
    the table's first key, and a `config-change` event carries the previous
    and the new configuration. The menu itself is not modelled; the model
    counts how often it is rebuilt. */
module App {
  import opened Wrappers
  import Utils
  import Catalog

  /** `{base: string[], quote: string}`. */
  datatype AppConfig = AppConfig(base: seq<string>, quote: string)

  /** The configuration written when none is saved yet. */
  const DEFAULT_APP_CONFIG := AppConfig(["BTC", "ETH"], "USD")

  /** The payload of `config-change`: the copy of the previous
      configuration and the new one. */
  datatype ConfigChange = ConfigChange(from: AppConfig, to: AppConfig)

  /** `coinMap[quote]` as a key list; a quote the catalog lacks has none. */
  function TableOf(coinMap: Catalog.CoinMap, quote: string): seq<string> {
    if quote in coinMap then coinMap[quote] else []
  }

  /** `filter(base, coin => has(coinMap[quote], coin))`. */
  function ValidCoins(base: seq<string>, table: seq<string>): (r: seq<string>)
    ensures |r| <= |base|
    ensures forall c :: c in r <==> c in base && c in table
    ensures (forall i :: 0 <= i < |base| ==> base[i] in table) ==> r == base
  {
    if base == [] then []
    else (if base[0] in table then [base[0]] else []) + ValidCoins(base[1..], table)
  }

  /** One step of the filter: the first coin is kept exactly when the
      table has it. */
  lemma ValidCoinsCons(x: string, rest: seq<string>, table: seq<string>)
    ensures ValidCoins([x] + rest, table) == (if x in table then [x] else []) + ValidCoins(rest, table)
  {
    assert ([x] + rest)[0] == x && ([x] + rest)[1..] == rest;
  }

  /** The filter keeps the original order: filtering a concatenation is
      concatenating the filtered parts. */
  lemma {:induction false} ValidCoinsAppend(a: seq<string>, b: seq<string>, table: seq<string>)
    ensures ValidCoins(a + b, table) == ValidCoins(a, table) + ValidCoins(b, table)
  {
    if a == [] {
      assert a + b == b;
    } else {
      var head := if a[0] in table then [a[0]] else [];
      calc {
        ValidCoins(a + b, table);
      == { assert a + b == [a[0]] + (a[1..] + b); ValidCoinsCons(a[0], a[1..] + b, table); }
        head + ValidCoins(a[1..] + b, table);
      == { ValidCoinsAppend(a[1..], b, table); }
        head + (ValidCoins(a[1..], table) + ValidCoins(b, table));
      ==
        (head + ValidCoins(a[1..], table)) + ValidCoins(b, table);
      == { assert a == [a[0]] + a[1..]; ValidCoinsCons(a[0], a[1..], table); }
        ValidCoins(a, table) + ValidCoins(b, table);
      }
    }
  }

  /** `head(keys(coinMap[quote]))`, printed as `undefined` when there is none. */
  function FirstKey(table: seq<string>): (k: string)
    ensures table != [] ==> k == table[0]
    ensures table == [] ==> k == Utils.UNDEFINED
  {
    if table != [] then table[0] else Utils.UNDEFINED
  }

  /** The base list `setPairs` stores: the valid requested coins, or the
      first key alone when none of them is valid. */
  function NewBase(base: seq<string>, table: seq<string>): (r: seq<string>)
    ensures |r| >= 1
    ensures ValidCoins(base, table) != [] ==> r == ValidCoins(base, table)
    ensures ValidCoins(base, table) == [] ==> r == [FirstKey(table)]
    ensures table != [] ==> forall i :: 0 <= i < |r| ==> r[i] in table
  {
    var valid := ValidCoins(base, table);
    if valid == [] then [FirstKey(table)] else valid
  }

  class App {
    const coinMap: Catalog.CoinMap
    var config: AppConfig
    var menuBuilds: nat

    /** The constructor, given the catalog and the configuration that
        `loadConfig` reads; it builds the menu once. */
    constructor (coinMap: Catalog.CoinMap, saved: AppConfig)
      ensures this.coinMap == coinMap && config == saved && menuBuilds == 1
    {
      this.coinMap := coinMap;
      config := saved;
      menuBuilds := 1;
    }

    /** `setPairs(quote, base)`: when the request differs from the current
        configuration, store the checked bases and the quote and report the
        change; in every case rebuild the menu. */
    method SetPairs(quote: string, base: seq<string>) returns (change: Option<ConfigChange>)
      modifies this`config, this`menuBuilds
      ensures menuBuilds == old(menuBuilds) + 1
      ensures old(config) == AppConfig(base, quote) ==> config == old(config) && change.None?
      ensures old(config) != AppConfig(base, quote) ==>
        config == AppConfig(NewBase(base, TableOf(coinMap, quote)), quote)
        && change == Some(ConfigChange(old(config), config))
      ensures TableOf(coinMap, quote) != [] && change.Some? ==>
        forall i :: 0 <= i < |config.base| ==> config.base[i] in coinMap[quote]
    {
      change := None;
      if config.base != base || config.quote != quote {
        var prev := config;
        var table := TableOf(coinMap, quote);
        var validCoins := ValidCoins(base, table);
        config := config.(base := validCoins);
        if |validCoins| == 0 {
          config := config.(base := [FirstKey(table)]);
        }
        config := config.(quote := quote);
        change := Some(ConfigChange(prev, config));
      }
      menuBuilds := menuBuilds + 1;
    }
  }

  /** Choosing coins of which some are traded against the quote keeps those,
      in the order chosen; choosing none that is traded selects the
      catalog's first base for that quote. */
  lemma ChoiceExample()
    ensures NewBase(["ETH", "DOGE", "BTC"], ["ADA", "BTC", "ETH"]) == ["ETH", "BTC"]
    ensures NewBase(["DOGE"], ["ADA", "BTC", "ETH"]) == ["ADA"]
    ensures NewBase(["DOGE"], []) == [Utils.UNDEFINED]
  {
    assert ["ETH", "DOGE", "BTC"][1..] == ["DOGE", "BTC"];
    assert ["DOGE", "BTC"][1..] == ["BTC"];
    assert "DOGE" !in ["ADA", "BTC", "ETH"];
  }
}
