/** Pair strings of the exchange (src/main/utils.ts). Kraken names Bitcoin
    `XBT`; the application uses `BTC`. A pair string is `BASE/QUOTE`;
    `parsePair` splits it on `/` and canonicalises each of the first two
    pieces on its own. */
module Utils {
  import opened Wrappers
  import opened Text

  /** A parsed pair. The quote is absent when the text had no `/`. */
  datatype Pair = Pair(base: string, quote: Option<string>)

  /** What a template string prints for a missing value. */
  const UNDEFINED := "undefined"

  /** Kraken's alias for Bitcoin mapped to the canonical symbol; every other
      symbol is kept. */
  function Canonical(symbol: string): (r: string)
    ensures r != "XBT"
    ensures symbol == "XBT" ==> r == "BTC"
    ensures symbol != "XBT" ==> r == symbol
  {
    if symbol == "XBT" then "BTC" else symbol
  }

  /** `${value}` of a symbol that may be missing. */
  function SymbolText(symbol: Option<string>): string {
    symbol.GetOr(UNDEFINED)
  }

  /** `parsePair`: the first two `/`-pieces, each canonicalised. Neither
      piece holds a slash or is spelled `XBT`, and the quote is missing
      exactly when the text has no slash. */
  function ParsePair(pairString: string): (r: Pair)
    ensures '/' !in r.base && r.base != "XBT"
    ensures r.quote.Some? ==> '/' !in r.quote.value && r.quote.value != "XBT"
    ensures r.quote.None? <==> '/' !in pairString
  {
    var parts := Split(pairString, '/');
    assert |parts| > 1 ==> pairString[|parts[0]|] == '/';
    Pair(Canonical(parts[0]), if |parts| > 1 then Some(Canonical(parts[1])) else None)
  }

  /** `normalizePair`: the canonical `base/quote` text. It is two pieces
      around one slash, and neither piece is spelled `XBT`. */
  function NormalizePair(pair: string): (r: string)
    ensures |Split(r, '/')| == 2
    ensures Split(r, '/')[0] != "XBT" && Split(r, '/')[1] != "XBT"
  {
    var p := ParsePair(pair);
    assert '/' !in UNDEFINED;
    SplitAt(p.base, SymbolText(p.quote), '/');
    SplitWhole(SymbolText(p.quote), '/');
    p.base + "/" + SymbolText(p.quote)
  }

  /** `denormalizePair`: the exchange's spelling, `XBT` for a Bitcoin base;
      the quote is kept in its canonical spelling. The result is two pieces
      around one slash; the base is never spelled `BTC`, the quote never
      `XBT`. */
  function DenormalizePair(pair: string): (r: string)
    ensures |Split(r, '/')| == 2
    ensures Split(r, '/')[0] != "BTC" && Split(r, '/')[1] != "XBT"
  {
    var p := ParsePair(pair);
    var quote := SymbolText(p.quote);
    var base := if p.base == "BTC" then "XBT" else p.base;
    assert '/' !in UNDEFINED;
    SplitAt(base, quote, '/');
    SplitWhole(quote, '/');
    base + "/" + (if quote == "BTC" then "BTC" else quote)
  }

  // ---------------------------------------------------------------------

  /** A one-slash pair: base and quote are canonicalised independently. */
  lemma ParsePairOfTwo(base: string, quote: string)
    requires '/' !in base && '/' !in quote
    ensures ParsePair(base + "/" + quote) == Pair(Canonical(base), Some(Canonical(quote)))
  {
    SplitAt(base, quote, '/');
    SplitWhole(quote, '/');
  }

  /** Only the first two pieces count: `BTC/USD/15` parses as `BTC` and `USD`,
      which is what the subscription key of the ticker relies on. */
  lemma ParsePairKeepsTwo(base: string, quote: string, rest: string)
    requires '/' !in base && '/' !in quote
    ensures ParsePair(base + "/" + quote + "/" + rest) == Pair(Canonical(base), Some(Canonical(quote)))
  {
    assert base + "/" + quote + "/" + rest == base + ['/'] + (quote + ['/'] + rest);
    SplitAt(base, quote + ['/'] + rest, '/');
    SplitAt(quote, rest, '/');
  }

  /** Text without a slash has no quote. */
  lemma ParsePairNoSlash(s: string)
    requires '/' !in s
    ensures ParsePair(s) == Pair(Canonical(s), None)
  {
    SplitWhole(s, '/');
  }

  lemma PiecesHaveNoSlash(pair: string)
    ensures '/' !in ParsePair(pair).base
    ensures '/' !in SymbolText(ParsePair(pair).quote)
  {
    var parts := Split(pair, '/');
    assert '/' !in parts[0];
    if |parts| > 1 {
      assert '/' !in parts[1];
    }
  }

  /** Parsing a normalised pair gives back its canonical pieces, so no
      `XBT` survives normalisation, neither as base nor as quote. */
  lemma NormalizeIsCanonical(pair: string)
    ensures ParsePair(NormalizePair(pair)) == Pair(ParsePair(pair).base, Some(SymbolText(ParsePair(pair).quote)))
    ensures ParsePair(NormalizePair(pair)).base != "XBT"
    ensures ParsePair(NormalizePair(pair)).quote != Some("XBT")
  {
    var p := ParsePair(pair);
    PiecesHaveNoSlash(pair);
    ParsePairOfTwo(p.base, SymbolText(p.quote));
  }

  /** `normalizePair` is idempotent. */
  lemma NormalizeIdempotent(pair: string)
    ensures NormalizePair(NormalizePair(pair)) == NormalizePair(pair)
  {
    NormalizeIsCanonical(pair);
  }

  /** `denormalizePair` writes a Bitcoin base (given as `BTC` or `XBT`) as
      `XBT`, keeps every other base, and leaves the canonical quote as it is. */
  lemma DenormalizePieces(pair: string)
    ensures var d := Split(DenormalizePair(pair), '/');
      && |d| == 2
      && (Split(pair, '/')[0] in {"BTC", "XBT"} <==> d[0] == "XBT")
      && (d[0] != "XBT" ==> d[0] == Split(pair, '/')[0])
      && d[1] == SymbolText(ParsePair(pair).quote)
  {
    var p := ParsePair(pair);
    PiecesHaveNoSlash(pair);
    var b := if p.base == "BTC" then "XBT" else p.base;
    assert '/' !in b;
    SplitAt(b, SymbolText(p.quote), '/');
    SplitWhole(SymbolText(p.quote), '/');
  }

  /** Denormalising and normalising again is the same as normalising, for
      every pair string (with one slash, none, or several). */
  lemma NormalizeDenormalize(pair: string)
    ensures NormalizePair(DenormalizePair(pair)) == NormalizePair(pair)
  {
    var p := ParsePair(pair);
    PiecesHaveNoSlash(pair);
    var b := if p.base == "BTC" then "XBT" else p.base;
    assert '/' !in b;
    ParsePairOfTwo(b, SymbolText(p.quote));
  }

  /** The wire spelling and the canonical spelling of Bitcoin name the same pair. */
  lemma BitcoinAliasRoundTrip()
    ensures NormalizePair("XBT/USD") == "BTC/USD"
    ensures NormalizePair("BTC/USD") == "BTC/USD"
    ensures DenormalizePair("BTC/USD") == "XBT/USD"
  {
    assert "XBT/USD" == "XBT" + "/" + "USD";
    assert "BTC/USD" == "BTC" + "/" + "USD";
    assert '/' !in "XBT" && '/' !in "BTC" && '/' !in "USD";
    ParsePairOfTwo("XBT", "USD");
    ParsePairOfTwo("BTC", "USD");
    assert "BTC" + "/" + "USD" == "BTC/USD";
    assert "XBT" + "/" + "USD" == "XBT/USD";
  }
}
