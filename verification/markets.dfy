/** Market discovery replies, trade direction, fees and best-market selection
    (lib/tdex/market.ts). */
module Markets {
  import opened Wrappers
  import opened Js
  import opened Seqs
  import opened Types
  import Guards
  import Wire

  // ---------------------------------------------------------------------------
  // Trade direction

  /** A market quotes the pair's two assets, in either orientation. */
  predicate PairMatches(m: Market, pair: CoinPair)
  {
    || (m.baseAsset == pair.from.assetHash && m.quoteAsset == pair.dest.assetHash)
    || (m.baseAsset == pair.dest.assetHash && m.quoteAsset == pair.from.assetHash)
  }

  /** SELL exactly when the user pays the market's base asset, BUY otherwise,
      even for a market that quotes neither asset of the pair. On a market
      for the pair, BUY means the user pays the quote asset and receives the
      base asset. */
  function TradeTypeOf(m: Market, pair: CoinPair): (t: TradeType)
    ensures t == SELL <==> m.baseAsset == pair.from.assetHash
    ensures m.baseAsset != pair.from.assetHash && m.quoteAsset != pair.from.assetHash ==> t == BUY
    ensures PairMatches(m, pair) && pair.from.assetHash != pair.dest.assetHash ==>
              (t == BUY <==> m.quoteAsset == pair.from.assetHash && m.baseAsset == pair.dest.assetHash)
  {
    if m.baseAsset == pair.from.assetHash then SELL else BUY
  }

  // ---------------------------------------------------------------------------
  // Fees

  /** The side of a fee schedule a trade pays: the quote asset when buying
      the base asset, the base asset when selling it. */
  function FeeSide(f: FeePair, t: TradeType): real
  {
    if t == BUY then f.quoteAsset else f.baseAsset
  }

  predicate FeesNonNegative(m: Market)
  {
    && (m.fixedFee.Some? ==> m.fixedFee.value.baseAsset >= 0.0 && m.fixedFee.value.quoteAsset >= 0.0)
    && (m.percentageFee.Some? ==> m.percentageFee.value.baseAsset >= 0.0 && m.percentageFee.value.quoteAsset >= 0.0)
  }

  /** `bp` basis points (hundredths of a percent) of `amount`. */
  function BasisPoints(amount: real, bp: real): real
  {
    amount * bp / 10000.0
  }

  /** The fixed fee plus the percentage fee (in basis points) of the amount
      paid, both read from the side the market's own direction pays; absent
      exactly when either schedule is missing. */
  function TotalMarketFees(m: Market, pair: CoinPair): (r: Option<real>)
    ensures r.None? <==> m.fixedFee.None? || m.percentageFee.None?
    ensures r.Some? && FeesNonNegative(m) && Amount(pair.from) >= 0.0 ==> r.value >= 0.0
    ensures r.Some? ==>
              var t := TradeTypeOf(m, pair);
              r.value == FeeSide(m.fixedFee.value, t) + BasisPoints(Amount(pair.from), FeeSide(m.percentageFee.value, t))
  {
    if m.fixedFee.None? || m.percentageFee.None? then None
    else
      var t := TradeTypeOf(m, pair);
      Some(FeeSide(m.fixedFee.value, t) + BasisPoints(Amount(pair.from), FeeSide(m.percentageFee.value, t)))
  }

  /** With non-negative percentages, paying more never costs less in fees. */
  lemma FeesMonotoneInAmount(m: Market, pair: CoinPair, larger: real)
    requires TotalMarketFees(m, pair).Some? && FeesNonNegative(m)
    requires larger >= Amount(pair.from)
    ensures TotalMarketFees(m, pair.(from := pair.from.(amount := Some(larger)))).value
            >= TotalMarketFees(m, pair).value
  {
    var t := TradeTypeOf(m, pair);
    var bigger := pair.(from := pair.from.(amount := Some(larger)));
    assert TradeTypeOf(m, bigger) == t && Amount(bigger.from) == larger;
    var fixed := FeeSide(m.fixedFee.value, t);
    var pct := FeeSide(m.percentageFee.value, t);
    assert pct >= 0.0;
    BasisPointsMonotone(Amount(pair.from), larger, pct);
    assert TotalMarketFees(m, bigger).value == fixed + BasisPoints(larger, pct);
    assert TotalMarketFees(m, pair).value == fixed + BasisPoints(Amount(pair.from), pct);
  }

  lemma BasisPointsMonotone(x: real, y: real, bp: real)
    requires x <= y && bp >= 0.0
    ensures BasisPoints(x, bp) <= BasisPoints(y, bp)
  {
    assert (y - x) * bp >= 0.0;
    assert y * bp - x * bp == (y - x) * bp;
  }

  /** The fee reads only the side of the schedule the trade pays: a buyer's
      fee ignores the base-side figures, a seller's the quote-side ones. */
  lemma FeesIgnoreUnpaidSide(m: Market, pair: CoinPair, otherFixed: real, otherPct: real)
    requires m.fixedFee.Some? && m.percentageFee.Some?
    ensures TradeTypeOf(m, pair) == BUY ==>
              TotalMarketFees(m, pair) == TotalMarketFees(
                m.(fixedFee := Some(m.fixedFee.value.(baseAsset := otherFixed)),
                   percentageFee := Some(m.percentageFee.value.(baseAsset := otherPct))), pair)
    ensures TradeTypeOf(m, pair) == SELL ==>
              TotalMarketFees(m, pair) == TotalMarketFees(
                m.(fixedFee := Some(m.fixedFee.value.(quoteAsset := otherFixed)),
                   percentageFee := Some(m.percentageFee.value.(quoteAsset := otherPct))), pair)
  {
    var t := TradeTypeOf(m, pair);
    var other := if t == BUY
      then m.(fixedFee := Some(m.fixedFee.value.(baseAsset := otherFixed)),
              percentageFee := Some(m.percentageFee.value.(baseAsset := otherPct)))
      else m.(fixedFee := Some(m.fixedFee.value.(quoteAsset := otherFixed)),
              percentageFee := Some(m.percentageFee.value.(quoteAsset := otherPct)));
    assert TradeTypeOf(other, pair) == t;
    assert FeeSide(other.fixedFee.value, t) == FeeSide(m.fixedFee.value, t);
    assert FeeSide(other.percentageFee.value, t) == FeeSide(m.percentageFee.value, t);
    assert TotalMarketFees(m, pair).value == TotalMarketFees(other, pair).value;
    assert TotalMarketFees(m, pair).Some? && TotalMarketFees(other, pair).Some?;
  }

  // ---------------------------------------------------------------------------
  // Candidate filters

  predicate ProviderMatches(m: Market, useProvider: Option<Provider>)
  {
    useProvider.None? || m.provider.endpoint == useProvider.value.endpoint
  }

  /** `Number(x) < y` where `None` is NaN: never true. */
  predicate Below(x: Option<real>, y: real)
  {
    x.Some? && x.value < y
  }

  /** The market has a balance snapshot and the side the user receives is not
      known to fall short of the destination amount (a missing amount is zero). */
  predicate HasLiquidity(m: Market, pair: CoinPair, t: TradeType)
  {
    && m.price.Some?
    && m.price.value.balance.Some?
    && var b := m.price.value.balance.value;
       if t == BUY then !Below(b.baseAmount, Amount(pair.dest))
       else !Below(b.quoteAmount, Amount(pair.dest))
  }

  /** All three filters, with the trade type fixed by the caller. */
  predicate Survives(m: Market, pair: CoinPair, useProvider: Option<Provider>, t: TradeType)
  {
    ProviderMatches(m, useProvider) && PairMatches(m, pair) && HasLiquidity(m, pair, t)
  }

  /** The provider, pair and liquidity filters applied in turn: exactly the
      markets that pass all three, in input order. */
  function Candidates(markets: seq<Market>, pair: CoinPair, useProvider: Option<Provider>, t: TradeType)
    : (r: seq<Market>)
    ensures |r| <= |markets|
    ensures forall i :: 0 <= i < |r| ==> r[i] in markets && Survives(r[i], pair, useProvider, t)
    ensures forall i :: 0 <= i < |markets| && Survives(markets[i], pair, useProvider, t) ==> markets[i] in r
    ensures r == Filter(markets, m => Survives(m, pair, useProvider, t))
  {
    var provider := m => ProviderMatches(m, useProvider);
    var pairs := m => PairMatches(m, pair);
    var both := m => ProviderMatches(m, useProvider) && PairMatches(m, pair);
    var liquid := m => HasLiquidity(m, pair, t);
    FilterFilter(markets, provider, pairs, both);
    FilterFilter(markets, both, liquid, m => Survives(m, pair, useProvider, t));
    Filter(Filter(Filter(markets, provider), pairs), liquid)
  }

  // ---------------------------------------------------------------------------
  // Ranking

  /** The quoted spot price, zero without a price snapshot. */
  function Spot(m: Market): real
  {
    if m.price.Some? then m.price.value.spotPrice else 0.0
  }

  /** Net proceeds of the trade on `m` for direction `t`: the amount paid
      divided (BUY) or multiplied (SELL) by the spot price, less the fees, a
      missing fee counting as zero. A BUY against a zero spot price divides
      by zero, giving an infinity signed like the amount, or NaN when nothing
      is paid. */
  function Proceeds(m: Market, pair: CoinPair, t: TradeType): (r: Number)
    ensures r.NaN? <==> t == BUY && Amount(pair.from) == 0.0 && Spot(m) == 0.0
    ensures r.PosInf? <==> t == BUY && Amount(pair.from) > 0.0 && Spot(m) == 0.0
    ensures r.NegInf? <==> t == BUY && Amount(pair.from) < 0.0 && Spot(m) == 0.0
    ensures t == SELL || Spot(m) != 0.0 ==> r.Finite?
  {
    var fees := TotalMarketFees(m, pair).GetOr(0.0);
    if t == BUY then Minus(Div(Amount(pair.from), Spot(m)), fees)
    else Finite(Amount(pair.from) * Spot(m) - fees)
  }

  /** One step of the reduce: the current market replaces the best so far
      only when its proceeds are strictly greater. */
  function Better(best: Market, current: Market, pair: CoinPair, t: TradeType): Market
  {
    if Gt(Proceeds(current, pair, t), Proceeds(best, pair, t)) then current else best
  }

  /** The reduce over `rest`, starting from `best`. */
  function FoldBest(best: Market, rest: seq<Market>, pair: CoinPair, t: TradeType): (r: Market)
    ensures r == best || r in rest
    decreases |rest|
  {
    if |rest| == 0 then best
    else FoldBest(Better(best, rest[0], pair, t), rest[1..], pair, t)
  }

  /** `xs[k]` has the greatest proceeds in `xs`, and strictly greater
      proceeds than every market before it. */
  ghost predicate EarliestBest(xs: seq<Market>, k: int, pair: CoinPair, t: TradeType)
  {
    && 0 <= k < |xs|
    && (forall j :: 0 <= j < |xs| ==> !Gt(Proceeds(xs[j], pair, t), Proceeds(xs[k], pair, t)))
    && (forall j :: 0 <= j < k ==> Gt(Proceeds(xs[k], pair, t), Proceeds(xs[j], pair, t)))
  }

  ghost predicate NoNaN(xs: seq<Market>, pair: CoinPair, t: TradeType)
  {
    forall j :: 0 <= j < |xs| ==> !Proceeds(xs[j], pair, t).NaN?
  }

  /** Folding further markets into the earliest best of a prefix yields the
      earliest best of the whole sequence, provided no proceeds are NaN. */
  lemma {:induction false} FoldKeepsEarliestBest(xs: seq<Market>, k: int, rest: seq<Market>, pair: CoinPair, t: TradeType)
    requires EarliestBest(xs, k, pair, t)
    requires NoNaN(xs + rest, pair, t)
    ensures exists k' :: EarliestBest(xs + rest, k', pair, t) && FoldBest(xs[k], rest, pair, t) == (xs + rest)[k']
    decreases |rest|
  {
    if |rest| == 0 {
      assert xs + rest == xs;
      assert EarliestBest(xs + rest, k, pair, t);
    } else {
      var c := rest[0];
      var ys := xs + [c];
      assert ys + rest[1..] == xs + rest;
      assert NoNaN(ys, pair, t) by {
        forall j | 0 <= j < |ys| ensures !Proceeds(ys[j], pair, t).NaN? {
          assert ys[j] == (xs + rest)[j];
        }
      }
      var pc := Proceeds(c, pair, t);
      var pb := Proceeds(xs[k], pair, t);
      if Gt(pc, pb) {
        assert Better(xs[k], c, pair, t) == c;
        forall j | 0 <= j < |ys|
          ensures !Gt(Proceeds(ys[j], pair, t), pc)
          ensures j < |xs| ==> Gt(pc, Proceeds(ys[j], pair, t))
        {
          var pj := Proceeds(ys[j], pair, t);
          GtOrder(pc, pb, pj);
          GtOrder(pb, pj, pc);
          GtOrder(pj, pb, pc);
          GtOrder(pj, pc, pb);
          if j < |xs| {
            assert ys[j] == xs[j];
            assert !Gt(pj, pb);
          }
        }
        assert EarliestBest(ys, |xs|, pair, t);
        assert ys[|xs|] == c;
        FoldKeepsEarliestBest(ys, |xs|, rest[1..], pair, t);
      } else {
        assert Better(xs[k], c, pair, t) == xs[k];
        forall j | 0 <= j < |ys|
          ensures !Gt(Proceeds(ys[j], pair, t), pb)
        {
          if j < |xs| { assert ys[j] == xs[j]; }
        }
        assert forall j :: 0 <= j < k ==> ys[j] == xs[j];
        assert EarliestBest(ys, k, pair, t);
        assert ys[k] == xs[k];
        FoldKeepsEarliestBest(ys, k, rest[1..], pair, t);
      }
    }
  }

  // ---------------------------------------------------------------------------
  // Best market

  /** The market a trade of `pair` should go through: nothing for an empty
      list; otherwise the direction is taken once from the first market, the
      three filters are applied, and the survivor with the greatest proceeds
      is returned (a lone survivor directly). When nothing survives, the
      reduce returns its seed, which is then `undefined`. */
  function BestMarket(markets: seq<Market>, pair: CoinPair, useProvider: Option<Provider>): (r: Option<Market>)
    ensures |markets| == 0 ==> r.None?
    ensures r.Some? ==> r.value in markets && Survives(r.value, pair, useProvider, TradeTypeOf(markets[0], pair))
    ensures |markets| > 0 ==>
              (r.None? <==> forall i :: 0 <= i < |markets| ==> !Survives(markets[i], pair, useProvider, TradeTypeOf(markets[0], pair)))
  {
    if |markets| == 0 then None
    else
      var t := TradeTypeOf(markets[0], pair);
      var valid := Candidates(markets, pair, useProvider, t);
      if |valid| == 0 then None
      else if |valid| == 1 then Some(valid[0])
      else Some(FoldBest(valid[0], valid, pair, t))
  }

  /** The shortcut for a lone survivor returns what the reduce would. */
  lemma LoneSurvivorMatchesReduce(markets: seq<Market>, pair: CoinPair, useProvider: Option<Provider>)
    requires |markets| > 0
    requires |Candidates(markets, pair, useProvider, TradeTypeOf(markets[0], pair))| == 1
    ensures var valid := Candidates(markets, pair, useProvider, TradeTypeOf(markets[0], pair));
            BestMarket(markets, pair, useProvider) == Some(valid[0])
            && FoldBest(valid[0], valid, pair, TradeTypeOf(markets[0], pair)) == valid[0]
  {
    var t := TradeTypeOf(markets[0], pair);
    var valid := Candidates(markets, pair, useProvider, t);
    GtOrder(Proceeds(valid[0], pair, t), Proceeds(valid[0], pair, t), Proceeds(valid[0], pair, t));
  }

  /** Reducing a non-empty sequence seeded with its own head yields its
      earliest best, provided no proceeds are NaN. */
  lemma {:induction false} ReduceFromHeadIsEarliestBest(valid: seq<Market>, pair: CoinPair, t: TradeType)
    requires |valid| > 1
    requires NoNaN(valid, pair, t)
    ensures exists k :: EarliestBest(valid, k, pair, t) && FoldBest(valid[0], valid, pair, t) == valid[k]
  {
    var p0 := Proceeds(valid[0], pair, t);
    GtOrder(p0, p0, p0);
    var head := [valid[0]];
    assert EarliestBest(head, 0, pair, t);
    assert head + valid[1..] == valid;
    assert Better(valid[0], valid[0], pair, t) == valid[0];
    assert FoldBest(valid[0], valid, pair, t) == FoldBest(valid[0], valid[1..], pair, t);
    FoldKeepsEarliestBest(head, 0, valid[1..], pair, t);
  }

  /** When no survivor's proceeds are NaN, the chosen market is the first
      survivor with the greatest net proceeds: ties go to the earlier one. */
  lemma {:induction false} BestMarketIsEarliestMaximum(markets: seq<Market>, pair: CoinPair, useProvider: Option<Provider>)
    requires |markets| > 0
    requires |Candidates(markets, pair, useProvider, TradeTypeOf(markets[0], pair))| > 0
    requires NoNaN(Candidates(markets, pair, useProvider, TradeTypeOf(markets[0], pair)), pair, TradeTypeOf(markets[0], pair))
    ensures var t := TradeTypeOf(markets[0], pair);
            var valid := Candidates(markets, pair, useProvider, t);
            exists k :: EarliestBest(valid, k, pair, t) && BestMarket(markets, pair, useProvider) == Some(valid[k])
  {
    var t := TradeTypeOf(markets[0], pair);
    var valid := Candidates(markets, pair, useProvider, t);
    if |valid| == 1 {
      var p0 := Proceeds(valid[0], pair, t);
      GtOrder(p0, p0, p0);
      assert EarliestBest(valid, 0, pair, t);
      assert BestMarket(markets, pair, useProvider) == Some(valid[0]);
    } else {
      ReduceFromHeadIsEarliestBest(valid, pair, t);
      var k :| EarliestBest(valid, k, pair, t) && FoldBest(valid[0], valid, pair, t) == valid[k];
      assert BestMarket(markets, pair, useProvider) == Some(valid[k]);
    }
  }

  /** The `k`-th survivor sits at some position `i` of the input; every
      survivor is among the candidates, and every survivor listed before `i`
      is among the first `k` of them. */
  lemma SurvivorPosition(markets: seq<Market>, pair: CoinPair, useProvider: Option<Provider>, t: TradeType, k: int)
    requires 0 <= k < |Candidates(markets, pair, useProvider, t)|
    ensures var valid := Candidates(markets, pair, useProvider, t);
            && (forall j :: 0 <= j < |markets| && Survives(markets[j], pair, useProvider, t) ==> markets[j] in valid)
            && exists i :: 0 <= i < |markets| && markets[i] == valid[k]
                           && forall j :: 0 <= j < i && Survives(markets[j], pair, useProvider, t) ==>
                                exists j' :: 0 <= j' < k && valid[j'] == markets[j]
  {
    var survives := m => Survives(m, pair, useProvider, t);
    FilterEarlier(markets, survives, k);
  }

  /** The earliest best survivor, located at position `i` of the input: no
      survivor beats it, and it beats every survivor listed before it. */
  lemma EarliestBestInInput(markets: seq<Market>, valid: seq<Market>, pair: CoinPair, useProvider: Option<Provider>,
                            t: TradeType, k: int, i: int)
    requires EarliestBest(valid, k, pair, t)
    requires 0 <= i < |markets| && markets[i] == valid[k]
    requires forall j :: 0 <= j < |markets| && Survives(markets[j], pair, useProvider, t) ==> markets[j] in valid
    requires forall j :: 0 <= j < i && Survives(markets[j], pair, useProvider, t) ==>
               exists j' :: 0 <= j' < k && valid[j'] == markets[j]
    ensures forall j :: 0 <= j < |markets| && Survives(markets[j], pair, useProvider, t) ==>
              !Gt(Proceeds(markets[j], pair, t), Proceeds(markets[i], pair, t))
    ensures forall j :: 0 <= j < i && Survives(markets[j], pair, useProvider, t) ==>
              Gt(Proceeds(markets[i], pair, t), Proceeds(markets[j], pair, t))
  {
    forall j | 0 <= j < |markets| && Survives(markets[j], pair, useProvider, t)
      ensures !Gt(Proceeds(markets[j], pair, t), Proceeds(markets[i], pair, t))
    {
      var j' :| 0 <= j' < |valid| && valid[j'] == markets[j];
    }
    forall j | 0 <= j < i && Survives(markets[j], pair, useProvider, t)
      ensures Gt(Proceeds(markets[i], pair, t), Proceeds(markets[j], pair, t))
    {
      var j' :| 0 <= j' < k && valid[j'] == markets[j];
    }
  }

  /** `markets[i]` survives the filters, no survivor has greater proceeds,
      and it has strictly greater proceeds than every survivor listed before
      it: the first maximum of the survivors in input order. */
  ghost predicate FirstMaximumAt(markets: seq<Market>, i: int, pair: CoinPair, useProvider: Option<Provider>, t: TradeType)
  {
    && 0 <= i < |markets|
    && Survives(markets[i], pair, useProvider, t)
    && (forall j :: 0 <= j < |markets| && Survives(markets[j], pair, useProvider, t) ==>
          !Gt(Proceeds(markets[j], pair, t), Proceeds(markets[i], pair, t)))
    && (forall j :: 0 <= j < i && Survives(markets[j], pair, useProvider, t) ==>
          Gt(Proceeds(markets[i], pair, t), Proceeds(markets[j], pair, t)))
  }

  /** The earliest best candidate, located in the input list. */
  lemma LocateEarliestBest(markets: seq<Market>, pair: CoinPair, useProvider: Option<Provider>, t: TradeType, k: int)
    requires EarliestBest(Candidates(markets, pair, useProvider, t), k, pair, t)
    ensures exists i :: FirstMaximumAt(markets, i, pair, useProvider, t)
                        && markets[i] == Candidates(markets, pair, useProvider, t)[k]
  {
    var valid := Candidates(markets, pair, useProvider, t);
    SurvivorPosition(markets, pair, useProvider, t, k);
    var i :| 0 <= i < |markets| && markets[i] == valid[k]
             && forall j :: 0 <= j < i && Survives(markets[j], pair, useProvider, t) ==>
                  exists j' :: 0 <= j' < k && valid[j'] == markets[j];
    EarliestBestInInput(markets, valid, pair, useProvider, t, k, i);
    assert FirstMaximumAt(markets, i, pair, useProvider, t);
  }

  /** The same choice read against the input list: the chosen market is the
      first maximum of the survivors in input order, so a tie goes to the
      market listed first. */
  lemma BestMarketIsFirstMaximumOfInput(markets: seq<Market>, pair: CoinPair, useProvider: Option<Provider>)
    requires |markets| > 0
    requires |Candidates(markets, pair, useProvider, TradeTypeOf(markets[0], pair))| > 0
    requires NoNaN(Candidates(markets, pair, useProvider, TradeTypeOf(markets[0], pair)), pair, TradeTypeOf(markets[0], pair))
    ensures exists i :: FirstMaximumAt(markets, i, pair, useProvider, TradeTypeOf(markets[0], pair))
                        && BestMarket(markets, pair, useProvider) == Some(markets[i])
  {
    var t := TradeTypeOf(markets[0], pair);
    var valid := Candidates(markets, pair, useProvider, t);
    BestMarketIsEarliestMaximum(markets, pair, useProvider);
    var k :| EarliestBest(valid, k, pair, t) && BestMarket(markets, pair, useProvider) == Some(valid[k]);
    LocateEarliestBest(markets, pair, useProvider, t, k);
  }

  /** Proceeds can only be NaN for a BUY paying nothing at a zero spot price,
      so a non-zero amount makes every survivor comparable. */
  lemma NonZeroAmountIsComparable(xs: seq<Market>, pair: CoinPair, t: TradeType)
    requires Amount(pair.from) != 0.0
    ensures NoNaN(xs, pair, t)
  {
  }

  /** On a BUY, a market whose base balance is known to be below the
      destination amount is never chosen, whatever its price. */
  lemma BuyNeverPicksShortBase(markets: seq<Market>, pair: CoinPair, useProvider: Option<Provider>, m: Market)
    requires |markets| > 0 && TradeTypeOf(markets[0], pair) == BUY
    requires m.price.Some? && m.price.value.balance.Some?
    requires Below(m.price.value.balance.value.baseAmount, Amount(pair.dest))
    ensures BestMarket(markets, pair, useProvider) != Some(m)
  {
  }

  /** Two fee-free markets for a SELL of 100: the one quoting 2.0 beats the
      one quoting 1.0 (proceeds 200 against 100). */
  lemma SellPrefersHigherSpot()
    ensures var provider := Provider("p", "https://p");
            var balance := Some(Balance(Some(1000.0), Some(1000.0)));
            var low := Market(provider, "L-BTC", "USDT", None, None, Some(MarketPrice(1.0, "0", balance)));
            var high := Market(provider, "L-BTC", "USDT", None, None, Some(MarketPrice(2.0, "0", balance)));
            var pair := CoinPair(Coin("L-BTC", Some(100.0)), Coin("USDT", None));
            BestMarket([low, high], pair, None) == Some(high)
  {
    var provider := Provider("p", "https://p");
    var balance := Some(Balance(Some(1000.0), Some(1000.0)));
    var low := Market(provider, "L-BTC", "USDT", None, None, Some(MarketPrice(1.0, "0", balance)));
    var high := Market(provider, "L-BTC", "USDT", None, None, Some(MarketPrice(2.0, "0", balance)));
    var pair := CoinPair(Coin("L-BTC", Some(100.0)), Coin("USDT", None));
    var markets := [low, high];
    assert TradeTypeOf(low, pair) == SELL;
    assert Survives(low, pair, None, SELL) && Survives(high, pair, None, SELL);
    var valid := Candidates(markets, pair, None, SELL);
    assert Filter(markets, m => ProviderMatches(m, None)) == markets;
    assert Filter(markets, m => PairMatches(m, pair)) == markets;
    assert Filter(markets, m => HasLiquidity(m, pair, SELL)) == markets;
    assert valid == markets;
    assert Proceeds(high, pair, SELL) == Finite(200.0);
    assert Proceeds(low, pair, SELL) == Finite(100.0);
    assert FoldBest(low, markets, pair, SELL) == high;
  }

  // ---------------------------------------------------------------------------
  // Discovery replies

  /** A listed market before its shape check: the raw values read from one
      element of the `markets` reply. */
  datatype MarketEntry = MarketEntry(
    provider: Provider,
    baseAsset: Value,
    quoteAsset: Value,
    percentageFee: Value,
    fixedFee: Value)

  /** The object literal the mapping builds for an entry. */
  function EntryObject(e: MarketEntry): Value
  {
    Obj(map[
      "provider" := Wire.EncodeProvider(e.provider),
      "baseAsset" := e.baseAsset,
      "quoteAsset" := e.quoteAsset,
      "percentageFee" := e.percentageFee,
      "fixedFee" := e.fixedFee])
  }

  /** The market shape check applied to the built object; it cannot throw. */
  predicate Listable(e: MarketEntry)
    ensures Listable(e) <==> e.baseAsset.Str? && e.quoteAsset.Str?
  {
    Guards.IsMarket(EntryObject(e)) == Ok(true)
  }

  /** Whether reading an element throws: it, its `market` or its `fee` is null or undefined. */
  predicate EntryThrows(m: Value)
  {
    Nullish(m) || Nullish(Field(m, "market")) || Nullish(Field(m, "fee"))
  }

  /** The mapping of one reply element: the assets from `m.market`, the fee
      schedules from `m.fee`. */
  function ReadEntry(provider: Provider, m: Value): (r: Eval<MarketEntry>)
    ensures r.Throw? <==> EntryThrows(m)
    ensures r.Ok? ==> r.value.provider == provider
                      && r.value.baseAsset == Field(Field(m, "market"), "baseAsset")
                      && r.value.quoteAsset == Field(Field(m, "market"), "quoteAsset")
                      && r.value.percentageFee == Field(Field(m, "fee"), "percentageFee")
                      && r.value.fixedFee == Field(Field(m, "fee"), "fixedFee")
  {
    var market := Dot(Ok(m), "market");
    var fee := Dot(Ok(m), "fee");
    var base := Dot(market, "baseAsset");
    var quote := Dot(market, "quoteAsset");
    var pct := Dot(fee, "percentageFee");
    var fixed := Dot(fee, "fixedFee");
    // Every failure here is the TypeError of reading a property of null or undefined.
    if base.Ok? && quote.Ok? && pct.Ok? && fixed.Ok? then
      Ok(MarketEntry(provider, base.value, quote.value, pct.value, fixed.value))
    else Throw(TypeError)
  }

  const InvalidMarketsResponse := Error("Invalid markets response")

  /** The markets a provider lists, from its decoded `/v2/markets` reply:
      a null body throws, a non-array `markets` raises an error, an element
      without `market` or `fee` throws, and otherwise the elements with
      string base and quote assets are kept, in order, the rest dropped. */
  function ListMarkets(provider: Provider, body: Value): (r: Eval<seq<MarketEntry>>)
    ensures Nullish(body) ==> r == Throw(TypeError)
    ensures !Nullish(body) && !Field(body, "markets").Arr? ==> r == Throw(InvalidMarketsResponse)
    ensures Field(body, "markets").Arr? ==>
              var elems := Field(body, "markets").elems;
              && (r.Throw? <==> exists i :: 0 <= i < |elems| && EntryThrows(elems[i]))
              && (r.Ok? ==> |r.value| <= |elems|)
    ensures r.Ok? ==> forall i :: 0 <= i < |r.value| ==>
              r.value[i].provider == provider && r.value[i].baseAsset.Str? && r.value[i].quoteAsset.Str?
    ensures r.Ok? ==> forall i :: 0 <= i < |r.value| ==>
              exists j :: 0 <= j < |Field(body, "markets").elems| && ReadEntry(provider, Field(body, "markets").elems[j]) == Ok(r.value[i])
    ensures r.Ok? ==>
              var elems := Field(body, "markets").elems;
              r.value == Filter(seq(|elems|, j requires 0 <= j < |elems| => ReadEntry(provider, elems[j]).value), Listable)
  {
    var res := Dot(Ok(body), "markets");
    if res.Throw? then Throw(res.thrown)
    else if !res.value.Arr? then Throw(InvalidMarketsResponse)
    else
      var elems := res.value.elems;
      var read := MapEval(elems, m => ReadEntry(provider, m));
      if read.Throw? then Throw(read.thrown)
      else
        var kept := Filter(read.value, Listable);
        assert forall i :: 0 <= i < |kept| ==>
                 exists j :: 0 <= j < |elems| && ReadEntry(provider, elems[j]) == Ok(kept[i]) by {
          forall i | 0 <= i < |kept|
            ensures exists j :: 0 <= j < |elems| && ReadEntry(provider, elems[j]) == Ok(kept[i])
          {
            var j :| 0 <= j < |read.value| && read.value[j] == kept[i];
            assert ReadEntry(provider, elems[j]) == Ok(read.value[j]);
          }
        }
        assert read.value == seq(|elems|, j requires 0 <= j < |elems| => ReadEntry(provider, elems[j]).value);
        Ok(kept)
  }

  /** A reply with one well-formed element and one whose assets are not
      strings lists exactly the well-formed market. */
  lemma ListMarketsDropsMalformed(provider: Provider)
    ensures var good := Obj(map["market" := Wire.EncodeMarketKey("A", "B"), "fee" := Obj(map[])]);
            var bad := Obj(map["market" := Obj(map["baseAsset" := Num(1.0)]), "fee" := Obj(map[])]);
            ListMarkets(provider, Obj(map["markets" := Arr([good, bad])]))
              == Ok([MarketEntry(provider, Str("A"), Str("B"), Undefined, Undefined)])
  {
    var good := Obj(map["market" := Wire.EncodeMarketKey("A", "B"), "fee" := Obj(map[])]);
    var bad := Obj(map["market" := Obj(map["baseAsset" := Num(1.0)]), "fee" := Obj(map[])]);
    var body := Obj(map["markets" := Arr([good, bad])]);
    var eg := MarketEntry(provider, Str("A"), Str("B"), Undefined, Undefined);
    var eb := MarketEntry(provider, Num(1.0), Undefined, Undefined, Undefined);
    ExampleEntriesRead(provider, good, bad, eg, eb);
    ExampleEntriesFiltered(eg, eb);
    assert Dot(Ok(body), "markets") == Ok(Arr([good, bad]));
    var r := ListMarkets(provider, body);
    assert r.Ok? by {
      assert !EntryThrows([good, bad][0]) && !EntryThrows([good, bad][1]);
    }
    assert r.value == Filter([eg, eb], Listable);
  }

  lemma ExampleEntriesRead(provider: Provider, good: Value, bad: Value, eg: MarketEntry, eb: MarketEntry)
    requires ReadEntry(provider, good) == Ok(eg) && ReadEntry(provider, bad) == Ok(eb)
    ensures MapEval([good, bad], m => ReadEntry(provider, m)) == Ok([eg, eb])
  {
    var read := (m: Value) => ReadEntry(provider, m);
    assert [good, bad][1..] == [bad] && [bad][1..] == [];
    assert [eb] + [] == [eb] && [eg] + [eb] == [eg, eb];
    assert MapEval([bad], read) == Ok([eb]);
  }

  lemma ExampleEntriesFiltered(eg: MarketEntry, eb: MarketEntry)
    requires Listable(eg) && !Listable(eb)
    ensures Filter([eg, eb], Listable) == [eg]
  {
    assert [eg, eb][1..] == [eb] && [eb][1..] == [] && [eg] + [] == [eg];
    assert Filter([eb], Listable) == [];
  }

  /** The price reply is trusted only when its shape check answers true; a
      null reply makes the check throw. */
  function MarketPriceReply(body: Value): (r: Eval<Option<Value>>)
    ensures r.Throw? <==> body.Null?
    ensures r.Ok? && r.value.Some? ==>
              (r.value.value == body && body.Obj? && Guards.NumAt(body, "spotPrice") && Guards.StrAt(body, "minTradableAmount"))
    ensures r == Ok(None) <==> !body.Null? && !(body.Obj? && Guards.NumAt(body, "spotPrice") && Guards.StrAt(body, "minTradableAmount"))
  {
    match Guards.IsMarketPrice(body)
    case Throw(x) => Throw(x)
    case Ok(ok) => Ok(if ok then Some(body) else None)
  }
}
