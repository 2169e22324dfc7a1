/** The typed records of lib/types.ts that the routing logic works on. */
module Types {
  import opened Wrappers

  /** A liquidity provider; its identity is the endpoint URL. */
  datatype Provider = Provider(name: string, endpoint: string)

  /** A per-asset pair of fee figures: basis points for a percentage fee,
      native units for a fixed fee. */
  datatype FeePair = FeePair(baseAsset: real, quoteAsset: real)

  /** Provider liquidity, each side as JavaScript's `Number()` reads the wire
      string: `None` is NaN, which no comparison holds for. */
  datatype Balance = Balance(baseAmount: Option<real>, quoteAmount: Option<real>)

  /** A price snapshot. The wire check does not look at `balance`, so it may be absent. */
  datatype MarketPrice = MarketPrice(spotPrice: real, minTradableAmount: string, balance: Option<Balance>)

  /** A market of one provider, with its optional fee schedule and price snapshot. */
  datatype Market = Market(
    provider: Provider,
    baseAsset: string,
    quoteAsset: string,
    percentageFee: Option<FeePair>,
    fixedFee: Option<FeePair>,
    price: Option<MarketPrice>)

  /** One side of the user's swap; `amount` is optional. */
  datatype Coin = Coin(assetHash: string, amount: Option<real>)

  /** What the user pays (`from`) and what the user receives (`dest`). */
  datatype CoinPair = CoinPair(from: Coin, dest: Coin)

  /** A coin amount with a missing amount read as zero (`amount ?? 0`). */
  function Amount(c: Coin): real
  {
    c.amount.GetOr(0.0)
  }

  datatype TradeType = BUY | SELL

  /** The numeric value of the enumeration member. */
  function TradeTypeCode(t: TradeType): (n: int)
    ensures 0 <= n <= 1
    ensures t == BUY <==> n == 0
  {
    match t
    case BUY => 0
    case SELL => 1
  }

  /** The member with a given numeric value, if there is one. */
  function TradeTypeFromCode(n: int): (r: Option<TradeType>)
    ensures r.Some? <==> n == 0 || n == 1
    ensures r.Some? ==> TradeTypeCode(r.value) == n
  {
    if n == 0 then Some(BUY)
    else if n == 1 then Some(SELL)
    else None
  }

  /** The encoding round-trips: every member decodes from its own code. */
  lemma TradeTypeCodeRoundTrip(t: TradeType)
    ensures TradeTypeFromCode(TradeTypeCode(t)) == Some(t)
  {
  }
}
