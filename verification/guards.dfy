/** The `isTDEXv2*` shape checks of lib/types.ts, evaluated with JavaScript's
    rules: each returns true, returns false, or throws. Each check is stated
    against a plain structural description of what it accepts, and of when
    it throws. */
module Guards {
  import opened Js

  /** Field `key` of `v` holds a string. */
  predicate StrAt(v: Value, key: string)
  {
    Field(v, key).Str?
  }

  /** Field `key` of `v` holds a number. */
  predicate NumAt(v: Value, key: string)
  {
    Field(v, key).Num?
  }

  /** The values `typeof` calls 'object': null, arrays and objects. */
  predicate ObjectLike(v: Value)
  {
    v.Null? || v.Arr? || v.Obj?
  }

  /** Accepts any object with string `baseAsset` and `quoteAsset`; nothing
      else is looked at, so equal assets or a missing fee pass. */
  function IsMarket(v: Value): (r: Eval<bool>)
    ensures r == Ok(true) <==> v.Obj? && StrAt(v, "baseAsset") && StrAt(v, "quoteAsset")
    ensures r.Throw? <==> v.Null?
  {
    And(TypeIs(Ok(v), ObjectTag),
    And(TypeIs(Dot(Ok(v), "baseAsset"), StringTag),
        TypeIs(Dot(Ok(v), "quoteAsset"), StringTag)))
  }

  /** Accepts any object with string `name` and `endpoint`, empty strings included. */
  function IsProvider(v: Value): (r: Eval<bool>)
    ensures r == Ok(true) <==> v.Obj? && StrAt(v, "name") && StrAt(v, "endpoint")
    ensures r.Throw? <==> v.Null?
  {
    And(TypeIs(Ok(v), ObjectTag),
    And(TypeIs(Dot(Ok(v), "name"), StringTag),
        TypeIs(Dot(Ok(v), "endpoint"), StringTag)))
  }

  /** Accepts any object with a numeric `spotPrice` and a string
      `minTradableAmount`; `balance` is not looked at. */
  function IsMarketPrice(v: Value): (r: Eval<bool>)
    ensures r == Ok(true) <==> v.Obj? && NumAt(v, "spotPrice") && StrAt(v, "minTradableAmount")
    ensures r.Throw? <==> v.Null?
  {
    And(TypeIs(Ok(v), ObjectTag),
    And(TypeIs(Dot(Ok(v), "spotPrice"), NumberTag),
        TypeIs(Dot(Ok(v), "minTradableAmount"), StringTag)))
  }

  /** Every leaf of a trade preview has its declared type. */
  predicate PreviewShaped(v: Value)
  {
    var fee := Field(v, "fee");
    var price := Field(v, "price");
    && v.Obj?
    && StrAt(v, "amount")
    && StrAt(v, "asset")
    && fee.Obj?
    && StrAt(Field(fee, "fixedFee"), "baseAsset")
    && StrAt(Field(fee, "fixedFee"), "quoteAsset")
    && StrAt(Field(fee, "percentageFee"), "baseAsset")
    && StrAt(Field(fee, "percentageFee"), "quoteAsset")
    && StrAt(v, "feeAmount")
    && StrAt(v, "feeAsset")
    && price.Obj?
    && NumAt(price, "basePrice")
    && NumAt(price, "quotePrice")
  }

  /** Accepts exactly the previews whose ten leaves are typed as declared and
      whose `fee` and `price` are objects (twelve `typeof` tests below the root).
      The nested fee reads are not guarded, so a `fee` without `fixedFee` or
      `percentageFee` throws rather than being rejected; only null and objects
      can make it throw. */
  function IsPreviewTradeResponse(v: Value): (r: Eval<bool>)
    ensures r == Ok(true) <==> PreviewShaped(v)
    ensures v.Null? ==> r.Throw?
    ensures r.Throw? ==> v.Null? || v.Obj?
  {
    var fee := Dot(Ok(v), "fee");
    var price := Dot(Ok(v), "price");
    And(TypeIs(Ok(v), ObjectTag),
    And(TypeIs(Dot(Ok(v), "amount"), StringTag),
    And(TypeIs(Dot(Ok(v), "asset"), StringTag),
    And(TypeIs(fee, ObjectTag),
    And(TypeIs(Dot(Dot(fee, "fixedFee"), "baseAsset"), StringTag),
    And(TypeIs(Dot(Dot(fee, "fixedFee"), "quoteAsset"), StringTag),
    And(TypeIs(Dot(Dot(fee, "percentageFee"), "baseAsset"), StringTag),
    And(TypeIs(Dot(Dot(fee, "percentageFee"), "quoteAsset"), StringTag),
    And(TypeIs(Dot(Ok(v), "feeAmount"), StringTag),
    And(TypeIs(Dot(Ok(v), "feeAsset"), StringTag),
    And(TypeIs(price, ObjectTag),
    And(TypeIs(Dot(price, "basePrice"), NumberTag),
        TypeIs(Dot(price, "quotePrice"), NumberTag)))))))))))))
  }

  /** A preview whose `fee` object lacks `fixedFee` throws instead of being rejected. */
  lemma PreviewThrowsWithoutFixedFee(v: Value)
    requires v.Obj? && StrAt(v, "amount") && StrAt(v, "asset")
    requires Field(v, "fee").Obj? && "fixedFee" !in Field(v, "fee").fields
    ensures IsPreviewTradeResponse(v).Throw?
  {
  }

  /** A preview whose fixed fees are well typed but whose `fee` object lacks
      `percentageFee` throws instead of being rejected. */
  lemma PreviewThrowsWithoutPercentageFee(v: Value)
    requires v.Obj? && StrAt(v, "amount") && StrAt(v, "asset")
    requires Field(v, "fee").Obj?
    requires StrAt(Field(Field(v, "fee"), "fixedFee"), "baseAsset")
    requires StrAt(Field(Field(v, "fee"), "fixedFee"), "quoteAsset")
    requires "percentageFee" !in Field(v, "fee").fields
    ensures IsPreviewTradeResponse(v).Throw?
  {
  }

  /** Accepts any object whose `expiryTimeUnix` is a string; neither
      `swapAccept` nor `swapFail` is looked at. */
  function IsProposeTradeResponse(v: Value): (r: Eval<bool>)
    ensures r == Ok(true) <==> v.Obj? && StrAt(v, "expiryTimeUnix")
    ensures r.Throw? <==> v.Null?
  {
    And(TypeIs(Ok(v), ObjectTag),
        TypeIs(Dot(Ok(v), "expiryTimeUnix"), StringTag))
  }

  /** Accepts any object with a string `txid` or an object-typed `swapFail`,
      and `typeof null` is 'object', so `swapFail: null` is enough. */
  function IsCompleteTradeResponse(v: Value): (r: Eval<bool>)
    ensures r == Ok(true) <==> v.Obj? && (StrAt(v, "txid") || ObjectLike(Field(v, "swapFail")))
    ensures r.Throw? <==> v.Null?
  {
    And(TypeIs(Ok(v), ObjectTag),
     Or(TypeIs(Dot(Ok(v), "txid"), StringTag),
        TypeIs(Dot(Ok(v), "swapFail"), ObjectTag)))
  }
}
