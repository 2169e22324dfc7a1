/** The wire records of lib/types.ts, their JSON encodings, and how the shape
    checks treat them: every well-typed record passes its check, and the
    checks also pass values their declared types do not describe. */
module Wire {
  import opened Wrappers
  import opened Js
  import opened Types
  import opened Guards

  /** An asset-keyed pair of decimal strings, as fees travel on the wire. */
  datatype AssetStrings = AssetStrings(baseAsset: string, quoteAsset: string)

  datatype BalanceStrings = BalanceStrings(baseAmount: string, quoteAmount: string)

  /** The price reply as its declared type describes it. */
  datatype PriceReply = PriceReply(spotPrice: real, minTradableAmount: string, balance: BalanceStrings)

  datatype PreviewFee = PreviewFee(percentageFee: AssetStrings, fixedFee: AssetStrings)

  datatype PreviewPrice = PreviewPrice(basePrice: real, quotePrice: real)

  datatype PreviewTradeResponse = PreviewTradeResponse(
    amount: string,
    asset: string,
    fee: PreviewFee,
    feeAmount: string,
    feeAsset: string,
    price: PreviewPrice)

  /** Blinded transaction material, passed through without interpretation. */
  datatype UnblindedInput = UnblindedInput(
    index: int, asset: string, amount: string, assetBlinder: string, amountBlinder: string)

  datatype SwapAccept = SwapAccept(
    id: string, requestId: string, transaction: string, unblindedInputs: seq<UnblindedInput>)

  datatype SwapFail = SwapFail(id: string, messageId: string, failureCode: int, failureMessage: string)

  /** `swapAccept` and `swapFail` are each nullable; the type does not tie them together. */
  datatype ProposeTradeResponse = ProposeTradeResponse(
    swapAccept: Option<SwapAccept>, swapFail: Option<SwapFail>, expiryTimeUnix: string)

  datatype CompleteTradeResponse = CompleteTradeResponse(txid: string, swapFail: SwapFail)

  function EncodeAssetStrings(a: AssetStrings): Value
  {
    Obj(map["baseAsset" := Str(a.baseAsset), "quoteAsset" := Str(a.quoteAsset)])
  }

  function EncodeProvider(p: Provider): Value
  {
    Obj(map["name" := Str(p.name), "endpoint" := Str(p.endpoint)])
  }

  /** A trusted provider record from a checked value; `None` when the check
      does not answer true. */
  function DecodeProvider(v: Value): (r: Option<Provider>)
    ensures r.Some? <==> IsProvider(v) == Ok(true)
    ensures r.Some? ==> Field(v, "name") == Str(r.value.name) && Field(v, "endpoint") == Str(r.value.endpoint)
  {
    if IsProvider(v) == Ok(true) then Some(Provider(v.fields["name"].s, v.fields["endpoint"].s)) else None
  }

  /** Every provider record survives encoding, checking and decoding unchanged. */
  lemma ProviderRoundTrip(p: Provider)
    ensures IsProvider(EncodeProvider(p)) == Ok(true)
    ensures DecodeProvider(EncodeProvider(p)) == Some(p)
  {
  }

  /** The `{baseAsset, quoteAsset}` descriptor a market is identified by on the wire. */
  function EncodeMarketKey(baseAsset: string, quoteAsset: string): Value
  {
    Obj(map["baseAsset" := Str(baseAsset), "quoteAsset" := Str(quoteAsset)])
  }

  /** The market check accepts every descriptor, including one whose base and
      quote asset coincide. */
  lemma MarketKeyAccepted(baseAsset: string, quoteAsset: string)
    ensures IsMarket(EncodeMarketKey(baseAsset, quoteAsset)) == Ok(true)
  {
  }

  function EncodePriceReply(p: PriceReply): Value
  {
    Obj(map[
      "spotPrice" := Num(p.spotPrice),
      "minTradableAmount" := Str(p.minTradableAmount),
      "balance" := Obj(map["baseAmount" := Str(p.balance.baseAmount), "quoteAmount" := Str(p.balance.quoteAmount)])])
  }

  /** Every price reply of the declared type passes; so does one without a
      `balance`, which the declared type requires. */
  lemma PriceReplyAccepted(p: PriceReply)
    ensures IsMarketPrice(EncodePriceReply(p)) == Ok(true)
    ensures IsMarketPrice(EncodePriceReply(p).(fields := EncodePriceReply(p).fields - {"balance"})) == Ok(true)
  {
  }

  function EncodePreview(p: PreviewTradeResponse): Value
  {
    Obj(map[
      "amount" := Str(p.amount),
      "asset" := Str(p.asset),
      "fee" := Obj(map[
        "percentageFee" := EncodeAssetStrings(p.fee.percentageFee),
        "fixedFee" := EncodeAssetStrings(p.fee.fixedFee)]),
      "feeAmount" := Str(p.feeAmount),
      "feeAsset" := Str(p.feeAsset),
      "price" := Obj(map["basePrice" := Num(p.price.basePrice), "quotePrice" := Num(p.price.quotePrice)])])
  }

  /** The typed preview a checked value stands for: each of its ten leaves is
      the value's leaf at the same path. */
  function DecodePreview(v: Value): (r: Option<PreviewTradeResponse>)
    ensures r.Some? <==> IsPreviewTradeResponse(v) == Ok(true)
    ensures r.Some? ==>
              var p := r.value;
              var fee := Field(v, "fee");
              var price := Field(v, "price");
              && Field(v, "amount") == Str(p.amount)
              && Field(v, "asset") == Str(p.asset)
              && Field(Field(fee, "percentageFee"), "baseAsset") == Str(p.fee.percentageFee.baseAsset)
              && Field(Field(fee, "percentageFee"), "quoteAsset") == Str(p.fee.percentageFee.quoteAsset)
              && Field(Field(fee, "fixedFee"), "baseAsset") == Str(p.fee.fixedFee.baseAsset)
              && Field(Field(fee, "fixedFee"), "quoteAsset") == Str(p.fee.fixedFee.quoteAsset)
              && Field(v, "feeAmount") == Str(p.feeAmount)
              && Field(v, "feeAsset") == Str(p.feeAsset)
              && Field(price, "basePrice") == Num(p.price.basePrice)
              && Field(price, "quotePrice") == Num(p.price.quotePrice)
  {
    if IsPreviewTradeResponse(v) == Ok(true) then
      var fee := Field(v, "fee");
      var price := Field(v, "price");
      Some(PreviewTradeResponse(
        Field(v, "amount").s,
        Field(v, "asset").s,
        PreviewFee(
          AssetStrings(Field(Field(fee, "percentageFee"), "baseAsset").s,
                       Field(Field(fee, "percentageFee"), "quoteAsset").s),
          AssetStrings(Field(Field(fee, "fixedFee"), "baseAsset").s,
                       Field(Field(fee, "fixedFee"), "quoteAsset").s)),
        Field(v, "feeAmount").s,
        Field(v, "feeAsset").s,
        PreviewPrice(Field(price, "basePrice").n, Field(price, "quotePrice").n)))
    else None
  }

  /** Every preview of the declared type passes the check, and decoding what
      passed gives back the same preview. */
  lemma PreviewRoundTrip(p: PreviewTradeResponse)
    ensures IsPreviewTradeResponse(EncodePreview(p)) == Ok(true)
    ensures DecodePreview(EncodePreview(p)) == Some(p)
  {
    var v := EncodePreview(p);
    assert PreviewShaped(v);
  }

  function EncodeUnblindedInput(u: UnblindedInput): Value
  {
    Obj(map[
      "index" := Num(u.index as real),
      "asset" := Str(u.asset),
      "amount" := Str(u.amount),
      "assetBlinder" := Str(u.assetBlinder),
      "amountBlinder" := Str(u.amountBlinder)])
  }

  function EncodeSwapAccept(a: SwapAccept): Value
  {
    Obj(map[
      "id" := Str(a.id),
      "requestId" := Str(a.requestId),
      "transaction" := Str(a.transaction),
      "unblindedInputs" := Arr(seq(|a.unblindedInputs|, i requires 0 <= i < |a.unblindedInputs| =>
                                     EncodeUnblindedInput(a.unblindedInputs[i])))])
  }

  function EncodeSwapFail(f: SwapFail): Value
  {
    Obj(map[
      "id" := Str(f.id),
      "messageId" := Str(f.messageId),
      "failureCode" := Num(f.failureCode as real),
      "failureMessage" := Str(f.failureMessage)])
  }

  /** `null` for an absent nullable member. */
  function EncodeNullable<T>(o: Option<T>, enc: T -> Value): Value
  {
    match o
    case Some(x) => enc(x)
    case None => Null
  }

  function EncodeProposeResponse(r: ProposeTradeResponse): Value
  {
    Obj(map[
      "swapAccept" := EncodeNullable(r.swapAccept, EncodeSwapAccept),
      "swapFail" := EncodeNullable(r.swapFail, EncodeSwapFail),
      "expiryTimeUnix" := Str(r.expiryTimeUnix)])
  }

  /** Every propose reply passes, whatever its outcome members hold, so one
      with both `swapAccept` and `swapFail` null passes too. */
  lemma ProposeResponseAccepted(r: ProposeTradeResponse)
    ensures IsProposeTradeResponse(EncodeProposeResponse(r)) == Ok(true)
  {
  }

  /** The check trusts `swapAccept` blindly: a number there still passes. */
  lemma ProposeCheckIgnoresSwapAccept(expiry: string)
    ensures IsProposeTradeResponse(Obj(map["swapAccept" := Num(1.0), "expiryTimeUnix" := Str(expiry)])) == Ok(true)
  {
  }

  function EncodeCompleteResponse(r: CompleteTradeResponse): Value
  {
    Obj(map["txid" := Str(r.txid), "swapFail" := EncodeSwapFail(r.swapFail)])
  }

  /** Every complete reply of the declared type passes, and so do a reply
      carrying only `txid` and one carrying only `swapFail: null`. */
  lemma CompleteResponseAccepted(r: CompleteTradeResponse)
    ensures IsCompleteTradeResponse(EncodeCompleteResponse(r)) == Ok(true)
    ensures IsCompleteTradeResponse(Obj(map["txid" := Str(r.txid)])) == Ok(true)
    ensures IsCompleteTradeResponse(Obj(map["swapFail" := Null])) == Ok(true)
  {
  }
}
