/** Trade previews (lib/tdex/preview.ts): the request sent to the chosen
    market's provider, the filtering of its reply, and the status a failed
    preview is reported with. The provider is a parameter: a function from
    the request to the reply it produces. */
module Previews {
  import opened Wrappers
  import opened Js
  import opened Types
  import opened Status
  import opened Guards
  import Seqs
  import Markets

  /** The preview request; `tradeType` is the request's `type` member. */
  datatype PreviewRequest = PreviewRequest(
    market: Market,
    tradeType: TradeType,
    amount: real,
    asset: string,
    feeAsset: string)

  /** What the HTTP call delivers: a decoded body, an error status with a
      decoded error payload, or no response at all. */
  datatype Reply = Answered(data: Value) | Refused(data: Value) | NoResponse

  /** The side of the pair that is not the traded coin: `dest` when the coin
      is the `from` asset, `from` otherwise. */
  function FeeAsset(coin: Coin, pair: CoinPair): (r: string)
    ensures r == pair.from.assetHash || r == pair.dest.assetHash
    ensures coin.assetHash != pair.from.assetHash && coin.assetHash != pair.dest.assetHash ==> r == pair.from.assetHash
    ensures (coin.assetHash == pair.from.assetHash || coin.assetHash == pair.dest.assetHash)
            && pair.from.assetHash != pair.dest.assetHash ==>
              r != coin.assetHash
  {
    if coin.assetHash == pair.from.assetHash then pair.dest.assetHash else pair.from.assetHash
  }

  /** The request for previewing a trade of `amount` of `coin` on `market`:
      the market is passed through, the coin is the traded asset, the other
      side of the pair pays the fee, and the direction is the market's. */
  function BuildPreviewRequest(amount: real, coin: Coin, market: Market, pair: CoinPair): (q: PreviewRequest)
    ensures q.market == market && q.amount == amount && q.asset == coin.assetHash
    ensures q.feeAsset == FeeAsset(coin, pair)
    ensures q.tradeType == SELL <==> market.baseAsset == pair.from.assetHash
    ensures (coin.assetHash == pair.from.assetHash || coin.assetHash == pair.dest.assetHash)
            && pair.from.assetHash != pair.dest.assetHash ==>
              {q.asset, q.feeAsset} == {pair.from.assetHash, pair.dest.assetHash}
  {
    PreviewRequest(market, Markets.TradeTypeOf(market, pair), amount, coin.assetHash, FeeAsset(coin, pair))
  }

  /** The previews list (`null` when absent) and the message shown to the
      user, if any. */
  datatype FetchOutcome = FetchOutcome(previews: Option<seq<Value>>, toast: Option<Value>)

  /** The `previews` array of an answered reply, when it has one. */
  function PreviewsArray(reply: Reply): Option<seq<Value>>
  {
    if reply.Answered? && Field(reply.data, "previews").Arr? then Some(Field(reply.data, "previews").elems)
    else None
  }

  /** With no element making the check throw, the check keeps exactly the
      well-shaped previews, in order. */
  lemma ShapedPreviews(elems: seq<Value>)
    requires forall i :: 0 <= i < |elems| ==> !IsPreviewTradeResponse(elems[i]).Throw?
    ensures FilterEval(elems, IsPreviewTradeResponse) == Ok(Seqs.Filter(elems, PreviewShaped))
  {
    Seqs.FilterCongruent(elems, Kept(IsPreviewTradeResponse), PreviewShaped);
  }

  /** Fetching previews never fails: a refused call, a missing or non-array
      `previews`, or a shape check that throws all give `null`. Otherwise the
      well-shaped previews are kept in order. A message is shown only for a
      refused call whose payload has a truthy `code`. */
  function FetchTradePreviews(amount: real, coin: Coin, market: Market, pair: CoinPair, post: PreviewRequest -> Reply)
    : (r: FetchOutcome)
    ensures var reply := post(BuildPreviewRequest(amount, coin, market, pair));
            var elems := PreviewsArray(reply);
            && (r.previews.Some? <==>
                  elems.Some? && forall i :: 0 <= i < |elems.value| ==> !IsPreviewTradeResponse(elems.value[i]).Throw?)
            && (r.previews.Some? ==> r.previews.value == Seqs.Filter(elems.value, PreviewShaped))
            && (r.previews.Some? && |r.previews.value| > 0 ==>
                  exists i :: 0 <= i < |elems.value| && elems.value[i] == r.previews.value[0]
                              && forall j :: 0 <= j < i ==> !PreviewShaped(elems.value[j]))
            && (r.previews.Some? ==>
                  (|r.previews.value| > 0 <==> exists i :: 0 <= i < |elems.value| && PreviewShaped(elems.value[i])))
            && (r.toast.Some? <==> reply.Refused? && Truthy(Field(reply.data, "code")))
            && (r.toast.Some? ==> r.toast.value == Field(reply.data, "message"))
  {
    var reply := post(BuildPreviewRequest(amount, coin, market, pair));
    match reply
    case Answered(data) =>
      var previews := Dot(Ok(data), "previews");
      if previews.Throw? || !previews.value.Arr? then FetchOutcome(None, None)
      else
        (match FilterEval(previews.value.elems, IsPreviewTradeResponse)
         case Throw(_) => FetchOutcome(None, None)
         case Ok(kept) =>
           ShapedPreviews(previews.value.elems);
           Seqs.FilterNonEmpty(previews.value.elems, PreviewShaped);
           Seqs.FilterHead(previews.value.elems, PreviewShaped);
           FetchOutcome(Some(kept), None))
    case Refused(data) =>
      FetchOutcome(None, if Truthy(Field(data, "code")) then Some(Field(data, "message")) else None)
    case NoResponse => FetchOutcome(None, None)
  }

  /** The status a preview failure is reported with: `AmountTooLarge` when the
      thrown value carries a provider error payload with code 2, `ErrorPreview`
      for anything else. */
  function StatusFor(thrown: Value): TradeStatusMessage
  {
    if Field(Field(Field(thrown, "response"), "data"), "code") == Num(2.0) then AmountTooLarge else ErrorPreview
  }

  /** The first well-shaped preview, or a status. Since the fetch has already
      absorbed every provider error, what reaches the error mapping is always
      the empty string, so every failure is reported as `ErrorPreview`. */
  function TradePreview(amount: real, coin: Coin, market: Market, pair: CoinPair, post: PreviewRequest -> Reply)
    : (r: Result<Value, TradeStatusMessage>)
    ensures r.Failure? ==> r.error == ErrorPreview
    ensures var elems := PreviewsArray(post(BuildPreviewRequest(amount, coin, market, pair)));
            r.Success? <==>
              && elems.Some?
              && (forall i :: 0 <= i < |elems.value| ==> !IsPreviewTradeResponse(elems.value[i]).Throw?)
              && (exists i :: 0 <= i < |elems.value| && PreviewShaped(elems.value[i]))
    ensures var elems := PreviewsArray(post(BuildPreviewRequest(amount, coin, market, pair)));
            r.Success? ==>
              && PreviewShaped(r.value)
              && exists i :: 0 <= i < |elems.value| && elems.value[i] == r.value
                             && forall j :: 0 <= j < i ==> !PreviewShaped(elems.value[j])
  {
    var fetched := FetchTradePreviews(amount, coin, market, pair, post);
    assert fetched.previews.Some? && |fetched.previews.value| > 0 ==>
             PreviewShaped(fetched.previews.value[0]) && Truthy(fetched.previews.value[0]);
    if fetched.previews.None? || |fetched.previews.value| == 0 || !Truthy(fetched.previews.value[0]) then
      Failure(StatusFor(Str("")))
    else Success(fetched.previews.value[0])
  }

  /** A provider that refuses with code 2 still gets `ErrorPreview`, though
      the message from its payload is shown. */
  lemma AmountTooLargeNeverRaised(amount: real, coin: Coin, market: Market, pair: CoinPair)
    ensures var payload := Obj(map["code" := Num(2.0), "message" := Str("amount too large")]);
            var post := (q: PreviewRequest) => Refused(payload);
            && TradePreview(amount, coin, market, pair, post) == Failure(ErrorPreview)
            && FetchTradePreviews(amount, coin, market, pair, post).toast == Some(Str("amount too large"))
  {
  }

  /** One `null` element makes the shape check throw, which voids the whole
      list: a well-shaped preview after it is never returned. */
  lemma NullPreviewVoidsTheList(amount: real, coin: Coin, market: Market, pair: CoinPair, good: Value)
    requires PreviewShaped(good)
    ensures var post := (q: PreviewRequest) => Answered(Obj(map["previews" := Arr([Null, good])]));
            TradePreview(amount, coin, market, pair, post) == Failure(ErrorPreview)
  {
    var post := (q: PreviewRequest) => Answered(Obj(map["previews" := Arr([Null, good])]));
    var elems := [Null, good];
    assert PreviewsArray(post(BuildPreviewRequest(amount, coin, market, pair))) == Some(elems);
    assert IsPreviewTradeResponse(elems[0]).Throw?;
    var r := TradePreview(amount, coin, market, pair, post);
    assert r.Failure?;
  }

  /** The error value a refused call raises, as the HTTP client shapes it:
      the payload sits under `response.data`. */
  function RefusalError(payload: Value): Value
  {
    Obj(map["response" := Obj(map["data" := payload])])
  }

  /** The preview with the provider's refusal reaching the error mapping, as
      the mapping evidently expects: code 2 becomes `AmountTooLarge`, any
      other refusal `ErrorPreview`, and every other reply is handled as
      before. */
  function TradePreviewPropagating(amount: real, coin: Coin, market: Market, pair: CoinPair, post: PreviewRequest -> Reply)
    : (r: Result<Value, TradeStatusMessage>)
    ensures var reply := post(BuildPreviewRequest(amount, coin, market, pair));
            reply.Refused? ==> r.Failure? && (r.error == AmountTooLarge <==> Field(reply.data, "code") == Num(2.0))
    ensures var reply := post(BuildPreviewRequest(amount, coin, market, pair));
            !reply.Refused? ==> r == TradePreview(amount, coin, market, pair, post)
    ensures r.Failure? ==> r.error == AmountTooLarge || r.error == ErrorPreview
  {
    match post(BuildPreviewRequest(amount, coin, market, pair))
    case Refused(payload) => Failure(StatusFor(RefusalError(payload)))
    case _ => TradePreview(amount, coin, market, pair, post)
  }
}
