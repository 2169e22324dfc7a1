# TDEX trade routing, modelled in Dafny

This project models the pure trade-routing logic of the TDEX aggregator. Given
a user's coin pair, the aggregator picks the best market among those offered
by liquidity providers and asks that provider for a trade preview. The model
covers three parts:

- **Direction, fees and best-market selection** (`lib/tdex/market.ts`):
  - the direction rule (`getTradeType`);
  - the basis-point fee formula (`totalMarketFees`);
  - the provider, pair and liquidity filters, and the strict-`>` reduce of
    `getBestMarket`;
  - the mapping of a `/v2/markets` reply into market records
    (`fetchMarketsFromProvider`);
  - the "validate or absent" step of `getMarketPrice`.
- **Wire shape checks** (`lib/types.ts`): the six `isTDEXv2*` predicates. They
  are evaluated over a JSON value type with JavaScript's rules:
  - `typeof null` and `typeof []` are `'object'`;
  - a missing field reads as `undefined`;
  - reading a property of `null` or `undefined` throws.

  So each predicate returns true, returns false, or throws.
- **Trade previews** (`lib/tdex/preview.ts`):
  - how the request is built, including which asset pays the fee;
  - how the reply's `previews` are filtered;
  - how `tradePreview` picks the first preview or reports a status.

Modules, leaves first:

| file | module | contents |
|---|---|---|
| wrappers.dfy | `Wrappers` | `Option` (JavaScript `undefined`) and `Result` |
| seqs.dfy | `Seqs` | order-preserving `Filter` and its lemmas |
| js.dfy | `Js` | JSON values, `typeof`, property access, `&&`/`\|\|`, truthiness, `map`/`filter` with throwing callbacks, JavaScript numbers with infinities and NaN |
| types.dfy | `Types` | provider, market, price, coin pair and trade-type records |
| status.dfy | `Status` | `TradeStatusMessage` |
| guards.dfy | `Guards` | the six shape checks |
| wire.dfy | `Wire` | wire records, their JSON encodings, round trips through the checks |
| markets.dfy | `Markets` | direction, fees, filters, ranking, `getBestMarket`, discovery replies |
| previews.dfy | `Previews` | preview request, fetch, `tradePreview` |

Modelling choices:

- HTTP calls are not modelled. The decoded reply body is an input:
  - for markets and prices, the body value itself;
  - for previews, a function from the request to the `Reply`. A reply is an
    answered body, a refusal with an error payload, or no response.
- Amounts, fees and spot prices are exact `real`s.
- A BUY divides by the spot price. Its result is a JavaScript number
  (`Finite`, `PosInf`, `NegInf`, `NaN`), so a zero spot price gives an
  infinity, or NaN when nothing is paid.
- Balance amounts are `Option<real>`, standing for the result of `Number()`.
  `None` is NaN. Since `NaN < x` is false, such a market passes the
  liquidity filter, as in the source.
- `totalMarketFees` computes each market's direction itself. The proceeds
  formula in `getBestMarket` uses the direction taken once from `markets[0]`.
  The model keeps both, as the source does.

Three points where the code does less than its surroundings suggest; the
model follows the code:

- An element of the markets reply without `market` or `fee` is not dropped.
  Reading `m.market.baseAsset` or `m.fee.percentageFee` throws, and the whole
  listing throws (lib/tdex/market.ts:27-33). Only elements whose base or
  quote asset is not a string are dropped, by the filter at line 34.
- Discovery is sequential and all-or-nothing. The caller in
  providers/trade.tsx:44-59 awaits each provider and each price in turn, and
  any exception empties both the market and the provider list.
- The error mapping at lib/tdex/preview.ts:76-78 expects a provider error
  with code 2, but the catch at lines 47-52 consumes that error first (see
  Findings).

## Model

| member | source | states |
|---|---|---|
| Types.TradeTypeCode | lib/types.ts:73-76 | BUY is encoded as 0 and SELL as 1; no other code is produced |
| Types.TradeTypeFromCode | lib/types.ts:73-76 | exactly the codes 0 and 1 name a trade type, and each decodes to the member carrying that code |
| Types.TradeTypeCodeRoundTrip | lib/types.ts:73-76 | decoding a member's code gives back the member |
| Guards.IsMarket | lib/types.ts:28-34 | true iff the value is an object with string `baseAsset` and `quoteAsset`, with no check that they differ; throws iff the value is `null` |
| Guards.IsProvider | lib/types.ts:46-52 | true iff the value is an object with string `name` and `endpoint`, empty strings included; throws iff `null` |
| Guards.IsMarketPrice | lib/types.ts:65-71 | true iff the value is an object with numeric `spotPrice` and string `minTradableAmount`, whatever `balance` holds; throws iff `null` |
| Guards.IsPreviewTradeResponse | lib/types.ts:103-121 | true iff the ten leaves have their declared types and `fee` and `price` are objects; the nested `fixedFee` and `percentageFee` reads are unguarded, so `null` throws and only `null` or an object can throw |
| Guards.PreviewThrowsWithoutFixedFee | lib/types.ts:107-111 | a preview whose `fee` object lacks `fixedFee` makes the check throw instead of answering false |
| Guards.PreviewThrowsWithoutPercentageFee | lib/types.ts:107-114 | a preview with well-typed fixed fees whose `fee` object lacks `percentageFee` makes the check throw |
| Guards.IsProposeTradeResponse | lib/types.ts:174-178 | true iff the value is an object with a string `expiryTimeUnix`, whatever `swapAccept`/`swapFail` hold; throws iff `null` |
| Guards.IsCompleteTradeResponse | lib/types.ts:197-204 | true iff the value is an object with a string `txid`, or with a `swapFail` that is `null`, an array or an object; throws iff `null` |
| Wire.DecodeProvider | lib/types.ts:36-52 | a provider record is produced exactly when the check answers true, and its fields are the value's strings |
| Wire.ProviderRoundTrip | lib/types.ts:36-52 | every provider record passes the check after encoding and decodes back unchanged |
| Wire.MarketKeyAccepted | lib/types.ts:28-34 | every `{baseAsset, quoteAsset}` descriptor passes, including one with equal assets |
| Wire.PriceReplyAccepted | lib/types.ts:54-71 | every price reply of the declared type passes, and still passes with its `balance` removed |
| Wire.DecodePreview | lib/types.ts:86-121 | a typed preview is produced exactly when the check answers true, and each of its ten fields is the value's leaf at the same path |
| Wire.PreviewRoundTrip | lib/types.ts:86-121 | every preview of the declared type passes the check and decodes back to itself |
| Wire.ProposeResponseAccepted | lib/types.ts:163-178 | every propose reply passes, including one with both `swapAccept` and `swapFail` null |
| Wire.ProposeCheckIgnoresSwapAccept | lib/types.ts:174-178 | a reply whose `swapAccept` is a number still passes |
| Wire.CompleteResponseAccepted | lib/types.ts:187-204 | every complete reply of the declared type passes, as do `{txid}` alone and `{swapFail: null}` alone |
| Markets.TradeTypeOf | lib/tdex/market.ts:159-167 | SELL iff the market's base asset is the asset paid; BUY when neither market asset is the paid one; on a market for a pair of distinct assets, BUY iff the user pays the quote asset and receives the base asset |
| Markets.TotalMarketFees | lib/tdex/market.ts:59-79 | absent iff either fee schedule is missing; otherwise the fixed fee plus the basis-point percentage of the paid amount (missing amount = 0), both from the side the direction pays; non-negative for non-negative inputs |
| Markets.FeesMonotoneInAmount | lib/tdex/market.ts:66-78 | with non-negative percentages, a larger paid amount never lowers the fee |
| Markets.FeesIgnoreUnpaidSide | lib/tdex/market.ts:68-78 | a BUY fee does not depend on the base-side figures, and a SELL fee does not depend on the quote-side figures |
| Markets.BasisPointsMonotone | lib/tdex/market.ts:71 | for a non-negative rate, the basis-point share of a larger amount is at least the share of a smaller one |
| Markets.Candidates | lib/tdex/market.ts:97-120 | the three filters in turn keep exactly the input markets that match the provider endpoint (when given), quote the pair's two assets in either order, and have a balance whose received side is not below the destination amount (missing = 0, NaN kept); the survivors keep their input order and multiplicity |
| Markets.Proceeds | lib/tdex/market.ts:128-147 | net proceeds are NaN iff a BUY pays 0 at spot 0, +Infinity iff a BUY pays a positive amount at spot 0, -Infinity iff a BUY pays a negative amount at spot 0, and finite for every SELL and every non-zero spot |
| Markets.FoldBest | lib/tdex/market.ts:127-150 | the reduce returns its seed or one of the folded markets |
| Markets.FoldKeepsEarliestBest | lib/tdex/market.ts:127-150 | without NaN proceeds, folding further markets into the earliest best of a prefix gives the earliest best of the whole sequence |
| Markets.ReduceFromHeadIsEarliestBest | lib/tdex/market.ts:127-150 | without NaN proceeds, a reduce seeded with the first survivor, over all survivors including that one, ends on the earliest survivor with the greatest proceeds |
| Markets.BestMarket | lib/tdex/market.ts:87-151 | absent for an empty list; absent iff no market survives the three filters under the direction of `markets[0]`; any result is an input market that survives them |
| Markets.LoneSurvivorMatchesReduce | lib/tdex/market.ts:122-150 | a single survivor is returned, and the reduce would have returned it too |
| Markets.BestMarketIsEarliestMaximum | lib/tdex/market.ts:127-150 | without NaN proceeds, the result is the survivor with the greatest net proceeds, and ties go to the earliest |
| Markets.LocateEarliestBest | lib/tdex/market.ts:97-150 | the earliest best candidate sits at an input position where no survivor beats it and it beats every survivor listed before it |
| Markets.BestMarketIsFirstMaximumOfInput | lib/tdex/market.ts:87-150 | without NaN proceeds, the result is a surviving input market that no survivor beats and that beats every survivor listed before it, so ties go to the market listed first |
| Markets.NonZeroAmountIsComparable | lib/tdex/market.ts:133-139 | a non-zero paid amount rules out NaN proceeds |
| Markets.BuyNeverPicksShortBase | lib/tdex/market.ts:111-120 | on a BUY, a market whose base balance is below the destination amount is never chosen |
| Markets.SellPrefersHigherSpot | lib/tdex/market.ts:127-150 | of two fee-free markets for a SELL of 100, the one at spot 2.0 beats the one at 1.0 |
| Markets.Listable | lib/tdex/market.ts:34 | the market check on a built entry answers true iff its base and quote assets are strings |
| Markets.ReadEntry | lib/tdex/market.ts:27-33 | reading a reply element throws iff it, its `market` or its `fee` is null or undefined; otherwise the entry carries the provider, the two assets of `market` and the two fee schedules of `fee` |
| Markets.ListMarkets | lib/tdex/market.ts:18-35 | a nullish body throws; a non-array `markets` raises "Invalid markets response"; otherwise the call throws iff some element lacks `market` or `fee`, and the result is exactly the entries read from the elements, in order, that have string base and quote assets |
| Markets.ListMarketsDropsMalformed | lib/tdex/market.ts:24-34 | a reply with one well-formed element and one with a numeric base asset lists only the well-formed market |
| Markets.MarketPriceReply | lib/tdex/market.ts:42-50 | the reply is returned iff the price check accepts it; it is absent when the check answers false, and the call throws iff the reply is `null` |
| Previews.FeeAsset | lib/tdex/preview.ts:29-30 | the fee asset is a side of the pair; for a coin on one side of a pair of distinct assets it is the other side; for a foreign coin it is `from` |
| Previews.BuildPreviewRequest | lib/tdex/preview.ts:29-38 | the request passes the market through, carries the amount and the coin's asset, uses the market's direction, and names the pair's two assets as asset and fee asset |
| Previews.FetchTradePreviews | lib/tdex/preview.ts:22-53 | a list comes back iff the reply was answered with a `previews` array none of whose elements makes the check throw; the list is exactly the well-shaped previews in array order, the first being the earliest; a message is shown iff the call was refused with a truthy `code`, and it is the payload's `message` |
| Previews.ShapedPreviews | lib/tdex/preview.ts:46 | when no element makes the check throw, the filter keeps exactly the well-shaped previews, in array order |
| Previews.TradePreview | lib/tdex/preview.ts:63-80 | succeeds iff the answered array has no throwing element and some well-shaped preview, returning the earliest such; every failure is `ErrorPreview` |
| Previews.AmountTooLargeNeverRaised | lib/tdex/preview.ts:47-78 | a provider refusing with code 2 gets `ErrorPreview`, although its message is shown |
| Previews.NullPreviewVoidsTheList | lib/tdex/preview.ts:43-52 | a `null` element before a well-shaped preview makes the whole preview fail |
| Previews.TradePreviewPropagating | lib/tdex/preview.ts:74-78 | corrected flow: a refusal reaches the error mapping, so code 2 gives `AmountTooLarge` and other refusals `ErrorPreview`; every other reply is handled as in the source |

## Left out

- HTTP transport is not modelled: URLs, headers, the `axios` calls, timeouts.
  A failed markets or price call propagates its exception unchanged; the
  model takes the decoded body instead.
- Logging (`console.debug`, `console.error`) is left out. `showToast` is
  modelled only as the optional message in `FetchOutcome.toast`.
- providers/trade.tsx is not modelled. It is React effect plumbing: it
  fetches providers, markets and prices in sequence, and on any failure it
  clears all markets and providers. So are the propose and complete flows;
  only their wire types and checks are modelled.
- The provider registry is not part of this model.
- Decimal.js and floating-point rounding are left out. Fees are read as exact
  reals, so a fee string Decimal.js would reject is not modelled.
- `Number()` parsing of balance strings is left out. A balance side is the
  already parsed `Option<real>`.
- `amount.toString()` in the preview request is left out. The request carries
  the number itself.
- The market's own optional `balance` field (lib/types.ts:20) is not in the
  record, because no modelled code reads it.
- Attaching a price to a listed market is left out, because it happens in
  providers/trade.tsx. So is reading fee values out of a listed entry.
  Selection works on typed `Market` records.
- Negative zero is left out. So are inherited prototype properties of JSON
  objects: no key the checks read collides with one.
- The user-facing labels of lib/constants.ts are not modelled; only the
  message cases are.
- Markets.BestMarketIsEarliestMaximum and
  Markets.BestMarketIsFirstMaximumOfInput: stated only when no survivor's
  proceeds are NaN, which happens only for a BUY paying 0 at spot 0. When NaN
  is present, `>` is not an order, and only membership of the result is
  proved, by `BestMarket`'s own contract.

## Findings

| source | as written | input that shows it | evidently intended | confidence | as-written member | corrected member |
|---|---|---|---|---|---|---|
| lib/tdex/preview.ts:47-78 | `fetchTradePreviews` catches the provider's error and returns `null`. `tradePreview` then throws `''`, whose `response?.data?.code` is undefined. | The provider refuses the preview with payload `{code: 2, message: "amount too large"}`. | The refusal reaches the error mapping, so code 2 reports `AmountTooLarge`. | high (not executed) | Previews.TradePreview, Previews.AmountTooLargeNeverRaised | Previews.TradePreviewPropagating |
