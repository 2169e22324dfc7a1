/** User-facing trade status messages (lib/constants.ts), with the
    `AmountTooLarge` case that the preview error mapping refers to although the
    enumeration does not declare it. */
module Status {

  datatype TradeStatusMessage =
    | ConnectWallet
    | EnterAmount
    | ErrorCompleting
    | ErrorPreview
    | ErrorSigning
    | InvalidPair
    | NoBalance
    | NoProviders
    | SwapNotAccepted
    | Trade
    | AmountTooLarge
}
