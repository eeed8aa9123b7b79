/**
 * The argument list handed to the external transaction-template builder
 * (`elements-tx`). Each argument is kept as a directive instead of text, so
 * that integer-to-text formatting is not part of the model.
 */
module TxArgs {

  datatype Directive =
    | Flag(text: string)                                  // the configured extra option, verbatim
    | Create                                              // `-create`
    | Template(tx: string)                                // an existing template to extend
    | In(txid: string, vout: int)                         // `in=txid:vout`
    | InWithAmount(txid: string, vout: int, amount: int)  // `in=txid:vout:amount`
    | OutAddr(amount: int, addr: string, asset: string)   // `outaddr=amount:addr:asset`
    | OutScript(amount: int, asset: string)               // `outscript=amount::asset` (a fee output)

  /** `assetIdMap[name]`: a Go map read, which yields "" for a missing name. */
  function AssetId(assetIds: map<string, string>, name: string): string {
    if name in assetIds then assetIds[name] else ""
  }
}
