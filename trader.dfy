/**
 * The trader (src/alice/main.go): it asks the exchanger for quotations on
 * every asset it holds, keeps them in a quotation list, and settles a
 * chosen offer by selecting its own coins, building the transaction
 * arguments, and submitting the signed transaction to the exchanger.
 *
 * Every call to the ledger, the exchanger or the external transaction
 * builder is an input: its outcome is given to the operation (None when the
 * call failed).
 */
module Trader {
  import opened Wrappers
  import opened Coins
  import opened Locks
  import opened TxArgs
  import Selectors

  /** An offer of the exchanger as the trader stores it (`UserOfferResByAsset`). */
  datatype OfferByAsset = OfferByAsset(fee: int, cost: int, id: string, transaction: string)

  /** A stored quotation: what was requested, and one offer per asset the trader could pay with. */
  datatype Quotation = Quotation(requestAsset: string, requestAmount: int, offers: map<string, OfferByAsset>)

  /** The exchanger's answer to `getexchangerate`: fee, cost and the id of the offer. */
  datatype RateQuote = RateQuote(fee: int, cost: int, id: string)

  /** The exchanger's answer to `getexchangeoffer` / `getexchangeofferwb`. */
  datatype ExchangeOffer = ExchangeOffer(fee: int, cost: int, transaction: string, commitments: seq<string>)

  /** The answer of `validateaddress`. */
  datatype ValidatedAddress = ValidatedAddress(isValid: bool, unconfidential: string)

  datatype AddressError = ValidateFailed | InvalidAddress

  datatype OfferError = BalanceFailed

  datatype BuildError = ChangeAddressFailed | LoopbackAddressFailed

  /** Where a send stops. */
  datatype Stage =
    | QuotationMissing   // no stored offer carries the id
    | OfferFailed        // `getexchangeoffer(wb)` failed
    | Drift              // the exchanger's cost or fee differ from the quotation
    | FundsFailed        // `SearchUnspent` failed
    | LoopbackFailed     // `SearchMinimalUnspent` failed
    | BuildFailed        // an address for an output or the transaction builder failed
    | BlindFailed        // `blindrawtransaction` failed
    | SignFailed         // `signrawtransaction` failed

  /** A send either stops before submitting, or submits and reports whether the exchanger accepted. */
  datatype SendOutcome = Aborted(stage: Stage) | Settled(accepted: bool)

  /**
   * The outcomes of the external calls a send makes, in order. `listed` is
   * the `listunspent` answer for the offered asset, `loopbackListed` the one
   * for the requested asset (blinded path only), `changeAddr` and
   * `loopbackAddr` the `getnewaddress` answers for the change and loopback
   * outputs, `built` the builder's output, and `submitted` the transaction
   * id when `submitexchange` succeeded.
   */
  datatype SendEnv = SendEnv(
    now: int,
    offer: Option<ExchangeOffer>,
    listed: Option<seq<Unspent>>,
    loopbackListed: Option<seq<Unspent>>,
    changeAddr: Option<string>,
    loopbackAddr: Option<string>,
    built: Option<string>,
    blinded: Option<string>,
    signed: Option<string>,
    submitted: Option<string>)

  /** A found offer: the quotation id and the offered asset under which the offer is stored. */
  datatype QuoteRef = QuoteRef(quotationId: string, offerAsset: string)

  /** What a send leaves behind: its outcome, the quotation list, the lock table and the commitments handed to blinding. */
  datatype SendState = SendState(outcome: SendOutcome, quotations: map<string, Quotation>,
                                 locks: map<CoinKey, int>, commitments: seq<string>)

  // ---------------------------------------------------------------------
  // chooseKnownAssets, getQuotation, isConfidential
  // ---------------------------------------------------------------------

  /** `chooseKnownAssets`: drop every balance entry whose asset label has no asset id. */
  method ChooseKnownAssets(b: map<string, int>, assetIds: map<string, string>) returns (known: map<string, int>)
    ensures forall k :: k in known <==> k in b && k in assetIds
    ensures forall k :: k in known ==> known[k] == b[k]
  {
    known := b;
    var pending := b.Keys;
    while pending != {}
      invariant pending <= b.Keys
      invariant forall k :: k in known <==> k in b && (k in pending || k in assetIds)
      invariant forall k :: k in known ==> known[k] == b[k]
      decreases pending
    {
      var k :| k in pending;
      if k !in assetIds {
        known := known - {k};
      }
      pending := pending - {k};
    }
  }

  /** The stored offer `ref` points at exists and carries `offerID`. */
  predicate Carries(ql: map<string, Quotation>, ref: QuoteRef, offerID: string) {
    && ref.quotationId in ql
    && ref.offerAsset in ql[ref.quotationId].offers
    && ql[ref.quotationId].offers[ref.offerAsset].id == offerID
  }

  /**
   * `getQuotation`: look for a stored offer carrying `offerID`. The list is
   * searched in map order, which Go leaves unspecified, so when several
   * offers carry the id any one of them may be returned.
   */
  method GetQuotation(ql: map<string, Quotation>, offerID: string) returns (found: Option<QuoteRef>)
    ensures found.Some? ==> Carries(ql, found.value, offerID)
    ensures found.None? <==> forall qid, a :: !Carries(ql, QuoteRef(qid, a), offerID)
  {
    var pending := ql.Keys;
    while pending != {}
      invariant pending <= ql.Keys
      invariant forall qid, a :: qid !in pending ==> !Carries(ql, QuoteRef(qid, a), offerID)
      decreases pending
    {
      var qid :| qid in pending;
      var offers := ql[qid].offers;
      var assets := offers.Keys;
      while assets != {}
        invariant assets <= offers.Keys
        invariant forall a :: a in offers && a !in assets ==> offers[a].id != offerID
        decreases assets
      {
        var a :| a in assets;
        if offers[a].id == offerID {
          return Some(QuoteRef(qid, a));
        }
        assets := assets - {a};
      }
      pending := pending - {qid};
    }
    return None;
  }

  /**
   * `isConfidential`: `validated` is the answer of `validateaddress` (None
   * when the call failed). An address is confidential when it differs from
   * its unconfidential form.
   */
  function IsConfidential(addr: string, validated: Option<ValidatedAddress>): (r: Result<bool, AddressError>)
    ensures validated.None? ==> r == Failure(ValidateFailed)
    ensures validated.Some? && !validated.value.isValid ==> r == Failure(InvalidAddress)
    ensures r.Success? <==> validated.Some? && validated.value.isValid
    ensures r.Success? ==> (r.value <==> addr != validated.value.unconfidential)
  {
    match validated
    case None => Failure(ValidateFailed)
    case Some(v) =>
      if !v.isValid then Failure(InvalidAddress)
      else if addr == v.unconfidential then Success(false)
      else Success(true)
  }

  // ---------------------------------------------------------------------
  // appendTransactionInfo, appendTransactionInfoWB
  // ---------------------------------------------------------------------

  /** One `in=txid:vout` argument per coin, in order. */
  function Inputs(utxos: seq<Unspent>): (ins: seq<Directive>)
    ensures |ins| == |utxos|
    ensures forall j :: 0 <= j < |utxos| ==> ins[j] == In(utxos[j].txid, utxos[j].vout)
  {
    if utxos == [] then []
    else Inputs(utxos[..|utxos| - 1]) + [In(utxos[|utxos| - 1].txid, utxos[|utxos| - 1].vout)]
  }

  /** The loop of both builders that appends one input per coin. */
  method AppendInputs(params: seq<Directive>, utxos: seq<Unspent>) returns (out: seq<Directive>)
    ensures out == params + Inputs(utxos)
  {
    out := params;
    for i := 0 to |utxos|
      invariant out == params + Inputs(utxos[..i])
    {
      assert utxos[..i + 1][..i] == utxos[..i];
      out := out + [In(utxos[i].txid, utxos[i].vout)];
    }
    assert utxos[..|utxos|] == utxos;
  }

  /** The builder can be given all its outputs: an address is at hand for the change when there is change. */
  predicate Buildable(utxos: seq<Unspent>, detail: OfferByAsset, changeAddr: Option<string>) {
    Sum(utxos) - (detail.cost + detail.fee) > 0 ==> changeAddr.Some?
  }

  /** The same for the blinded builder, which also needs an address for a positive loopback output. */
  predicate BuildableWB(utxos: seq<Unspent>, loopback: seq<Unspent>, detail: OfferByAsset,
                        changeAddr: Option<string>, loopbackAddr: Option<string>) {
    && (Sum(utxos) - (detail.cost + detail.fee) > 0 ==> changeAddr.Some?)
    && (Sum(loopback) > 0 ==> loopbackAddr.Some?)
  }

  /**
   * `appendTransactionInfo`: the arguments that extend the exchanger's
   * template. In order: the configured option when not empty, the template,
   * one input per coin, a change output of (total - (cost + fee)) in the
   * offered asset only when positive, the output paying `sendAmount` to
   * `sendToAddr`, and a fee output of `fee` in the offered asset.
   */
  method AppendTransactionInfo(sendToAddr: string, sendAsset: string, sendAmount: int, offerAsset: string,
                               detail: OfferByAsset, utxos: seq<Unspent>, assetIds: map<string, string>,
                               txOption: string, changeAddr: Option<string>)
    returns (r: Result<seq<Directive>, BuildError>)
    ensures r.Success? <==> Buildable(utxos, detail, changeAddr)
    ensures r.Failure? ==> r.error == ChangeAddressFailed
    ensures var change := Sum(utxos) - (detail.cost + detail.fee);
      r.Success? ==>
        r.value == (if txOption != "" then [Flag(txOption)] else []) + [Template(detail.transaction)]
                   + Inputs(utxos)
                   + (if change > 0 then [OutAddr(change, changeAddr.value, AssetId(assetIds, offerAsset))] else [])
                   + [OutAddr(sendAmount, sendToAddr, AssetId(assetIds, sendAsset)),
                      OutScript(detail.fee, AssetId(assetIds, offerAsset))]
  {
    var total := GetAmount(utxos);
    var change := total - (detail.cost + detail.fee);
    var params: seq<Directive> := if txOption != "" then [Flag(txOption)] else [];
    params := params + [Template(detail.transaction)];
    params := AppendInputs(params, utxos);
    var changeOut: seq<Directive> := [];
    if 0 < change {
      if changeAddr.None? {
        return Failure(ChangeAddressFailed);
      }
      changeOut := [OutAddr(change, changeAddr.value, AssetId(assetIds, offerAsset))];
    }
    params := params + changeOut + [OutAddr(sendAmount, sendToAddr, AssetId(assetIds, sendAsset)),
                                    OutScript(detail.fee, AssetId(assetIds, offerAsset))];
    return Success(params);
  }

  /**
   * `appendTransactionInfoWB`: the same for a blinded send, which also spends
   * the loopback coins and pays them back. In order: the option, the
   * template, the funding inputs, then the loopback inputs; a change output
   * in the offered asset only when positive; a loopback output of the
   * loopback coins' total in the requested asset only when positive; the send
   * output. There is no fee output.
   */
  method AppendTransactionInfoWB(sendToAddr: string, sendAsset: string, sendAmount: int, offerAsset: string,
                                 detail: OfferByAsset, utxos: seq<Unspent>, loopback: seq<Unspent>,
                                 assetIds: map<string, string>, txOption: string,
                                 changeAddr: Option<string>, loopbackAddr: Option<string>)
    returns (r: Result<seq<Directive>, BuildError>)
    ensures r.Success? <==> BuildableWB(utxos, loopback, detail, changeAddr, loopbackAddr)
    ensures var change := Sum(utxos) - (detail.cost + detail.fee);
      && (change > 0 && changeAddr.None? ==> r == Failure(ChangeAddressFailed))
      && (r.Success? ==>
            r.value == (if txOption != "" then [Flag(txOption)] else []) + [Template(detail.transaction)]
                       + Inputs(utxos) + Inputs(loopback)
                       + (if change > 0 then [OutAddr(change, changeAddr.value, AssetId(assetIds, offerAsset))] else [])
                       + (if Sum(loopback) > 0 then [OutAddr(Sum(loopback), loopbackAddr.value, AssetId(assetIds, sendAsset))] else [])
                       + [OutAddr(sendAmount, sendToAddr, AssetId(assetIds, sendAsset))])
  {
    var total := GetAmount(utxos);
    var change := total - (detail.cost + detail.fee);
    var lbChange := GetAmount(loopback);
    var params: seq<Directive> := if txOption != "" then [Flag(txOption)] else [];
    params := params + [Template(detail.transaction)];
    params := AppendInputs(params, utxos);
    params := AppendInputs(params, loopback);
    var changeOut: seq<Directive> := [];
    if 0 < change {
      if changeAddr.None? {
        return Failure(ChangeAddressFailed);
      }
      changeOut := [OutAddr(change, changeAddr.value, AssetId(assetIds, offerAsset))];
    }
    var loopbackOut: seq<Directive> := [];
    if 0 < lbChange {
      if loopbackAddr.None? {
        return Failure(LoopbackAddressFailed);
      }
      loopbackOut := [OutAddr(lbChange, loopbackAddr.value, AssetId(assetIds, sendAsset))];
    }
    params := params + changeOut + loopbackOut + [OutAddr(sendAmount, sendToAddr, AssetId(assetIds, sendAsset))];
    return Success(params);
  }

  // ---------------------------------------------------------------------
  // The two send paths as functions of the state before the call
  // ---------------------------------------------------------------------

  /** What an offer costs the trader: the exchanger's cost plus its fee. */
  function Charge(detail: OfferByAsset): int {
    detail.cost + detail.fee
  }

  /** The exchanger's current offer no longer matches the quotation. */
  predicate Drifted(detail: OfferByAsset, ex: ExchangeOffer) {
    detail.cost != ex.cost || detail.fee != ex.fee
  }


  /**
   * `doSendWithNoBlinding` after the quotation `ref` was found: ask the
   * exchanger for the offer, stop on drift, select coins of the offered
   * asset for cost + fee, build, sign and submit; once submitted, delete the
   * quotation and unlock the selected coins whatever the exchanger answered.
   */
  function NoBlindingSpec(ql: map<string, Quotation>, locks: map<CoinKey, int>, d: nat, ref: QuoteRef, env: SendEnv): SendState
    requires ref.quotationId in ql && ref.offerAsset in ql[ref.quotationId].offers
  {
    var detail := ql[ref.quotationId].offers[ref.offerAsset];
    match env.offer
    case None => SendState(Aborted(OfferFailed), ql, locks, [])
    case Some(ex) =>
      if Drifted(detail, ex) then SendState(Aborted(Drift), ql, locks, [])
      else
        var (sel, after) := Selectors.SearchUnspentSpec(locks, env.listed, Charge(detail), false, env.now, d);
        NoBlindingFinish(ql, ref.quotationId, detail, env, sel, after)
  }

  /** The unblinded path from its coin selection on: `sel` and `after` are what `SearchUnspent` returned and left. */
  function NoBlindingFinish(ql: map<string, Quotation>, qid: string, detail: OfferByAsset, env: SendEnv,
                            sel: Selectors.Selection, after: map<CoinKey, int>): SendState
  {
    if sel.error.Some? then SendState(Aborted(FundsFailed), ql, after, [])
    else if !Buildable(sel.coins, detail, env.changeAddr) || env.built.None? then SendState(Aborted(BuildFailed), ql, after, [])
    else if env.signed.None? then SendState(Aborted(SignFailed), ql, after, [])
    else SendState(Settled(env.submitted.Some?), ql - {qid}, after - KeysOf(sel.coins), [])
  }

  /**
   * `doSendWithBlinding` after the quotation `ref` was found: select blinded
   * coins of the offered asset for cost + fee, then one blinded loopback coin
   * of the requested asset, ask the exchanger for the offer with their
   * commitments, stop on drift, build, blind with the exchanger's
   * commitments followed by the trader's, sign and submit; once submitted,
   * delete the quotation and unlock both selections.
   */
  function BlindingSpec(ql: map<string, Quotation>, locks: map<CoinKey, int>, d: nat, ref: QuoteRef, env: SendEnv): SendState
    requires ref.quotationId in ql && ref.offerAsset in ql[ref.quotationId].offers
  {
    var detail := ql[ref.quotationId].offers[ref.offerAsset];
    var (fund, after1) := Selectors.SearchUnspentSpec(locks, env.listed, Charge(detail), true, env.now, d);
    if fund.error.Some? then SendState(Aborted(FundsFailed), ql, after1, [])
    else
      var (loop, after2) := Selectors.SearchMinimalSpec(after1, env.loopbackListed, true, env.now, d);
      if loop.error.Some? then SendState(Aborted(LoopbackFailed), ql, after2, [])
      else BlindingFinish(ql, ref.quotationId, detail, env, fund.coins, loop.coins, after2)
  }

  /**
   * The blinded path once both selections succeeded: `fund` and `loopback`
   * are the coins selected and `after` the table they left.
   */
  function BlindingFinish(ql: map<string, Quotation>, qid: string, detail: OfferByAsset, env: SendEnv,
                          fund: seq<Unspent>, loopback: seq<Unspent>, after: map<CoinKey, int>): SendState
  {
    match env.offer
    case None => SendState(Aborted(OfferFailed), ql, after, [])
    case Some(ex) =>
      if Drifted(detail, ex) then SendState(Aborted(Drift), ql, after, [])
      else
        var merged := ex.commitments + Commitments(fund + loopback);
        if !BuildableWB(fund, loopback, detail, env.changeAddr, env.loopbackAddr) || env.built.None? then
          SendState(Aborted(BuildFailed), ql, after, merged)
        else if env.blinded.None? then SendState(Aborted(BlindFailed), ql, after, merged)
        else if env.signed.None? then SendState(Aborted(SignFailed), ql, after, merged)
        else SendState(Settled(env.submitted.Some?), ql - {qid}, after - KeysOf(fund + loopback), merged)
  }

  /**
   * The unblinded path compares the exchanger's cost and fee before it selects
   * any coin: when the offer call fails or has drifted, the lock table and the
   * quotation list are left as they were. No abort deletes the quotation.
   */
  lemma NoBlindingChecksDriftFirst(ql: map<string, Quotation>, locks: map<CoinKey, int>, d: nat, ref: QuoteRef, env: SendEnv)
    requires ref.quotationId in ql && ref.offerAsset in ql[ref.quotationId].offers
    ensures var s := NoBlindingSpec(ql, locks, d, ref, env);
      && (s.outcome.Aborted? ==> s.quotations == ql)
      && (s.outcome == Aborted(OfferFailed) <==> env.offer.None?)
      && (s.outcome == Aborted(Drift) <==> env.offer.Some? && Drifted(ql[ref.quotationId].offers[ref.offerAsset], env.offer.value))
      && (s.outcome in {Aborted(OfferFailed), Aborted(Drift)} ==> s.locks == locks)
  {
    var detail := ql[ref.quotationId].offers[ref.offerAsset];
    var (sel, after) := Selectors.SearchUnspentSpec(locks, env.listed, Charge(detail), false, env.now, d);
    NoBlindingStages(ql, locks, d, ref, env, sel, after);
    if env.offer.Some? && !Drifted(detail, env.offer.value) {
      NoBlindingFinishOutcome(ql, ref.quotationId, detail, env, sel, after);
    }
  }

  /** Past the drift check the unblinded path ends in neither of the two early aborts, and no abort deletes the quotation. */
  lemma NoBlindingFinishOutcome(ql: map<string, Quotation>, qid: string, detail: OfferByAsset, env: SendEnv,
                                sel: Selectors.Selection, after: map<CoinKey, int>)
    ensures var s := NoBlindingFinish(ql, qid, detail, env, sel, after);
      && s.outcome != Aborted(OfferFailed) && s.outcome != Aborted(Drift)
      && (s.outcome.Aborted? ==> s.quotations == ql)
  {
  }

  /** `NoBlindingSpec` stage by stage, given the coin selection. */
  lemma NoBlindingStages(ql: map<string, Quotation>, locks: map<CoinKey, int>, d: nat, ref: QuoteRef,
                         env: SendEnv, sel: Selectors.Selection, after: map<CoinKey, int>)
    requires ref.quotationId in ql && ref.offerAsset in ql[ref.quotationId].offers
    requires (sel, after) == Selectors.SearchUnspentSpec(locks, env.listed, Charge(ql[ref.quotationId].offers[ref.offerAsset]),
                                                         false, env.now, d)
    ensures var s := NoBlindingSpec(ql, locks, d, ref, env);
      var detail := ql[ref.quotationId].offers[ref.offerAsset];
      && (env.offer.None? ==> s == SendState(Aborted(OfferFailed), ql, locks, []))
      && (env.offer.Some? && Drifted(detail, env.offer.value) ==> s == SendState(Aborted(Drift), ql, locks, []))
      && (env.offer.Some? && !Drifted(detail, env.offer.value) ==>
            s == NoBlindingFinish(ql, ref.quotationId, detail, env, sel, after))
  {
  }

  /**
   * When the unblinded path stops after its coins were selected (building or
   * signing failed), the selected coins stay reserved until `now + d`: the
   * handler returns without unlocking them, and the quotation stays stored.
   */
  lemma NoBlindingHoldsCoinsOnLateFailure(ql: map<string, Quotation>, locks: map<CoinKey, int>, d: nat, ref: QuoteRef,
                                          env: SendEnv, sel: Selectors.Selection, after: map<CoinKey, int>)
    requires ref.quotationId in ql && ref.offerAsset in ql[ref.quotationId].offers
    requires (sel, after) == Selectors.SearchUnspentSpec(locks, env.listed, Charge(ql[ref.quotationId].offers[ref.offerAsset]),
                                                         false, env.now, d)
    ensures var s := NoBlindingSpec(ql, locks, d, ref, env);
      s.outcome in {Aborted(BuildFailed), Aborted(SignFailed)} ==>
        && s.quotations == ql
        && forall c :: c in sel.coins ==> Key(c) in s.locks && s.locks[Key(c)] == env.now + d
  {
    var detail := ql[ref.quotationId].offers[ref.offerAsset];
    var s := NoBlindingSpec(ql, locks, d, ref, env);
    if s.outcome in {Aborted(BuildFailed), Aborted(SignFailed)} {
      NoBlindingStages(ql, locks, d, ref, env, sel, after);
      assert env.offer.Some? && !Drifted(detail, env.offer.value);
      assert s == NoBlindingFinish(ql, ref.quotationId, detail, env, sel, after);
      assert sel.error.None? && s.locks == after;
      Selectors.SearchUnspentReserves(locks, env.listed.value, Charge(detail), false, env.now, d, sel, after);
      forall c | c in sel.coins ensures Key(c) in after && after[Key(c)] == env.now + d {
        assert Key(c) in KeysOf(sel.coins);
      }
    }
  }

  /**
   * Once the unblinded path submits, whatever the exchanger answers, the
   * quotation is deleted and the table is the one before the call without
   * the entries of the coins spent: every other reservation is as it was.
   */
  lemma NoBlindingSettles(ql: map<string, Quotation>, locks: map<CoinKey, int>, d: nat, ref: QuoteRef,
                          env: SendEnv, sel: Selectors.Selection, after: map<CoinKey, int>)
    requires ref.quotationId in ql && ref.offerAsset in ql[ref.quotationId].offers
    requires (sel, after) == Selectors.SearchUnspentSpec(locks, env.listed, Charge(ql[ref.quotationId].offers[ref.offerAsset]),
                                                         false, env.now, d)
    ensures var s := NoBlindingSpec(ql, locks, d, ref, env);
      s.outcome.Settled? ==>
        && s.outcome.accepted == env.submitted.Some?
        && s.quotations == ql - {ref.quotationId}
        && s.locks == locks - KeysOf(sel.coins)
  {
    var detail := ql[ref.quotationId].offers[ref.offerAsset];
    NoBlindingStages(ql, locks, d, ref, env, sel, after);
    if env.offer.Some? && !Drifted(detail, env.offer.value) && sel.error.None? {
      Selectors.SearchUnspentReserves(locks, env.listed.value, Charge(detail), false, env.now, d, sel, after);
      NoBlindingFinishSettles(ql, ref.quotationId, detail, env, sel, locks, after);
    }
  }

  /** A selection that only added entries for its own coins leaves, once those are deleted, the table it started from. */
  lemma NoBlindingFinishSettles(ql: map<string, Quotation>, qid: string, detail: OfferByAsset, env: SendEnv,
                                sel: Selectors.Selection, locks: map<CoinKey, int>, after: map<CoinKey, int>)
    requires forall k :: k !in KeysOf(sel.coins) ==> (k in after <==> k in locks)
    requires forall k :: k !in KeysOf(sel.coins) && k in locks ==> after[k] == locks[k]
    ensures var s := NoBlindingFinish(ql, qid, detail, env, sel, after);
      s.outcome.Settled? ==>
        && s.outcome.accepted == env.submitted.Some?
        && s.quotations == ql - {qid}
        && s.locks == locks - KeysOf(sel.coins)
  {
    var s := NoBlindingFinish(ql, qid, detail, env, sel, after);
    if s.outcome.Settled? {
      assert after - KeysOf(sel.coins) == locks - KeysOf(sel.coins);
    }
  }

  /** `BlindingSpec` stage by stage: which stage stops the send, given the two selections. */
  lemma BlindingStages(ql: map<string, Quotation>, locks: map<CoinKey, int>, d: nat, ref: QuoteRef, env: SendEnv,
                       fund: Selectors.Selection, after1: map<CoinKey, int>,
                       loop: Selectors.Selection, after2: map<CoinKey, int>)
    requires ref.quotationId in ql && ref.offerAsset in ql[ref.quotationId].offers
    requires (fund, after1) == Selectors.SearchUnspentSpec(locks, env.listed, Charge(ql[ref.quotationId].offers[ref.offerAsset]),
                                                           true, env.now, d)
    requires (loop, after2) == Selectors.SearchMinimalSpec(after1, env.loopbackListed, true, env.now, d)
    ensures var s := BlindingSpec(ql, locks, d, ref, env);
      && (fund.error.Some? ==> s == SendState(Aborted(FundsFailed), ql, after1, []))
      && (fund.error.None? && loop.error.Some? ==> s == SendState(Aborted(LoopbackFailed), ql, after2, []))
      && (fund.error.None? && loop.error.None? ==>
            s == BlindingFinish(ql, ref.quotationId, ql[ref.quotationId].offers[ref.offerAsset], env, fund.coins, loop.coins, after2))
  {
  }

  /** After both selections, an abort keeps the quotation and the table; a settlement deletes the quotation and frees the coins spent. */
  lemma BlindingFinishSettles(ql: map<string, Quotation>, qid: string, detail: OfferByAsset, env: SendEnv,
                              fund: seq<Unspent>, loopback: seq<Unspent>, after: map<CoinKey, int>)
    ensures var s := BlindingFinish(ql, qid, detail, env, fund, loopback, after);
      && (s.outcome.Aborted? ==> s.quotations == ql && s.locks == after)
      && (s.outcome.Settled? ==>
            s.outcome.accepted == env.submitted.Some? && s.quotations == ql - {qid} && s.locks == after - KeysOf(fund + loopback))
  {
  }

  /**
   * The blinded path leaks its reservations on failure: on every abort after
   * the funding selection succeeded, the funding coins stay reserved until
   * `now + d`, and after the loopback selection succeeded the loopback coin
   * does too. No abort deletes the quotation.
   */
  lemma BlindingHoldsCoinsOnFailure(ql: map<string, Quotation>, locks: map<CoinKey, int>, d: nat, ref: QuoteRef, env: SendEnv,
                                    fund: Selectors.Selection, after1: map<CoinKey, int>,
                                    loop: Selectors.Selection, after2: map<CoinKey, int>)
    requires ref.quotationId in ql && ref.offerAsset in ql[ref.quotationId].offers
    requires (fund, after1) == Selectors.SearchUnspentSpec(locks, env.listed, Charge(ql[ref.quotationId].offers[ref.offerAsset]),
                                                           true, env.now, d)
    requires (loop, after2) == Selectors.SearchMinimalSpec(after1, env.loopbackListed, true, env.now, d)
    ensures var s := BlindingSpec(ql, locks, d, ref, env);
      s.outcome.Aborted? ==>
        && s.quotations == ql
        && (fund.error.None? ==> forall c :: c in fund.coins ==> Key(c) in s.locks && s.locks[Key(c)] == env.now + d)
        && (fund.error.None? && loop.error.None? ==>
              forall c :: c in loop.coins ==> Key(c) in s.locks && s.locks[Key(c)] == env.now + d)
  {
    var detail := ql[ref.quotationId].offers[ref.offerAsset];
    BlindingStages(ql, locks, d, ref, env, fund, after1, loop, after2);
    if fund.error.None? {
      Selectors.SearchUnspentReserves(locks, env.listed.value, Charge(detail), true, env.now, d, fund, after1);
      Selectors.SearchMinimalKeepsLive(after1, env.loopbackListed, true, env.now, d, loop, after2);
      forall c | c in fund.coins ensures Key(c) in after2 && after2[Key(c)] == env.now + d {
        assert Key(c) in KeysOf(fund.coins);
        assert !Free(after1, Key(c), env.now);
      }
      if loop.error.None? {
        Selectors.SearchMinimalUnspentPicksLast(after1, env.loopbackListed.value, true, env.now, d, loop, after2);
        BlindingFinishSettles(ql, ref.quotationId, detail, env, fund.coins, loop.coins, after2);
      }
    }
  }

  /**
   * The commitments handed to blinding are the exchanger's first, then those
   * of the funding coins in order, then that of the single loopback coin.
   */
  lemma BlindingMergesExchangerFirst(ql: map<string, Quotation>, locks: map<CoinKey, int>, d: nat, ref: QuoteRef, env: SendEnv,
                                     fund: Selectors.Selection, after1: map<CoinKey, int>,
                                     loop: Selectors.Selection, after2: map<CoinKey, int>)
    requires ref.quotationId in ql && ref.offerAsset in ql[ref.quotationId].offers
    requires (fund, after1) == Selectors.SearchUnspentSpec(locks, env.listed, Charge(ql[ref.quotationId].offers[ref.offerAsset]),
                                                           true, env.now, d)
    requires (loop, after2) == Selectors.SearchMinimalSpec(after1, env.loopbackListed, true, env.now, d)
    ensures var s := BlindingSpec(ql, locks, d, ref, env);
      s.outcome !in {Aborted(FundsFailed), Aborted(LoopbackFailed), Aborted(OfferFailed), Aborted(Drift)} ==>
        && env.offer.Some?
        && |loop.coins| == 1
        && var n := |env.offer.value.commitments|;
        var m := |fund.coins|;
        && |s.commitments| == n + m + 1
        && s.commitments[..n] == env.offer.value.commitments
        && (forall i :: 0 <= i < m ==> s.commitments[n + i] == fund.coins[i].assetCommitment)
        && s.commitments[n + m] == loop.coins[0].assetCommitment
  {
    var detail := ql[ref.quotationId].offers[ref.offerAsset];
    BlindingStages(ql, locks, d, ref, env, fund, after1, loop, after2);
    if fund.error.None? && loop.error.None? {
      Selectors.SearchMinimalUnspentPicksLast(after1, env.loopbackListed.value, true, env.now, d, loop, after2);
      var s := BlindingSpec(ql, locks, d, ref, env);
      assert s == BlindingFinish(ql, ref.quotationId, detail, env, fund.coins, loop.coins, after2);
      BlindingFinishMerges(ql, ref.quotationId, detail, env, fund.coins, loop.coins, after2, s);
    }
  }

  /** After both selections, the commitments handed to blinding are the exchanger's followed by those of the coins spent. */
  lemma BlindingFinishMerges(ql: map<string, Quotation>, qid: string, detail: OfferByAsset, env: SendEnv,
                             fund: seq<Unspent>, loopback: seq<Unspent>, after: map<CoinKey, int>, s: SendState)
    requires |loopback| == 1
    requires s == BlindingFinish(ql, qid, detail, env, fund, loopback, after)
    ensures s.outcome !in {Aborted(OfferFailed), Aborted(Drift)} ==>
        && env.offer.Some?
        && var n := |env.offer.value.commitments|;
        && |s.commitments| == n + |fund| + 1
        && s.commitments[..n] == env.offer.value.commitments
        && (forall i :: 0 <= i < |fund| ==> s.commitments[n + i] == fund[i].assetCommitment)
        && s.commitments[n + |fund|] == loopback[0].assetCommitment
  {
    if s.outcome !in {Aborted(OfferFailed), Aborted(Drift)} {
      var cs := Commitments(fund + loopback);
      assert s.commitments == env.offer.value.commitments + cs;
      assert forall i :: 0 <= i < |fund| ==> (fund + loopback)[i] == fund[i];
      assert (fund + loopback)[|fund|] == loopback[0];
    }
  }

  /**
   * Settling the blinded path deletes the quotation and frees the coins
   * spent, but not the other loopback candidates: every blinded, usable
   * candidate of the requested asset that was free and is not spent stays
   * reserved until `now + d` after the send (the loopback selector locks
   * every candidate it passes and releases none of them).
   */
  lemma BlindingSettlementKeepsLoopbackCandidates(ql: map<string, Quotation>, locks: map<CoinKey, int>, d: nat, ref: QuoteRef,
                                                  env: SendEnv, fund: Selectors.Selection, after1: map<CoinKey, int>,
                                                  loop: Selectors.Selection, after2: map<CoinKey, int>)
    requires ref.quotationId in ql && ref.offerAsset in ql[ref.quotationId].offers
    requires (fund, after1) == Selectors.SearchUnspentSpec(locks, env.listed, Charge(ql[ref.quotationId].offers[ref.offerAsset]),
                                                           true, env.now, d)
    requires (loop, after2) == Selectors.SearchMinimalSpec(after1, env.loopbackListed, true, env.now, d)
    ensures var s := BlindingSpec(ql, locks, d, ref, env);
      s.outcome.Settled? ==>
        && s.outcome.accepted == env.submitted.Some?
        && s.quotations == ql - {ref.quotationId}
        && (forall k :: k in KeysOf(fund.coins + loop.coins) ==> k !in s.locks)
        && env.loopbackListed.Some?
        && (forall c :: c in env.loopbackListed.value && Selectors.Eligible(c, true) && Free(locks, Key(c), env.now) &&
                        Key(c) !in KeysOf(fund.coins + loop.coins) ==>
              Key(c) in s.locks && s.locks[Key(c)] == env.now + d)
  {
    var detail := ql[ref.quotationId].offers[ref.offerAsset];
    var s := BlindingSpec(ql, locks, d, ref, env);
    BlindingStages(ql, locks, d, ref, env, fund, after1, loop, after2);
    if fund.error.None? && loop.error.None? {
      BlindingFinishSettles(ql, ref.quotationId, detail, env, fund.coins, loop.coins, after2);
    }
    if s.outcome.Settled? {
      var loopbackRaw := env.loopbackListed.value;
      Selectors.SearchUnspentReserves(locks, env.listed.value, Charge(detail), true, env.now, d, fund, after1);
      Selectors.SearchMinimalUnspentReserves(after1, loopbackRaw, true, env.now, d, loop, after2);
      forall c | c in loopbackRaw && Selectors.Eligible(c, true) && Free(locks, Key(c), env.now) &&
                 Key(c) !in KeysOf(fund.coins + loop.coins)
        ensures Key(c) in after2 && after2[Key(c)] == env.now + d
      {
        KeysOfConcat(fund.coins, loop.coins);
        assert Free(after1, Key(c), env.now);
      }
    }
  }

  // ---------------------------------------------------------------------
  // The trader's state and handlers
  // ---------------------------------------------------------------------

  class Trader {
    /** `quotationList`: quotation id -> quotation. */
    var quotations: map<string, Quotation>
    /** `lockList`. */
    const locks: LockTable
    /** `assetIdMap`: asset label -> asset id. */
    const assetIds: map<string, string>
    /** `elementsTxOption`. */
    const txOption: string

    constructor (assetIds: map<string, string>, txOption: string, d: nat)
      ensures quotations == map[] && this.assetIds == assetIds && this.txOption == txOption
      ensures fresh(locks) && locks.entries == map[] && locks.duration == d
    {
      quotations := map[];
      locks := new LockTable(d);
      this.assetIds := assetIds;
      this.txOption := txOption;
    }

    /**
     * `doOffer` after the request has been decoded into the requested asset
     * and amount. `wallet` is the balance answered by `getwalletinfo` (None
     * when it failed), `rateOf(a)` the exchanger's answer to `getexchangerate`
     * for offered asset `a` (None when it failed), and `qid` the fresh id of
     * the new quotation. Every known asset other than the requested one whose
     * rate lookup succeeds gets an offer; the quotation is stored only when
     * there is at least one, and the response is exactly what is stored.
     */
    method DoOffer(requestAsset: string, requestAmount: int, wallet: Option<map<string, int>>,
                   rateOf: string -> Option<RateQuote>, qid: string)
      returns (r: Result<map<string, OfferByAsset>, OfferError>)
      modifies this`quotations
      ensures wallet.None? ==> r == Failure(BalanceFailed) && quotations == old(quotations)
      ensures wallet.Some? ==> r.Success?
      ensures r.Success? ==> forall a :: a in r.value <==>
        a in wallet.value && a in assetIds && a != requestAsset && rateOf(a).Some?
      ensures r.Success? ==> forall a :: a in r.value ==>
        r.value[a] == OfferByAsset(rateOf(a).value.fee, rateOf(a).value.cost, rateOf(a).value.id, "")
      ensures r.Success? ==>
        quotations == if r.value != map[] then old(quotations)[qid := Quotation(requestAsset, requestAmount, r.value)]
                      else old(quotations)
    {
      if wallet.None? {
        return Failure(BalanceFailed);
      }
      var balance := ChooseKnownAssets(wallet.value, assetIds);
      var offers: map<string, OfferByAsset> := map[];
      var offerExists := false;
      var pending := balance.Keys;
      while pending != {}
        invariant pending <= balance.Keys
        invariant forall a :: a in offers <==> a in balance && a !in pending && a != requestAsset && rateOf(a).Some?
        invariant forall a :: a in offers ==>
          offers[a] == OfferByAsset(rateOf(a).value.fee, rateOf(a).value.cost, rateOf(a).value.id, "")
        invariant offerExists <==> offers != map[]
        decreases pending
      {
        var offerAsset :| offerAsset in pending;
        pending := pending - {offerAsset};
        if offerAsset == requestAsset {
          continue;
        }
        var rate := rateOf(offerAsset);
        if rate.None? {
          continue;
        }
        offerExists := true;
        offers := offers[offerAsset := OfferByAsset(rate.value.fee, rate.value.cost, rate.value.id, "")];
      }
      if offerExists {
        quotations := quotations[qid := Quotation(requestAsset, requestAmount, offers)];
      }
      return Success(offers);
    }

    /**
     * `doSendWithNoBlinding`: `found` is what `getQuotation` returned. Nothing
     * changes when no stored offer carries `offerID`; otherwise the outcome,
     * quotation list and lock table are those of `NoBlindingSpec`.
     */
    method DoSendWithNoBlinding(offerID: string, sendToAddr: string, env: SendEnv)
      returns (found: Option<QuoteRef>, outcome: SendOutcome)
      modifies this`quotations, locks`entries
      ensures found.Some? ==> Carries(old(quotations), found.value, offerID)
      ensures found.None? <==> forall qid, a :: !Carries(old(quotations), QuoteRef(qid, a), offerID)
      ensures found.None? ==>
        outcome == Aborted(QuotationMissing) && quotations == old(quotations) && locks.entries == old(locks.entries)
      ensures found.Some? ==>
        SendState(outcome, quotations, locks.entries, []) ==
        NoBlindingSpec(old(quotations), old(locks.entries), locks.duration, found.value, env)
    {
      found := GetQuotation(quotations, offerID);
      if found.None? {
        return found, Aborted(QuotationMissing);
      }
      outcome := SendNoBlinding(found.value, sendToAddr, env);
    }

    /** The unblinded send once the quotation `ref` was found. */
    method SendNoBlinding(ref: QuoteRef, sendToAddr: string, env: SendEnv) returns (outcome: SendOutcome)
      requires ref.quotationId in quotations && ref.offerAsset in quotations[ref.quotationId].offers
      modifies this`quotations, locks`entries
      ensures SendState(outcome, quotations, locks.entries, []) ==
        NoBlindingSpec(old(quotations), old(locks.entries), locks.duration, ref, env)
    {
      var q := quotations[ref.quotationId];
      var detail := q.offers[ref.offerAsset];
      if env.offer.None? {
        return Aborted(OfferFailed);
      }
      var ex := env.offer.value;
      if detail.cost != ex.cost || detail.fee != ex.fee {
        return Aborted(Drift);
      }
      var utxos := Selectors.SearchUnspent(locks, env.listed, detail.cost + detail.fee, false, env.now);
      assert NoBlindingSpec(old(quotations), old(locks.entries), locks.duration, ref, env)
          == NoBlindingFinish(quotations, ref.quotationId, detail, env, utxos, locks.entries);
      if utxos.error.Some? {
        return Aborted(FundsFailed);
      }
      var args := AppendTransactionInfo(sendToAddr, q.requestAsset, q.requestAmount, ref.offerAsset,
                                        detail.(transaction := ex.transaction), utxos.coins, assetIds, txOption,
                                        env.changeAddr);
      if args.Failure? || env.built.None? {
        return Aborted(BuildFailed);
      }
      if env.signed.None? {
        return Aborted(SignFailed);
      }
      outcome := Settled(env.submitted.Some?);
      quotations := quotations - {ref.quotationId};
      locks.UnlockUnspentList(utxos.coins);
    }

    /**
     * `doSendWithBlinding`: as above with `BlindingSpec`; `merged` are the
     * commitments handed to `blindrawtransaction` (empty when it was not
     * reached).
     */
    method DoSendWithBlinding(offerID: string, sendToAddr: string, env: SendEnv)
      returns (found: Option<QuoteRef>, outcome: SendOutcome, merged: seq<string>)
      modifies this`quotations, locks`entries
      ensures found.Some? ==> Carries(old(quotations), found.value, offerID)
      ensures found.None? <==> forall qid, a :: !Carries(old(quotations), QuoteRef(qid, a), offerID)
      ensures found.None? ==>
        outcome == Aborted(QuotationMissing) && quotations == old(quotations) && locks.entries == old(locks.entries)
      ensures found.Some? ==>
        SendState(outcome, quotations, locks.entries, merged) ==
        BlindingSpec(old(quotations), old(locks.entries), locks.duration, found.value, env)
    {
      found := GetQuotation(quotations, offerID);
      if found.None? {
        return found, Aborted(QuotationMissing), [];
      }
      outcome, merged := SendBlinding(found.value, sendToAddr, env);
    }

    /** The blinded send once the quotation `ref` was found. */
    method SendBlinding(ref: QuoteRef, sendToAddr: string, env: SendEnv) returns (outcome: SendOutcome, merged: seq<string>)
      requires ref.quotationId in quotations && ref.offerAsset in quotations[ref.quotationId].offers
      modifies this`quotations, locks`entries
      ensures SendState(outcome, quotations, locks.entries, merged) ==
        BlindingSpec(old(quotations), old(locks.entries), locks.duration, ref, env)
    {
      merged := [];
      var q := quotations[ref.quotationId];
      var detail := q.offers[ref.offerAsset];
      var ofutxos := Selectors.SearchUnspent(locks, env.listed, detail.cost + detail.fee, true, env.now);
      if ofutxos.error.Some? {
        return Aborted(FundsFailed), [];
      }
      var sautxos := Selectors.SearchMinimalUnspent(locks, env.loopbackListed, true, env.now);
      if sautxos.error.Some? {
        return Aborted(LoopbackFailed), [];
      }
      assert BlindingSpec(old(quotations), old(locks.entries), locks.duration, ref, env)
          == BlindingFinish(quotations, ref.quotationId, detail, env, ofutxos.coins, sautxos.coins, locks.entries);
      var cmutxos := ofutxos.coins + sautxos.coins;
      var commitments := GetCommitments(cmutxos);
      if env.offer.None? {
        return Aborted(OfferFailed), [];
      }
      var ex := env.offer.value;
      if detail.cost != ex.cost || detail.fee != ex.fee {
        return Aborted(Drift), [];
      }
      merged := ex.commitments + commitments;
      var args := AppendTransactionInfoWB(sendToAddr, q.requestAsset, q.requestAmount, ref.offerAsset,
                                          detail.(transaction := ex.transaction), ofutxos.coins, sautxos.coins,
                                          assetIds, txOption, env.changeAddr, env.loopbackAddr);
      if args.Failure? || env.built.None? {
        return Aborted(BuildFailed), merged;
      }
      if env.blinded.None? {
        return Aborted(BlindFailed), merged;
      }
      if env.signed.None? {
        return Aborted(SignFailed), merged;
      }
      outcome := Settled(env.submitted.Some?);
      quotations := quotations - {ref.quotationId};
      locks.UnlockUnspentList(cmutxos);
    }

    /**
     * `doSend` after the request has been decoded into the offer id and the
     * destination address: `validated` is the answer of `validateaddress`.
     * An address that cannot be validated stops the send with nothing
     * changed; a confidential address takes the blinded path.
     */
    method DoSend(offerID: string, sendToAddr: string, validated: Option<ValidatedAddress>, env: SendEnv)
      returns (r: Result<SendOutcome, AddressError>, found: Option<QuoteRef>)
      modifies this`quotations, locks`entries
      ensures IsConfidential(sendToAddr, validated).Failure? ==>
        r == Failure(IsConfidential(sendToAddr, validated).error) && found.None? &&
        quotations == old(quotations) && locks.entries == old(locks.entries)
      ensures IsConfidential(sendToAddr, validated).Success? ==>
        && r.Success?
        && (found.None? <==> forall qid, a :: !Carries(old(quotations), QuoteRef(qid, a), offerID))
        && (found.None? ==> r.value == Aborted(QuotationMissing) &&
                            quotations == old(quotations) && locks.entries == old(locks.entries))
        && (found.Some? ==>
              && Carries(old(quotations), found.value, offerID)
              && var spec := if IsConfidential(sendToAddr, validated).value
                             then BlindingSpec(old(quotations), old(locks.entries), locks.duration, found.value, env)
                             else NoBlindingSpec(old(quotations), old(locks.entries), locks.duration, found.value, env);
                 r.value == spec.outcome && quotations == spec.quotations && locks.entries == spec.locks)
    {
      var confidential := IsConfidential(sendToAddr, validated);
      if confidential.Failure? {
        return Failure(confidential.error), None;
      }
      var outcome;
      if confidential.value {
        var merged;
        found, outcome, merged := DoSendWithBlinding(offerID, sendToAddr, env);
      } else {
        found, outcome := DoSendWithNoBlinding(offerID, sendToAddr, env);
      }
      return Success(outcome), found;
    }
  }
}
