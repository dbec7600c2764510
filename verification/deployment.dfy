/**
 * The venue address as the shipped configuration supplies it. Both the
 * detector's address fallback and the classifier read
 * `config.cardano.dexAddresses.splash`, but the configuration object defines
 * no `dexAddresses`; reading a field of that undefined value throws.
 */
module Deployment {
  import opened Wrappers
  import opened Ledger
  import opened Text
  import opened Flow

  /** The configuration fields the classifier reads; `splashAddress` is None when `dexAddresses` is missing. */
  datatype Config = Config(policyId: string, splashAddress: Option<string>)

  /** The configuration as shipped: the token's unit, and no venue address table. */
  const Shipped := Config("ac597ca62a32cab3f4766c8f9cd577e50ebb1d00383ec7fa3990b016435241574a55", None)

  /** Some input or output holds a positive tracked quantity, so its address is compared with the venue's. */
  predicate ReachesVenueLookup(u: Utxos, policy: string) {
    (exists k :: 0 <= k < |u.inputs| && LastQuantity(u.inputs[k].amount, Tracked(policy)) > 0) ||
    (exists k :: 0 <= k < |u.outputs| && LastQuantity(u.outputs[k].amount, Tracked(policy)) > 0)
  }

  /**
   * `analyzeTransaction` as written against a configuration: None when the
   * venue lookup throws. When no address comparison happens the venue plays
   * no part and the empty address stands in for it.
   */
  function ClassifyAsWritten(u: Utxos, cfg: Config): (r: Option<FlowResult>)
    ensures r.None? <==> ReachesVenueLookup(u, cfg.policyId) && cfg.splashAddress.None?
    ensures cfg.splashAddress.Some? ==> r == Some(Classify(u, cfg.policyId, cfg.splashAddress.value))
  {
    if !ReachesVenueLookup(u, cfg.policyId) then
      var configured := if cfg.splashAddress.Some? then cfg.splashAddress.value else "";
      TallyIgnoresVenue(u.inputs, cfg.policyId, "", configured);
      TallyIgnoresVenue(u.outputs, cfg.policyId, "", configured);
      Some(Classify(u, cfg.policyId, ""))
    else
      match cfg.splashAddress
      case None => None
      case Some(venue) => Some(Classify(u, cfg.policyId, venue))
  }

  /**
   * With the shipped configuration the classifier fails exactly on the
   * transactions it exists for: those moving a positive amount of the token.
   */
  lemma ShippedConfigBreaksClassifier(u: Utxos)
    ensures ClassifyAsWritten(u, Shipped).None? <==> ReachesVenueLookup(u, Shipped.policyId)
  {
  }

  /** A concrete transfer of 500 tokens to a user: the as-written classifier throws on it. */
  lemma ShippedConfigFailsOnTransfer()
    ensures ClassifyAsWritten(Utxos([], [TxEntry("addr1", [Asset(Shipped.policyId, 500)])]), Shipped) == None
  {
    var out := TxEntry("addr1", [Asset(Shipped.policyId, 500)]);
    assert Contains(Shipped.policyId, Shipped.policyId) by {
      assert StartsWith(Shipped.policyId, Shipped.policyId);
    }
    var u := Utxos([], [out]);
    assert LastQuantity(u.outputs[0].amount, Tracked(Shipped.policyId)) == 500;
    assert ReachesVenueLookup(u, Shipped.policyId);
  }
}
