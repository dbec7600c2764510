/**
 * The flow classifier (`analyzeTransaction`): counts the tracked token on
 * each side of a transaction, splits each count between the venue address and
 * everybody else ("users"), and runs a first-match cascade that calls the
 * transaction a buy, a sell, or unknown.
 */
module Flow {
  import opened Ledger
  import opened Venue

  /** The three counters one side (inputs or outputs) contributes. */
  datatype Side = Side(total: nat, dex: nat, user: nat)

  /**
   * What one entry adds. `total` takes EVERY tracked asset's quantity, while
   * the venue/user split takes only the LAST tracked asset's quantity, and
   * only when it is positive.
   */
  function EntryShare(e: TxEntry, policy: string, venue: string): Side {
    var q := LastQuantity(e.amount, Tracked(policy));
    Side(SumQuantity(e.amount, Tracked(policy)),
         if q > 0 && e.address == venue then q else 0,
         if q > 0 && e.address != venue then q else 0)
  }

  /** The counters after the loop over `entries`, in order. */
  function Tally(entries: seq<TxEntry>, policy: string, venue: string): (s: Side)
    ensures s.dex + s.user <= s.total
  {
    if |entries| == 0 then Side(0, 0, 0)
    else
      var s, e := Tally(entries[..|entries| - 1], policy, venue), EntryShare(entries[|entries| - 1], policy, venue);
      Side(s.total + e.total, s.dex + e.dex, s.user + e.user)
  }

  /** A side none of whose entries carries the tracked token counts nothing. */
  lemma {:induction false} TallyNoToken(entries: seq<TxEntry>, policy: string, venue: string)
    requires forall k :: 0 <= k < |entries| ==> !Carries(entries[k].amount, Tracked(policy))
    ensures Tally(entries, policy, venue) == Side(0, 0, 0)
  {
    if |entries| > 0 {
      var init := entries[..|entries| - 1];
      assert forall k :: 0 <= k < |init| ==> init[k] == entries[k];
      TallyNoToken(init, policy, venue);
      LastQuantityIsLast(entries[|entries| - 1].amount, Tracked(policy));
      NothingSelectedSumsToZero(entries[|entries| - 1].amount, Tracked(policy));
    }
  }

  /** Without a positive per-entry quantity no address is compared, so the venue plays no part. */
  lemma {:induction false} TallyIgnoresVenue(entries: seq<TxEntry>, policy: string, v1: string, v2: string)
    requires forall k :: 0 <= k < |entries| ==> LastQuantity(entries[k].amount, Tracked(policy)) == 0
    ensures Tally(entries, policy, v1) == Tally(entries, policy, v2)
  {
    if |entries| > 0 {
      var init := entries[..|entries| - 1];
      assert forall k :: 0 <= k < |init| ==> init[k] == entries[k];
      TallyIgnoresVenue(init, policy, v1, v2);
    }
  }

  /** A side's total is the every-match sum over all its entries, independent of the venue. */
  lemma {:induction false} TallyTotalIsTotalOver(entries: seq<TxEntry>, policy: string, venue: string)
    ensures Tally(entries, policy, venue).total == TotalOver(entries, Tracked(policy))
  {
    if |entries| > 0 {
      TallyTotalIsTotalOver(entries[..|entries| - 1], policy, venue);
    }
  }

  /**
   * When no entry holds two tracked units, the venue and user counters
   * partition the total exactly.
   */
  lemma {:induction false} TallySplitsTotal(entries: seq<TxEntry>, policy: string, venue: string)
    requires forall k :: 0 <= k < |entries| ==> AtMostOne(entries[k].amount, Tracked(policy))
    ensures Tally(entries, policy, venue).dex + Tally(entries, policy, venue).user == Tally(entries, policy, venue).total
  {
    if |entries| > 0 {
      var init := entries[..|entries| - 1];
      assert forall k :: 0 <= k < |init| ==> init[k] == entries[k];
      TallySplitsTotal(init, policy, venue);
      SumIsLastWhenSingle(entries[|entries| - 1].amount, Tracked(policy));
    }
  }

  datatype Kind = Buy | Sell | Unknown

  /** The six diagnostic counters of the source's result object. */
  datatype Counters = Counters(inputTokens: nat, outputTokens: nat,
                               dexInputTokens: nat, dexOutputTokens: nat,
                               userInputTokens: nat, userOutputTokens: nat)

  /** A transaction type with its token amount. */
  datatype Call = Call(kind: Kind, amount: nat)

  /** The `{type, amount, ...counters}` record. */
  datatype FlowResult = FlowResult(kind: Kind, amount: nat, counters: Counters)

  /**
   * The buy/sell cascade, first satisfied branch wins. A buy or a sell always
   * carries a positive amount and an unknown call carries none.
   */
  function Decide(c: Counters): (r: Call)
    ensures r.kind == Unknown <==> r.amount == 0
    ensures r.kind == Buy ==> r.amount <= c.userOutputTokens || r.amount <= c.outputTokens
    ensures r.kind == Sell ==> r.amount <= c.userInputTokens || r.amount <= c.inputTokens
  {
    if c.dexInputTokens > 0 && c.userOutputTokens > 0 then Call(Buy, c.userOutputTokens)
    else if c.userInputTokens > 0 && c.dexOutputTokens > 0 then Call(Sell, c.userInputTokens)
    else if c.inputTokens == 0 && c.userOutputTokens > 0 then Call(Buy, c.userOutputTokens)
    else if c.userInputTokens > 0 && c.userOutputTokens == 0 then Call(Sell, c.userInputTokens)
    else if c.userInputTokens > 0 && c.userOutputTokens > 0 then
      if c.userOutputTokens > c.userInputTokens then Call(Buy, c.userOutputTokens - c.userInputTokens)
      else if c.userInputTokens > c.userOutputTokens then Call(Sell, c.userInputTokens - c.userOutputTokens)
      else Call(Unknown, 0)
    else if c.outputTokens > c.inputTokens then Call(Buy, c.outputTokens - c.inputTokens)
    else if c.inputTokens > c.outputTokens then Call(Sell, c.inputTokens - c.outputTokens)
    else Call(Unknown, 0)
  }

  /** Counters a tally can produce: each side's venue and user parts fit in its total. */
  predicate Consistent(c: Counters) {
    c.dexInputTokens + c.userInputTokens <= c.inputTokens &&
    c.dexOutputTokens + c.userOutputTokens <= c.outputTokens
  }

  /** The counters of a UTXO record, inputs then outputs. */
  function CountersOf(u: Utxos, policy: string, venue: string): (c: Counters)
    ensures Consistent(c)
  {
    var i, o := Tally(u.inputs, policy, venue), Tally(u.outputs, policy, venue);
    Counters(i.total, o.total, i.dex, o.dex, i.user, o.user)
  }

  /** Functional reference for `analyzeTransaction(utxos, policyId)`. */
  function Classify(u: Utxos, policy: string, venue: string): (r: FlowResult)
    ensures r.kind == Unknown <==> r.amount == 0
    ensures Consistent(r.counters)
    ensures r.counters.inputTokens == TotalOver(u.inputs, Tracked(policy))
    ensures r.counters.outputTokens == TotalOver(u.outputs, Tracked(policy))
  {
    TallyTotalIsTotalOver(u.inputs, policy, venue);
    TallyTotalIsTotalOver(u.outputs, policy, venue);
    var c := CountersOf(u, policy, venue);
    var d := Decide(c);
    FlowResult(d.kind, d.amount, c)
  }

  /**
   * The inner loop over one entry's assets: `q` ends as the last tracked
   * quantity and `sum` as the sum of every tracked quantity.
   */
  method ScanAssets(assets: seq<Asset>, policy: string) returns (q: nat, sum: nat)
    ensures q == LastQuantity(assets, Tracked(policy))
    ensures sum == SumQuantity(assets, Tracked(policy))
  {
    q, sum := 0, 0;
    var j := 0;
    while j < |assets|
      invariant 0 <= j <= |assets|
      invariant q == LastQuantity(assets[..j], Tracked(policy))
      invariant sum == SumQuantity(assets[..j], Tracked(policy))
    {
      assert assets[..j + 1][..j] == assets[..j];
      if Selects(Tracked(policy), assets[j].unit) {
        q := assets[j].quantity;
        sum := sum + q;
      }
      j := j + 1;
    }
    assert assets[..j] == assets;
  }

  /** Extending the processed prefix by one entry adds that entry's share. */
  lemma TallyStep(entries: seq<TxEntry>, k: nat, policy: string, venue: string)
    requires k < |entries|
    ensures var s, e := Tally(entries[..k], policy, venue), EntryShare(entries[k], policy, venue);
            Tally(entries[..k + 1], policy, venue) == Side(s.total + e.total, s.dex + e.dex, s.user + e.user)
  {
    assert entries[..k + 1][..k] == entries[..k];
  }

  /** The loop over one side, as the source writes it. */
  method TallySide(entries: seq<TxEntry>, policy: string, venue: string) returns (total: nat, dex: nat, user: nat)
    ensures Side(total, dex, user) == Tally(entries, policy, venue)
  {
    total, dex, user := 0, 0, 0;
    var k := 0;
    assert entries[..k] == [];
    while k < |entries|
      invariant 0 <= k <= |entries|
      invariant Side(total, dex, user) == Tally(entries[..k], policy, venue)
    {
      var e := entries[k];
      ghost var before, share := Tally(entries[..k], policy, venue), EntryShare(e, policy, venue);
      var amount, all := ScanAssets(e.amount, policy);
      total := total + all;
      if amount > 0 {
        if e.address == venue {
          dex := dex + amount;
        } else {
          user := user + amount;
        }
      }
      assert Side(total, dex, user) == Side(before.total + share.total, before.dex + share.dex, before.user + share.user);
      TallyStep(entries, k, policy, venue);
      k := k + 1;
    }
    assert entries[..k] == entries;
  }

  /** `analyzeTransaction`: both side loops, then the cascade. */
  method AnalyzeTransaction(u: Utxos, policy: string, venue: string) returns (r: FlowResult)
    ensures r == Classify(u, policy, venue)
    ensures r.kind == Unknown <==> r.amount == 0
  {
    var inputTokens, dexInputTokens, userInputTokens := TallySide(u.inputs, policy, venue);
    var outputTokens, dexOutputTokens, userOutputTokens := TallySide(u.outputs, policy, venue);
    var c := Counters(inputTokens, outputTokens, dexInputTokens, dexOutputTokens, userInputTokens, userOutputTokens);
    var d := Decide(c);
    r := FlowResult(d.kind, d.amount, c);
  }

  /**
   * The order of the cascade: the venue-to-user rule beats the user-to-venue
   * rule, which beats the no-prior-holder rule, which beats the
   * complete-sale rule.
   */
  lemma CascadePriority(c: Counters)
    requires Consistent(c)
    ensures c.dexInputTokens > 0 && c.userOutputTokens > 0 ==> Decide(c) == Call(Buy, c.userOutputTokens)
    ensures (c.dexInputTokens == 0 || c.userOutputTokens == 0) && c.userInputTokens > 0 && c.dexOutputTokens > 0 ==>
              Decide(c) == Call(Sell, c.userInputTokens)
    ensures c.dexInputTokens == 0 && c.inputTokens == 0 && c.userOutputTokens > 0 ==> Decide(c) == Call(Buy, c.userOutputTokens)
    ensures c.userInputTokens > 0 && c.userOutputTokens == 0 ==> Decide(c) == Call(Sell, c.userInputTokens)
  {
  }

  /**
   * Equal positive user counts with no venue movement end in unknown with
   * amount 0, even when the overall totals differ: the last rule is not tried.
   */
  lemma EqualUserSidesNoFallthrough(c: Counters)
    requires Consistent(c)
    requires c.dexInputTokens == 0 && c.dexOutputTokens == 0
    requires c.userInputTokens > 0 && c.userInputTokens == c.userOutputTokens
    ensures Decide(c) == Call(Unknown, 0)
  {
  }

  /**
   * When both user counts are positive and no venue rule fires, the call is
   * the user's net change: a buy of the surplus received or a sell of the
   * surplus given.
   */
  lemma UserNetChange(c: Counters)
    requires c.dexInputTokens == 0 && c.dexOutputTokens == 0 && c.inputTokens > 0
    requires c.userInputTokens > 0 && c.userOutputTokens > 0
    ensures c.userOutputTokens > c.userInputTokens ==> Decide(c) == Call(Buy, c.userOutputTokens - c.userInputTokens)
    ensures c.userInputTokens > c.userOutputTokens ==> Decide(c) == Call(Sell, c.userInputTokens - c.userOutputTokens)
  {
  }

  /**
   * With no user input and neither buy rule firing (for instance when only the
   * venue moves tokens), the call is the difference of the totals: a buy of the
   * surplus output, a sell of the surplus input, or unknown when they balance.
   */
  lemma TotalDifference(c: Counters)
    requires c.userInputTokens == 0
    requires !(c.dexInputTokens > 0 && c.userOutputTokens > 0)
    requires !(c.inputTokens == 0 && c.userOutputTokens > 0)
    ensures c.outputTokens > c.inputTokens ==> Decide(c) == Call(Buy, c.outputTokens - c.inputTokens)
    ensures c.inputTokens > c.outputTokens ==> Decide(c) == Call(Sell, c.inputTokens - c.outputTokens)
    ensures c.inputTokens == c.outputTokens ==> Decide(c) == Call(Unknown, 0)
  {
  }

  /** A transaction where the tracked token appears nowhere is unknown. */
  lemma NoTokenIsUnknown(u: Utxos, policy: string, venue: string)
    requires forall k :: 0 <= k < |u.inputs| ==> !Carries(u.inputs[k].amount, Tracked(policy))
    requires forall k :: 0 <= k < |u.outputs| ==> !Carries(u.outputs[k].amount, Tracked(policy))
    ensures Classify(u, policy, venue).kind == Unknown && Classify(u, policy, venue).amount == 0
  {
    TallyNoToken(u.inputs, policy, venue);
    TallyNoToken(u.outputs, policy, venue);
  }

  /**
   * First distribution: with no tracked token among the inputs, whatever users
   * receive is a buy of exactly that amount.
   */
  lemma FreshDistributionIsBuy(u: Utxos, policy: string, venue: string)
    requires forall k :: 0 <= k < |u.inputs| ==> !Carries(u.inputs[k].amount, Tracked(policy))
    requires Tally(u.outputs, policy, venue).user > 0
    ensures Classify(u, policy, venue).kind == Buy
    ensures Classify(u, policy, venue).amount == Tally(u.outputs, policy, venue).user
  {
    TallyNoToken(u.inputs, policy, venue);
  }

  /** A user who gives up tokens and receives none sells all of them, whatever the venue does. */
  lemma UserSellsAll(c: Counters)
    requires c.userInputTokens > 0 && c.userOutputTokens == 0
    ensures Decide(c) == Call(Sell, c.userInputTokens)
  {
  }

  /** The conclusion the debug report draws from a detection and a classification. */
  datatype Conclusion = WouldNotify | SellSkipped | NotAtVenue | UnknownSkipped

  /** The report's conclusion: only a buy at a venue would be notified. */
  function Conclude(d: Detection, f: FlowResult): (c: Conclusion)
    ensures c == WouldNotify <==> d.isDex && f.kind == Buy
    ensures c == NotAtVenue <==> !d.isDex
  {
    if d.isDex && f.kind == Buy then WouldNotify
    else if d.isDex && f.kind == Sell then SellSkipped
    else if !d.isDex then NotAtVenue
    else UnknownSkipped
  }

  /** A notified transaction was detected at a venue and moves a positive token amount. */
  lemma NotifiedBuyIsPositive(metadata: seq<MetadataEntry>, u: Utxos, policy: string, venue: string)
    requires Conclude(Detect(metadata, Wrappers.Some(u), venue), Classify(u, policy, venue)) == WouldNotify
    ensures Detect(metadata, Wrappers.Some(u), venue).isDex
    ensures Classify(u, policy, venue).kind == Buy && Classify(u, policy, venue).amount > 0
  {
  }
}
