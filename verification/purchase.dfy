/**
 * The deployed bot's purchase reading of one transaction: the token amount it
 * reports (`getTokenAmount`) and the ADA it believes the buyer paid.
 */
module Purchase {
  import opened Ledger

  /** The tracked-token quantity the bot reads off one entry: the last tracked asset's. */
  function TokensIn(e: TxEntry, policy: string): nat {
    LastQuantity(e.amount, Tracked(policy))
  }

  /** The lovelace quantity the bot reads off one entry: the last lovelace asset's. */
  function LovelaceIn(e: TxEntry): nat {
    LastQuantity(e.amount, LovelaceOnly)
  }

  /** An output that carries lovelace and a positive tracked quantity: a candidate purchase. */
  predicate Qualifies(o: TxEntry, policy: string) {
    Carries(o.amount, LovelaceOnly) && TokensIn(o, policy) > 0
  }

  /** An input with lovelace and no tracked unit at all: taken to be the buyer's payment. */
  predicate PureAda(i: TxEntry, policy: string) {
    !Carries(i.amount, Tracked(policy)) && LovelaceIn(i) > 0
  }

  /** `tokenAmounts`: the tracked quantity of every qualifying output, in order. */
  function PurchaseAmounts(outputs: seq<TxEntry>, policy: string): (amounts: seq<nat>)
    ensures forall x :: x in amounts <==> exists k :: 0 <= k < |outputs| && Qualifies(outputs[k], policy) && x == TokensIn(outputs[k], policy)
  {
    if |outputs| == 0 then []
    else
      var init, o := outputs[..|outputs| - 1], outputs[|outputs| - 1];
      assert forall k :: 0 <= k < |init| ==> init[k] == outputs[k];
      PurchaseAmounts(init, policy) + (if Qualifies(o, policy) then [TokensIn(o, policy)] else [])
  }

  /** `buyerInputs`: the lovelace of every pure-ADA input, in order. */
  function BuyerPayments(inputs: seq<TxEntry>, policy: string): (payments: seq<nat>)
    ensures forall x :: x in payments <==> exists k :: 0 <= k < |inputs| && PureAda(inputs[k], policy) && x == LovelaceIn(inputs[k])
  {
    if |inputs| == 0 then []
    else
      var init, i := inputs[..|inputs| - 1], inputs[|inputs| - 1];
      assert forall k :: 0 <= k < |init| ==> init[k] == inputs[k];
      BuyerPayments(init, policy) + (if PureAda(i, policy) then [LovelaceIn(i)] else [])
  }

  /** `Math.min(...s)` on a non-empty list. */
  function MinOf(s: seq<nat>): (m: nat)
    requires |s| > 0
    ensures m in s && forall x :: x in s ==> m <= x
  {
    if |s| == 1 then s[0]
    else
      var rest := MinOf(s[1..]);
      assert forall x :: x in s[1..] ==> x in s;
      assert forall x :: x in s ==> x == s[0] || x in s[1..];
      if s[0] <= rest then s[0] else rest
  }

  /** `Math.max(...s)` on a non-empty list. */
  function MaxOf(s: seq<nat>): (m: nat)
    requires |s| > 0
    ensures m in s && forall x :: x in s ==> x <= m
  {
    if |s| == 1 then s[0]
    else
      var rest := MaxOf(s[1..]);
      assert forall x :: x in s[1..] ==> x in s;
      assert forall x :: x in s ==> x == s[0] || x in s[1..];
      if s[0] >= rest then s[0] else rest
  }

  /**
   * `getTokenAmount`: 0 when no output qualifies; otherwise the smallest
   * tracked quantity among the qualifying outputs.
   */
  function TokenAmount(u: Utxos, policy: string): (r: nat)
    ensures r == 0 <==> forall k :: 0 <= k < |u.outputs| ==> !Qualifies(u.outputs[k], policy)
    ensures r > 0 ==> exists k :: 0 <= k < |u.outputs| && Qualifies(u.outputs[k], policy) && r == TokensIn(u.outputs[k], policy)
    ensures forall k :: 0 <= k < |u.outputs| && Qualifies(u.outputs[k], policy) ==> r <= TokensIn(u.outputs[k], policy)
  {
    var amounts := PurchaseAmounts(u.outputs, policy);
    assert forall k :: 0 <= k < |u.outputs| && Qualifies(u.outputs[k], policy) ==> TokensIn(u.outputs[k], policy) in amounts;
    if |amounts| > 0 then MinOf(amounts) else 0
  }

  /**
   * The buyer-ADA estimate: the largest pure-ADA input when there is one;
   * otherwise all input lovelace minus all output lovelace, which may be
   * negative and is not clamped.
   */
  function EstimateAda(u: Utxos, policy: string): (r: int)
    ensures (exists k :: 0 <= k < |u.inputs| && PureAda(u.inputs[k], policy)) ==>
              (exists k :: 0 <= k < |u.inputs| && PureAda(u.inputs[k], policy) && r == LovelaceIn(u.inputs[k])) &&
              forall k :: 0 <= k < |u.inputs| && PureAda(u.inputs[k], policy) ==> LovelaceIn(u.inputs[k]) <= r
    ensures (forall k :: 0 <= k < |u.inputs| ==> !PureAda(u.inputs[k], policy)) ==>
              r == TotalOver(u.inputs, LovelaceOnly) - TotalOver(u.outputs, LovelaceOnly)
  {
    var payments := BuyerPayments(u.inputs, policy);
    assert forall k :: 0 <= k < |u.inputs| && PureAda(u.inputs[k], policy) ==> LovelaceIn(u.inputs[k]) in payments;
    if |payments| > 0 then MaxOf(payments)
    else TotalOver(u.inputs, LovelaceOnly) - TotalOver(u.outputs, LovelaceOnly)
  }
}
