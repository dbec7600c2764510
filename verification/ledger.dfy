/**
 * The ledger records the classifier reads: the inputs and outputs of one
 * transaction as returned by the indexing API, each carrying an address and
 * an `amount` list of `{unit, quantity}` pairs.
 */
module Ledger {
  import opened Text

  /** One `{unit, quantity}` pair; quantities are the naturals `parseInt` yields. */
  datatype Asset = Asset(unit: string, quantity: nat)

  /** One UTXO input or output. A missing `amount` list is the empty sequence. */
  datatype TxEntry = TxEntry(address: string, amount: seq<Asset>)

  /** The `/txs/{hash}/utxos` record of one transaction. */
  datatype Utxos = Utxos(inputs: seq<TxEntry>, outputs: seq<TxEntry>)

  /** The unit name of the native currency. */
  const Lovelace: string := "lovelace"

  /** Which assets an accumulation loop looks at. */
  datatype Selector =
    | Tracked(policy: string)   // `asset.unit && asset.unit.includes(policyId)`
    | LovelaceOnly              // `asset.unit === 'lovelace'`

  /**
   * Whether a unit is selected. The tracked token is recognised by substring
   * containment of the policy id, and an empty unit is falsy, so it never matches.
   */
  predicate Selects(sel: Selector, unit: string) {
    match sel
    case Tracked(policy) => |unit| > 0 && Contains(unit, policy)
    case LovelaceOnly => unit == Lovelace
  }

  /** Some asset of the list is selected (the source's `hasADA` / `hasTokens` flags). */
  predicate Carries(assets: seq<Asset>, sel: Selector) {
    exists i :: 0 <= i < |assets| && Selects(sel, assets[i].unit)
  }

  /** At most one asset of the list is selected. */
  predicate AtMostOne(assets: seq<Asset>, sel: Selector) {
    forall i, j :: 0 <= i < j < |assets| && Selects(sel, assets[i].unit) ==> !Selects(sel, assets[j].unit)
  }

  /**
   * The value a loop `for (asset of amount) if (selected) q = quantity` leaves in
   * `q`: the quantity of the LAST selected asset, or 0 when none is selected.
   */
  function LastQuantity(assets: seq<Asset>, sel: Selector): nat {
    if |assets| == 0 then 0
    else if Selects(sel, assets[|assets| - 1].unit) then assets[|assets| - 1].quantity
    else LastQuantity(assets[..|assets| - 1], sel)
  }

  /**
   * `LastQuantity` is 0 when nothing is selected, and otherwise the quantity of
   * the selected asset that no later asset follows.
   */
  lemma {:induction false} LastQuantityIsLast(assets: seq<Asset>, sel: Selector)
    ensures !Carries(assets, sel) ==> LastQuantity(assets, sel) == 0
    ensures forall i :: 0 <= i < |assets| && Selects(sel, assets[i].unit) &&
                        (forall j :: i < j < |assets| ==> !Selects(sel, assets[j].unit))
                        ==> LastQuantity(assets, sel) == assets[i].quantity
  {
    if |assets| > 0 {
      var n := |assets| - 1;
      var init := assets[..n];
      assert forall i :: 0 <= i < |init| ==> init[i] == assets[i];
      LastQuantityIsLast(init, sel);
      if !Selects(sel, assets[n].unit) {
        assert LastQuantity(assets, sel) == LastQuantity(init, sel);
        assert !Carries(assets, sel) ==> !Carries(init, sel);
        forall i | 0 <= i < n && Selects(sel, assets[i].unit) &&
                   (forall j :: i < j < |assets| ==> !Selects(sel, assets[j].unit))
          ensures LastQuantity(assets, sel) == assets[i].quantity
        {
          assert forall j :: i < j < |init| ==> !Selects(sel, init[j].unit);
        }
      }
    }
  }

  /** The value a loop `for (asset of amount) if (selected) total += quantity` accumulates. */
  function SumQuantity(assets: seq<Asset>, sel: Selector): (total: nat)
    ensures total >= LastQuantity(assets, sel)
  {
    if |assets| == 0 then 0
    else
      SumQuantity(assets[..|assets| - 1], sel) +
      (if Selects(sel, assets[|assets| - 1].unit) then assets[|assets| - 1].quantity else 0)
  }

  /** Nothing selected, nothing summed. */
  lemma {:induction false} NothingSelectedSumsToZero(assets: seq<Asset>, sel: Selector)
    requires !Carries(assets, sel)
    ensures SumQuantity(assets, sel) == 0
  {
    if |assets| > 0 {
      var init := assets[..|assets| - 1];
      assert forall i :: 0 <= i < |init| ==> init[i] == assets[i];
      NothingSelectedSumsToZero(init, sel);
    }
  }

  /** With at most one selected asset, "last" and "all" agree. */
  lemma {:induction false} SumIsLastWhenSingle(assets: seq<Asset>, sel: Selector)
    requires AtMostOne(assets, sel)
    ensures SumQuantity(assets, sel) == LastQuantity(assets, sel)
  {
    if |assets| > 0 {
      var init := assets[..|assets| - 1];
      assert AtMostOne(init, sel);
      SumIsLastWhenSingle(init, sel);
      if Selects(sel, assets[|assets| - 1].unit) {
        assert !Carries(init, sel);
        NothingSelectedSumsToZero(init, sel);
        LastQuantityIsLast(init, sel);
      }
    }
  }

  /** The selected quantity summed over every asset of every entry. */
  function TotalOver(entries: seq<TxEntry>, sel: Selector): nat {
    if |entries| == 0 then 0
    else TotalOver(entries[..|entries| - 1], sel) + SumQuantity(entries[|entries| - 1].amount, sel)
  }
}
