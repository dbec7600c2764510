/**
 * One tick of the monitoring loop (`monitorCRAWJUTransactions`), as a pure
 * transition from (watermark, fetched batch) to (processed prefix,
 * notifications, new watermark). Network reads are parameters: the batch of
 * recent transfer ids and a lookup of each transaction's UTXO record.
 */
module Monitor {
  import opened Wrappers
  import opened Ledger
  import opened Purchase

  /** What a buy notification carries: the transaction, its token amount and the buyer-ADA estimate. */
  datatype Notification = Notification(txHash: string, tokenAmount: nat, adaAmount: int)

  datatype TickResult = TickResult(processed: seq<string>, notifications: seq<Notification>, watermark: Option<string>)

  /**
   * The walk over a newest-first batch: every id before the first one equal to
   * the watermark. A missing watermark equals no id.
   */
  function Unseen(watermark: Option<string>, batch: seq<string>): (p: seq<string>)
    ensures p <= batch
    ensures forall i :: 0 <= i < |p| ==> watermark != Some(p[i])
    ensures |p| < |batch| ==> watermark == Some(batch[|p|])
  {
    if |batch| == 0 || watermark == Some(batch[0]) then []
    else [batch[0]] + Unseen(watermark, batch[1..])
  }

  /**
   * The notification a processed transaction yields: none when its records
   * could not be fetched (the per-transaction `catch`) or when it is not a
   * buy (`getTokenAmount` is 0).
   */
  function NoticeFor(txHash: string, lookup: string -> Option<Utxos>, policy: string): (n: Option<Notification>)
    ensures n.Some? <==> lookup(txHash).Some? && TokenAmount(lookup(txHash).value, policy) > 0
    ensures n.Some? ==> n.value.tokenAmount > 0
    ensures n.Some? ==> n.value == Notification(txHash, TokenAmount(lookup(txHash).value, policy),
                                                EstimateAda(lookup(txHash).value, policy))
  {
    match lookup(txHash)
    case None => None
    case Some(u) =>
      var amount := TokenAmount(u, policy);
      if amount > 0 then Some(Notification(txHash, amount, EstimateAda(u, policy))) else None
  }

  /** The present results of `notice` over `ids`, in order. */
  function Collect(ids: seq<string>, notice: string -> Option<Notification>): (ns: seq<Notification>)
    ensures |ns| <= |ids|
    ensures forall n :: n in ns ==> exists i :: 0 <= i < |ids| && notice(ids[i]) == Some(n)
    ensures forall i :: 0 <= i < |ids| && notice(ids[i]).Some? ==> notice(ids[i]).value in ns
  {
    if |ids| == 0 then []
    else
      var rest := Collect(ids[1..], notice);
      assert forall i :: 1 <= i < |ids| ==> ids[i] == ids[1..][i - 1];
      match notice(ids[0])
      case Some(n) => [n] + rest
      case None => rest
  }

  /** The notifications for processed ids, in processing order. */
  function Notices(ids: seq<string>, lookup: string -> Option<Utxos>, policy: string): (ns: seq<Notification>)
    ensures |ns| <= |ids|
    ensures forall n :: n in ns ==> n.txHash in ids && NoticeFor(n.txHash, lookup, policy) == Some(n)
    ensures forall i :: 0 <= i < |ids| && NoticeFor(ids[i], lookup, policy).Some? ==>
                          NoticeFor(ids[i], lookup, policy).value in ns
  {
    Collect(ids, t => NoticeFor(t, lookup, policy))
  }

  /**
   * One tick. A failed or empty batch fetch changes nothing. Otherwise the
   * unseen prefix is processed and the watermark moves to the newest id of
   * the batch, whatever happened to the individual transactions.
   */
  function Tick(watermark: Option<string>, fetched: Option<seq<string>>,
                lookup: string -> Option<Utxos>, policy: string): (r: TickResult)
    ensures fetched.None? || fetched == Some([]) ==> r == TickResult([], [], watermark)
    ensures fetched.Some? && |fetched.value| > 0 ==>
              r.watermark == Some(fetched.value[0]) && r.processed == Unseen(watermark, fetched.value)
    ensures r.notifications == Notices(r.processed, lookup, policy)
    ensures forall n :: n in r.notifications ==> n.txHash in r.processed && n.tokenAmount > 0
    ensures forall i :: 0 <= i < |r.processed| && lookup(r.processed[i]).Some? &&
                        TokenAmount(lookup(r.processed[i]).value, policy) > 0 ==>
                        exists n :: n in r.notifications && n.txHash == r.processed[i]
  {
    match fetched
    case None => TickResult([], [], watermark)
    case Some(batch) =>
      if |batch| == 0 then TickResult([], [], watermark)
      else
        var processed := Unseen(watermark, batch);
        var ns := Notices(processed, lookup, policy);
        assert forall i :: 0 <= i < |processed| && NoticeFor(processed[i], lookup, policy).Some? ==>
                 NoticeFor(processed[i], lookup, policy).value in ns;
        TickResult(processed, ns, Some(batch[0]))
  }

  /** A watermark equal to the id at index `i`, met nowhere earlier, stops the walk exactly there. */
  lemma WatermarkStopsWalk(batch: seq<string>, i: nat)
    requires i < |batch|
    requires forall j :: 0 <= j < i ==> batch[j] != batch[i]
    ensures Unseen(Some(batch[i]), batch) == batch[..i]
  {
    var p := Unseen(Some(batch[i]), batch);
    if |p| > i {
      assert false;
    }
    if |p| < i {
      assert false;
    }
  }

  /** A watermark absent from the batch lets the whole batch through. */
  lemma AbsentWatermarkProcessesAll(watermark: Option<string>, batch: seq<string>)
    requires forall j :: 0 <= j < |batch| ==> watermark != Some(batch[j])
    ensures Unseen(watermark, batch) == batch
  {
    var p := Unseen(watermark, batch);
    if |p| < |batch| {
      assert false;
    }
  }

  /** Re-running a tick over the same batch processes and notifies nothing. */
  lemma RerunIsQuiet(watermark: Option<string>, batch: seq<string>,
                     lookup1: string -> Option<Utxos>, lookup2: string -> Option<Utxos>, policy: string)
    ensures var first := Tick(watermark, Some(batch), lookup1, policy);
            var second := Tick(first.watermark, Some(batch), lookup2, policy);
            second.processed == [] && second.notifications == [] && second.watermark == first.watermark
  {
  }

  /**
   * The worked example: batch [h1, h2, h3] with watermark h2 processes only h1
   * and leaves the watermark at h1; a second run processes nothing.
   */
  lemma ThreeTransferExample(h1: string, h2: string, h3: string, lookup: string -> Option<Utxos>, policy: string)
    requires h1 != h2
    ensures Tick(Some(h2), Some([h1, h2, h3]), lookup, policy).processed == [h1]
    ensures Tick(Some(h2), Some([h1, h2, h3]), lookup, policy).watermark == Some(h1)
    ensures Tick(Some(h1), Some([h1, h2, h3]), lookup, policy).processed == []
  {
    WatermarkStopsWalk([h1, h2, h3], 1);
  }
}
