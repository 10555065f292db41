/** Reconciliation of the append-only ledger against current credit: sums,
    per-seller chains of previous/new credit, and replay. */
module Ledger {
  import opened Base
  import opened AccountsModels
  import opened CreditsModels

  /** Sum of the amounts of one seller's rows. */
  function SumFor(ledger: seq<Transaction>, seller: SellerId): int
    decreases |ledger|
  {
    if ledger == [] then 0
    else
      var last := ledger[|ledger| - 1];
      SumFor(ledger[..|ledger| - 1], seller) + (if last.seller == seller then last.amount else 0)
  }

  /** Sum of the amounts of one seller's 'charge_sale' rows. */
  function ChargeSum(ledger: seq<Transaction>, seller: SellerId): int
    decreases |ledger|
  {
    if ledger == [] then 0
    else
      var last := ledger[|ledger| - 1];
      ChargeSum(ledger[..|ledger| - 1], seller)
        + (if last.seller == seller && last.transactionType == ChargeSaleType then last.amount else 0)
  }

  /** Sum of the amounts of all rows. */
  function LedgerTotal(ledger: seq<Transaction>): int
    decreases |ledger|
  {
    if ledger == [] then 0 else LedgerTotal(ledger[..|ledger| - 1]) + ledger[|ledger| - 1].amount
  }

  /** Sum of the amounts of all 'charge_sale' rows. */
  function ChargeTotal(ledger: seq<Transaction>): int
    decreases |ledger|
  {
    if ledger == [] then 0
    else
      var last := ledger[|ledger| - 1];
      ChargeTotal(ledger[..|ledger| - 1]) + (if last.transactionType == ChargeSaleType then last.amount else 0)
  }

  /** Every row records `new_credit = previous_credit + amount`. */
  ghost predicate Balanced(ledger: seq<Transaction>) {
    forall i | 0 <= i < |ledger| :: ledger[i].newCredit == ledger[i].previousCredit + ledger[i].amount
  }

  /** The seller's rows form an unbroken chain ending at `credit`: the latest
      row's new_credit is `credit` and each earlier row's new_credit is the
      previous_credit of the next one. */
  ghost predicate Reconciles(ledger: seq<Transaction>, seller: SellerId, credit: int)
    decreases |ledger|
  {
    if ledger == [] then true
    else
      var last := ledger[|ledger| - 1];
      if last.seller == seller then
        last.newCredit == credit && Reconciles(ledger[..|ledger| - 1], seller, last.previousCredit)
      else
        Reconciles(ledger[..|ledger| - 1], seller, credit)
  }

  /** The seller's credit before its first row (its current credit if it has
      none): what the seller was given when the account was set up. */
  function Opening(ledger: seq<Transaction>, seller: SellerId, credit: int): int
    decreases |ledger|
  {
    if ledger == [] then credit
    else
      var last := ledger[|ledger| - 1];
      if last.seller == seller then Opening(ledger[..|ledger| - 1], seller, last.previousCredit)
      else Opening(ledger[..|ledger| - 1], seller, credit)
  }

  /** The seller's latest row, if any: a row of the seller with no row of
      the seller after it. */
  function Latest(ledger: seq<Transaction>, seller: SellerId): (r: Option<Transaction>)
    ensures r.Some? ==>
              exists i | 0 <= i < |ledger| ::
                && ledger[i] == r.value && r.value.seller == seller
                && forall j | i < j < |ledger| :: ledger[j].seller != seller
    ensures r.None? ==> forall i | 0 <= i < |ledger| :: ledger[i].seller != seller
    decreases |ledger|
  {
    if ledger == [] then None
    else if ledger[|ledger| - 1].seller == seller then Some(ledger[|ledger| - 1])
    else
      var prefix := ledger[..|ledger| - 1];
      var r := Latest(prefix, seller);
      if r.Some? then
        var i :| 0 <= i < |prefix| && prefix[i] == r.value && r.value.seller == seller
                 && forall j | i < j < |prefix| :: prefix[j].seller != seller;
        assert ledger[i] == r.value && forall j | i < j < |ledger| :: ledger[j].seller != seller;
        r
      else r
  }

  /** How each measure changes when one row is appended. */
  lemma AppendRow(ledger: seq<Transaction>, row: Transaction, seller: SellerId, credit: int)
    ensures SumFor(ledger + [row], seller) == SumFor(ledger, seller) + (if row.seller == seller then row.amount else 0)
    ensures ChargeSum(ledger + [row], seller)
         == ChargeSum(ledger, seller) + (if row.seller == seller && row.transactionType == ChargeSaleType then row.amount else 0)
    ensures LedgerTotal(ledger + [row]) == LedgerTotal(ledger) + row.amount
    ensures ChargeTotal(ledger + [row]) == ChargeTotal(ledger) + (if row.transactionType == ChargeSaleType then row.amount else 0)
    ensures Reconciles(ledger + [row], seller, credit)
        == if row.seller == seller then row.newCredit == credit && Reconciles(ledger, seller, row.previousCredit)
           else Reconciles(ledger, seller, credit)
    ensures Opening(ledger + [row], seller, credit)
        == if row.seller == seller then Opening(ledger, seller, row.previousCredit) else Opening(ledger, seller, credit)
  {
    assert (ledger + [row])[..|ledger|] == ledger;
  }

  /** A seller without rows reconciles with any credit and sums to zero. */
  lemma {:induction false} NoRowsFor(ledger: seq<Transaction>, seller: SellerId, credit: int)
    requires forall i | 0 <= i < |ledger| :: ledger[i].seller != seller
    ensures Reconciles(ledger, seller, credit)
    ensures SumFor(ledger, seller) == 0 && ChargeSum(ledger, seller) == 0
    ensures Opening(ledger, seller, credit) == credit
    decreases |ledger|
  {
    if ledger != [] {
      NoRowsFor(ledger[..|ledger| - 1], seller, credit);
    }
  }

  /** Replay: starting from the opening credit and adding the seller's row
      amounts in order reproduces the current credit exactly. */
  lemma {:induction false} ReplayReproducesCredit(ledger: seq<Transaction>, seller: SellerId, credit: int)
    requires Balanced(ledger)
    requires Reconciles(ledger, seller, credit)
    ensures credit == Opening(ledger, seller, credit) + SumFor(ledger, seller)
    decreases |ledger|
  {
    if ledger != [] {
      var n := |ledger| - 1;
      var last := ledger[n];
      assert Balanced(ledger[..n]);
      if last.seller == seller {
        ReplayReproducesCredit(ledger[..n], seller, last.previousCredit);
      } else {
        ReplayReproducesCredit(ledger[..n], seller, credit);
      }
    }
  }

  /** The seller's latest row records its current credit as new_credit. */
  lemma {:induction false} LatestIsCurrent(ledger: seq<Transaction>, seller: SellerId, credit: int)
    requires Reconciles(ledger, seller, credit)
    ensures Latest(ledger, seller).Some? ==> Latest(ledger, seller).value.newCredit == credit
    decreases |ledger|
  {
    if ledger != [] && ledger[|ledger| - 1].seller != seller {
      LatestIsCurrent(ledger[..|ledger| - 1], seller, credit);
    }
  }
}
