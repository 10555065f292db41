/** The database the engine works on, the outcomes of an operation, and the
    invariant every committed state satisfies. */
module Store {
  import opened Base
  import opened AccountsModels
  import opened CreditsModels
  import opened ChargeModels
  import opened Ledger
  import opened CreditsSerializers
  import opened ChargeSerializers

  /** The tables: sellers, phone numbers, credit requests, charge sales and the
      ledger (`transactions`). A row's primary key is its position. */
  datatype State = State(
    sellers: seq<Seller>,
    phones: seq<PhoneNumber>,
    requests: seq<CreditRequest>,
    sales: seq<ChargeSale>,
    ledger: seq<Transaction>)

  /** Why an operation was refused; every refusal leaves the state as it was. */
  datatype Error =
    | Invalid             // serializer validation failed
    | NotSeller           // the caller has no seller profile
    | Duplicate           // the operation identifier is already used
    | NotFound            // a row the operation needs does not exist
    | InsufficientCredit  // the seller's credit is below the amount
    | NotPending          // the credit request was already processed
    | BadAction           // the action is neither 'approve' nor 'reject'
    | Fault               // the database refused a write; the block rolled back

  /** `Ok(id)` carries the primary key of the row the operation created or changed. */
  datatype Outcome = Ok(id: nat) | Err(error: Error)

  datatype Step = Step(outcome: Outcome, next: State)

  ghost predicate SellersOk(st: State) {
    && (forall s | 0 <= s < |st.sellers| :: 0 <= st.sellers[s].credit <= MaxMoney)
    && ProfilesUnique(st.sellers)
  }

  ghost predicate PhonesOk(st: State) {
    && (forall p | 0 <= p < |st.phones| ::
          0 <= st.phones[p].currentBalance <= MaxMoney && ValidNumber(st.phones[p].number))
    && NumbersUnique(st.phones)
  }

  ghost predicate RequestOk(r: CreditRequest, sellerCount: nat) {
    r.seller < sellerCount && ValidRequestAmount(r.amount) && ValidReference(r.referenceId)
  }

  ghost predicate RequestsOk(st: State) {
    && (forall i | 0 <= i < |st.requests| :: RequestOk(st.requests[i], |st.sellers|))
    && ReferencesUnique(st.requests)
  }

  ghost predicate SaleOk(c: ChargeSale, sellerCount: nat, phoneCount: nat) {
    && c.seller < sellerCount
    && c.phoneNumber < phoneCount
    && ValidChargeAmount(c.amount)
    && 0 <= c.phoneInitialBalance
    && c.phoneFinalBalance == c.phoneInitialBalance + c.amount <= MaxMoney
    && c.status == SaleSuccessful
  }

  ghost predicate SalesOk(st: State) {
    && (forall k | 0 <= k < |st.sales| :: SaleOk(st.sales[k], |st.sellers|, |st.phones|))
    && UuidsUnique(st.sales)
  }

  /** A ledger row of a seller that exists, recording a non-zero amount and
      two non-negative credits that differ by that amount. */
  ghost predicate RowOk(t: Transaction, sellerCount: nat) {
    && t.seller < sellerCount
    && ValidLedgerAmount(t.amount) && Fits(t.amount)
    && 0 <= t.previousCredit <= MaxMoney
    && 0 <= t.newCredit <= MaxMoney
    && t.newCredit == t.previousCredit + t.amount
    && t.status == Successful
  }

  /** A row's link, when present, names an existing cause of the same seller
      and amount: an approved credit request, or a charge sale of which the
      row records the debit. */
  ghost predicate LinkOk(t: Transaction, requests: seq<CreditRequest>, sales: seq<ChargeSale>) {
    match t.relatedTo
    case None => t.transactionType == CreditIncrease
    case Some(CreditRequestLink(i)) =>
      && t.transactionType == CreditIncrease
      && i < |requests|
      && requests[i].seller == t.seller
      && requests[i].amount == t.amount
      && requests[i].status == Approved
    case Some(ChargeSaleLink(k)) =>
      && t.transactionType == ChargeSaleType
      && k < |sales|
      && sales[k].seller == t.seller
      && sales[k].amount == -t.amount
  }

  ghost predicate LedgerOk(st: State) {
    && (forall i | 0 <= i < |st.ledger| ::
          RowOk(st.ledger[i], |st.sellers|) && LinkOk(st.ledger[i], st.requests, st.sales))
    && KeysUnique(st.ledger)
    && LinksUnique(st.ledger)
  }

  /** Each seller's ledger chain ends at its current credit, and its
      'charge_sale' rows add up to minus the total of its charge sales. */
  ghost predicate Reconciled(st: State) {
    && (forall s | 0 <= s < |st.sellers| :: Reconciles(st.ledger, s, st.sellers[s].credit))
    && (forall s | 0 <= s < |st.sellers| :: ChargeSum(st.ledger, s) == -SalesTotal(st.sales, s))
  }

  ghost predicate Inv(st: State) {
    && SellersOk(st)
    && PhonesOk(st)
    && RequestsOk(st)
    && SalesOk(st)
    && LedgerOk(st)
    && Reconciled(st)
  }

  /** The empty database satisfies the invariant. */
  lemma EmptyInv()
    ensures Inv(State([], [], [], [], []))
  {
  }

  /** What the invariant says about any one seller: its credit is never
      negative, its latest row records it, and replaying its rows from the
      opening credit reproduces it. */
  lemma SellerReconciles(st: State, s: SellerId)
    requires Inv(st)
    requires s < |st.sellers|
    ensures 0 <= st.sellers[s].credit
    ensures st.sellers[s].credit == Opening(st.ledger, s, st.sellers[s].credit) + SumFor(st.ledger, s)
    ensures Latest(st.ledger, s).Some? ==> Latest(st.ledger, s).value.newCredit == st.sellers[s].credit
    ensures ChargeSum(st.ledger, s) == -SalesTotal(st.sales, s)
  {
    assert Balanced(st.ledger) by {
      forall i | 0 <= i < |st.ledger|
        ensures st.ledger[i].newCredit == st.ledger[i].previousCredit + st.ledger[i].amount
      {
        assert RowOk(st.ledger[i], |st.sellers|);
      }
    }
    ReplayReproducesCredit(st.ledger, s, st.sellers[s].credit);
    LatestIsCurrent(st.ledger, s, st.sellers[s].credit);
  }
}
