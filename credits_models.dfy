/** Credit requests and ledger rows (credits/models.py). */
module CreditsModels {
  import opened Base
  import opened AccountsModels

  /** A credit request's primary key: its position in the request table. */
  type RequestId = nat

  /** `reference_id` is a CharField(max_length=255). */
  const MaxReferenceLength: nat := 255

  datatype RequestStatus = Pending | Approved | Rejected

  /** `status` defaults to 'pending'. */
  const DefaultRequestStatus: RequestStatus := Pending

  datatype CreditRequest = CreditRequest(
    referenceId: string,
    seller: SellerId,
    amount: int,
    status: RequestStatus,
    createdAt: Time,
    processedAt: Option<Time>)

  datatype TransactionType = CreditIncrease | ChargeSaleType

  datatype TransactionStatus = Processing | Successful | Failed

  /** The optional generic link (`content_type`, `object_id`) to the row that
      caused a ledger entry, as a tagged variant. */
  datatype Link = CreditRequestLink(request: RequestId) | ChargeSaleLink(sale: nat)

  /** One ledger row (the `Transaction` model). */
  datatype Transaction = Transaction(
    idempotencyKey: string,
    seller: SellerId,
    amount: int,
    transactionType: TransactionType,
    previousCredit: int,
    newCredit: int,
    description: string,
    status: TransactionStatus,
    relatedTo: Option<Link>,
    createdAt: Time,
    completedAt: Option<Time>)

  predicate ReferenceTaken(requests: seq<CreditRequest>, reference: string) {
    exists i | 0 <= i < |requests| :: requests[i].referenceId == reference
  }

  /** `reference_id` is unique. */
  ghost predicate ReferencesUnique(requests: seq<CreditRequest>) {
    forall i, j | 0 <= i < j < |requests| :: requests[i].referenceId != requests[j].referenceId
  }

  predicate KeyTaken(ledger: seq<Transaction>, key: string) {
    exists i | 0 <= i < |ledger| :: ledger[i].idempotencyKey == key
  }

  /** `idempotency_key` is a CharField(max_length=255). */
  const MaxKeyLength: nat := 255

  /** The database refuses a new ledger row keyed `key`: the key is taken, or
      it is longer than its column. */
  predicate KeyRefused(ledger: seq<Transaction>, key: string) {
    KeyTaken(ledger, key) || |key| > MaxKeyLength
  }

  /** `idempotency_key` is unique. */
  ghost predicate KeysUnique(ledger: seq<Transaction>) {
    forall i, j | 0 <= i < j < |ledger| :: ledger[i].idempotencyKey != ledger[j].idempotencyKey
  }

  /** No two ledger rows point at the same cause. */
  ghost predicate LinksUnique(ledger: seq<Transaction>) {
    forall i, j | 0 <= i < j < |ledger| :: ledger[i].relatedTo.Some? ==> ledger[i].relatedTo != ledger[j].relatedTo
  }
}
