/** Phone numbers and charge sales (charge/models.py). */
module ChargeModels {
  import opened Base
  import opened AccountsModels

  /** A phone number's primary key: its position in the phone table. */
  type PhoneId = nat

  /** `number` is a CharField(max_length=20). */
  const MaxNumberLength: nat := 20

  /** `current_balance` defaults to 0 and `last_charge_date` is empty until the
      first charge. */
  datatype PhoneNumber = PhoneNumber(number: string, currentBalance: int, lastChargeDate: Option<Time>)

  /** `transaction_uuid` is a CharField(max_length=255). */
  const MaxUuidLength: nat := 255

  datatype SaleStatus = SaleSuccessful | SaleFailed

  datatype ChargeSale = ChargeSale(
    transactionUuid: string,
    seller: SellerId,
    phoneNumber: PhoneId,
    amount: int,
    phoneInitialBalance: int,
    phoneFinalBalance: int,
    status: SaleStatus,
    statusMessage: string,
    createdAt: Time)

  /** `ChargeSale.objects.filter(transaction_uuid=...).exists()` */
  predicate UuidTaken(sales: seq<ChargeSale>, uuid: string) {
    exists k | 0 <= k < |sales| :: sales[k].transactionUuid == uuid
  }

  /** `transaction_uuid` is unique. */
  ghost predicate UuidsUnique(sales: seq<ChargeSale>) {
    forall i, j | 0 <= i < j < |sales| :: sales[i].transactionUuid != sales[j].transactionUuid
  }

  predicate NumberTaken(phones: seq<PhoneNumber>, number: string) {
    exists p | 0 <= p < |phones| :: phones[p].number == number
  }

  /** `number` is unique. */
  ghost predicate NumbersUnique(phones: seq<PhoneNumber>) {
    forall i, j | 0 <= i < j < |phones| :: phones[i].number != phones[j].number
  }

  /** Total amount of one seller's charge sales. */
  function SalesTotal(sales: seq<ChargeSale>, seller: SellerId): int
    decreases |sales|
  {
    if sales == [] then 0
    else
      var last := sales[|sales| - 1];
      SalesTotal(sales[..|sales| - 1], seller) + (if last.seller == seller then last.amount else 0)
  }

  /** Number of one seller's charge sales. */
  function SalesCount(sales: seq<ChargeSale>, seller: SellerId): nat
    decreases |sales|
  {
    if sales == [] then 0
    else
      var last := sales[|sales| - 1];
      SalesCount(sales[..|sales| - 1], seller) + (if last.seller == seller then 1 else 0)
  }

  lemma SalesAppend(sales: seq<ChargeSale>, c: ChargeSale, seller: SellerId)
    ensures SalesTotal(sales + [c], seller) == SalesTotal(sales, seller) + (if c.seller == seller then c.amount else 0)
    ensures SalesCount(sales + [c], seller) == SalesCount(sales, seller) + (if c.seller == seller then 1 else 0)
  {
    assert (sales + [c])[..|sales|] == sales;
  }

  /** When every sale of a seller is for the same amount, their total is
      that amount times their number. */
  lemma {:induction false} SalesTotalUniform(sales: seq<ChargeSale>, seller: SellerId, amount: int)
    requires forall k | 0 <= k < |sales| && sales[k].seller == seller :: sales[k].amount == amount
    ensures SalesTotal(sales, seller) == SalesCount(sales, seller) * amount
    decreases |sales|
  {
    if sales != [] {
      var n := |sales| - 1;
      SalesTotalUniform(sales[..n], seller, amount);
      if sales[n].seller == seller {
        calc {
          SalesTotal(sales, seller);
          SalesCount(sales[..n], seller) * amount + amount;
          (SalesCount(sales[..n], seller) + 1) * amount;
        }
      }
    }
  }

  /** A seller without sales has a zero sales total. */
  lemma {:induction false} NoSalesFor(sales: seq<ChargeSale>, seller: SellerId)
    requires forall k | 0 <= k < |sales| :: sales[k].seller != seller
    ensures SalesTotal(sales, seller) == 0
    decreases |sales|
  {
    if sales != [] {
      NoSalesFor(sales[..|sales| - 1], seller);
    }
  }

  /** Sum of all phone balances. */
  function TotalBalance(phones: seq<PhoneNumber>): int
    decreases |phones|
  {
    if phones == [] then 0
    else TotalBalance(phones[..|phones| - 1]) + phones[|phones| - 1].currentBalance
  }

  lemma {:induction false} TotalBalanceUpdate(phones: seq<PhoneNumber>, i: nat, p: PhoneNumber)
    requires i < |phones|
    ensures TotalBalance(phones[i := p]) == TotalBalance(phones) - phones[i].currentBalance + p.currentBalance
    decreases |phones|
  {
    var n := |phones| - 1;
    if i < n {
      assert phones[i := p][..n] == phones[..n][i := p];
      TotalBalanceUpdate(phones[..n], i, p);
    } else {
      assert phones[i := p][..n] == phones[..n];
    }
  }

  lemma TotalBalanceAppend(phones: seq<PhoneNumber>, p: PhoneNumber)
    ensures TotalBalance(phones + [p]) == TotalBalance(phones) + p.currentBalance
  {
    assert (phones + [p])[..|phones|] == phones;
  }
}
