/** The charge-sale endpoint (ChargeSaleViewSet.create in charge/views.py):
    debit a seller's credit and credit a phone number's balance, once per
    transaction UUID. */
module ChargeViews {
  import opened Base
  import opened AccountsModels
  import opened CreditsModels
  import opened ChargeModels
  import opened Ledger
  import opened ChargeSerializers
  import opened Store

  /** The ledger key of a sale's row: `charge_sale_<uuid>_<suffix>`, where the
      suffix part is the random UUID the view draws. */
  function ChargeKey(uuid: string, suffix: string): string {
    "charge_sale_" + uuid + "_" + suffix
  }

  /** `next` is `st` after a committed sale of `amount` by `seller` to
      `phone` at `now`: the seller had enough credit and lost `amount`, the
      phone gained it, no other seller or phone changed, one successful
      ChargeSale and one 'charge_sale' ledger row linked to it were appended,
      and nothing else changed. */
  ghost predicate Charged(st: State, next: State, seller: SellerId, phone: PhoneId, amount: int, uuid: string, now: Time) {
    && seller < |st.sellers| && phone < |st.phones|
    && amount <= st.sellers[seller].credit
    && |next.sellers| == |st.sellers|
    && next.sellers[seller] == st.sellers[seller].(credit := st.sellers[seller].credit - amount)
    && (forall s | 0 <= s < |st.sellers| && s != seller :: next.sellers[s] == st.sellers[s])
    && |next.phones| == |st.phones|
    && next.phones[phone].number == st.phones[phone].number
    && next.phones[phone].currentBalance == st.phones[phone].currentBalance + amount
    && next.phones[phone].lastChargeDate == Some(now)
    && (forall p | 0 <= p < |st.phones| && p != phone :: next.phones[p] == st.phones[p])
    && next.requests == st.requests
    && next.sales == st.sales + [ChargeSale(uuid, seller, phone, amount, st.phones[phone].currentBalance,
                                            st.phones[phone].currentBalance + amount, SaleSuccessful, "", now)]
    && |next.ledger| == |st.ledger| + 1
    && next.ledger[..|st.ledger|] == st.ledger
    && var row := next.ledger[|st.ledger|];
       && row.seller == seller
       && row.amount == -amount
       && row.transactionType == ChargeSaleType
       && row.previousCredit == st.sellers[seller].credit
       && row.newCredit == next.sellers[seller].credit
       && row.status == Successful
       && row.relatedTo == Some(ChargeSaleLink(|st.sales|))
  }

  /** The database refuses the sale's writes: the ledger key is taken or
      longer than its column, or the amount, the new credit or the new
      balance is wider than its column. */
  predicate WriteRefused(st: State, seller: SellerId, phone: PhoneId, amount: int, uuid: string, suffix: string)
    requires seller < |st.sellers| && phone < |st.phones|
  {
    || KeyRefused(st.ledger, ChargeKey(uuid, suffix))
    || !Fits(amount)
    || !Fits(st.sellers[seller].credit - amount)
    || !Fits(st.phones[phone].currentBalance + amount)
  }

  /** The `transaction.atomic()` block, run on the rows as they are once
      locked: re-check the UUID, check the credit, then write the sale, the
      ledger row, the seller and the phone together. A write the database
      refuses (a taken ledger key, a value wider than the column) aborts the
      block and nothing is written. */
  function ChargeLocked(st: State, seller: SellerId, phone: PhoneId, amount: int, uuid: string, suffix: string, now: Time): (r: Step)
    ensures r.outcome.Err? ==> r.next == st
    ensures r.outcome.Err? ==> r.outcome.error in {NotFound, Duplicate, InsufficientCredit, Fault}
    ensures r.outcome == Err(NotFound) <==> phone >= |st.phones| || seller >= |st.sellers|
    ensures r.outcome == Err(Duplicate) <==> phone < |st.phones| && seller < |st.sellers| && UuidTaken(st.sales, uuid)
    ensures r.outcome == Err(InsufficientCredit)
        <==> phone < |st.phones| && seller < |st.sellers| && !UuidTaken(st.sales, uuid) && st.sellers[seller].credit < amount
    ensures r.outcome == Err(Fault)
        <==> && phone < |st.phones| && seller < |st.sellers| && !UuidTaken(st.sales, uuid) && amount <= st.sellers[seller].credit
             && WriteRefused(st, seller, phone, amount, uuid, suffix)
    ensures r.outcome.Ok? ==> r.outcome.id == |st.sales| && Charged(st, r.next, seller, phone, amount, uuid, now)
    ensures r.outcome.Ok? ==> !UuidTaken(st.sales, uuid) && !KeyRefused(st.ledger, ChargeKey(uuid, suffix))
    ensures r.outcome.Ok? ==> Fits(amount) && st.phones[phone].currentBalance + amount <= MaxMoney
    ensures r.outcome.Ok? ==> r.next.ledger[|st.ledger|].idempotencyKey == ChargeKey(uuid, suffix)
  {
    if phone >= |st.phones| then Step(Err(NotFound), st)
    else if seller >= |st.sellers| then Step(Err(NotFound), st)
    else if UuidTaken(st.sales, uuid) then Step(Err(Duplicate), st)
    else
      var account := st.sellers[seller];
      var target := st.phones[phone];
      if account.credit < amount then Step(Err(InsufficientCredit), st)
      else
        var previousCredit := account.credit;
        var initialBalance := target.currentBalance;
        var newCredit := previousCredit - amount;
        var finalBalance := initialBalance + amount;
        var key := ChargeKey(uuid, suffix);
        if WriteRefused(st, seller, phone, amount, uuid, suffix) then Step(Err(Fault), st)
        else
          var sale := ChargeSale(uuid, seller, phone, amount, initialBalance, finalBalance, SaleSuccessful, "", now);
          var row := Transaction(key, seller, -amount, ChargeSaleType, previousCredit, newCredit,
                                 "Charge sale for phone " + target.number, Successful,
                                 Some(ChargeSaleLink(|st.sales|)), now, Some(now));
          Step(Ok(|st.sales|), st.(
            sales := st.sales + [sale],
            ledger := st.ledger + [row],
            sellers := st.sellers[seller := account.(credit := newCredit)],
            phones := st.phones[phone := target.(currentBalance := finalBalance, lastChargeDate := Some(now))]))
  }

  /** The whole endpoint. The serializer trims the UUID and refuses a bad
      amount, a missing phone and a blank, over-long or already used UUID;
      then the caller's seller profile is read, and the atomic block runs. */
  function Charge(st: State, user: UserId, phone: PhoneId, amount: int, uuid: string, suffix: string, now: Time): (r: Step)
    ensures r.outcome.Err? ==> r.next == st
    ensures r.outcome.Err? ==> r.outcome.error in {Invalid, Duplicate, NotSeller, InsufficientCredit, Fault}
    ensures r.outcome == Err(Invalid) <==> !ValidChargeAmount(amount) || phone >= |st.phones| || !ValidUuid(Trim(uuid))
    ensures r.outcome == Err(Duplicate)
        <==> ValidChargeAmount(amount) && phone < |st.phones| && ValidUuid(Trim(uuid)) && UuidTaken(st.sales, Trim(uuid))
    ensures r.outcome == Err(NotSeller)
        <==> && ValidChargeAmount(amount) && phone < |st.phones| && ValidUuid(Trim(uuid)) && !UuidTaken(st.sales, Trim(uuid))
             && ProfileOf(st.sellers, user).None?
    ensures r.outcome == Err(InsufficientCredit)
        <==> && ValidChargeAmount(amount) && phone < |st.phones| && ValidUuid(Trim(uuid)) && !UuidTaken(st.sales, Trim(uuid))
             && ProfileOf(st.sellers, user).Some? && st.sellers[ProfileOf(st.sellers, user).value].credit < amount
    ensures r.outcome == Err(Fault)
        <==> && ValidChargeAmount(amount) && phone < |st.phones| && ValidUuid(Trim(uuid)) && !UuidTaken(st.sales, Trim(uuid))
             && ProfileOf(st.sellers, user).Some?
             && var seller := ProfileOf(st.sellers, user).value;
                amount <= st.sellers[seller].credit && WriteRefused(st, seller, phone, amount, Trim(uuid), suffix)
    ensures r.outcome.Ok? ==>
              && ValidChargeAmount(amount)
              && ProfileOf(st.sellers, user).Some?
              && Charged(st, r.next, ProfileOf(st.sellers, user).value, phone, amount, Trim(uuid), now)
    ensures r.outcome.Ok? ==> r == ChargeLocked(st, ProfileOf(st.sellers, user).value, phone, amount, Trim(uuid), suffix, now)
  {
    var transactionUuid := Trim(uuid);
    if !ValidChargeAmount(amount) || phone >= |st.phones| || !ValidUuid(transactionUuid) then Step(Err(Invalid), st)
    else if UuidTaken(st.sales, transactionUuid) then Step(Err(Duplicate), st)
    else
      match ProfileOf(st.sellers, user)
      case None => Step(Err(NotSeller), st)
      case Some(seller) => ChargeLocked(st, seller, phone, amount, transactionUuid, suffix, now)
  }

  /** Once the serializer and the profile lookup pass for an already
      trimmed UUID, the endpoint is its atomic block. */
  lemma ChargeReachesBlock(st: State, user: UserId, phone: PhoneId, amount: int, uuid: string, suffix: string, now: Time)
    requires ValidChargeAmount(amount) && phone < |st.phones|
    requires ValidUuid(uuid) && Trimmed(uuid) && !UuidTaken(st.sales, uuid)
    requires ProfileOf(st.sellers, user).Some?
    ensures Charge(st, user, phone, amount, uuid, suffix, now)
         == ChargeLocked(st, ProfileOf(st.sellers, user).value, phone, amount, uuid, suffix, now)
  {
    TrimmedFixed(uuid);
  }

  /** A sale whose serializer checks and profile lookup pass is refused,
      changing nothing, when the seller's credit is below the amount. */
  lemma ChargeRefusedForCredit(st: State, user: UserId, phone: PhoneId, amount: int, uuid: string, suffix: string, now: Time)
    requires ValidChargeAmount(amount) && phone < |st.phones|
    requires ValidUuid(uuid) && Trimmed(uuid) && !UuidTaken(st.sales, uuid)
    requires ProfileOf(st.sellers, user).Some? && st.sellers[ProfileOf(st.sellers, user).value].credit < amount
    ensures Charge(st, user, phone, amount, uuid, suffix, now) == Step(Err(InsufficientCredit), st)
  {
    ChargeReachesBlock(st, user, phone, amount, uuid, suffix, now);
  }

  /** A committed sale keeps the invariant. */
  lemma ChargedPreservesInv(st: State, next: State, seller: SellerId, phone: PhoneId, amount: int, uuid: string, now: Time)
    requires Inv(st)
    requires Charged(st, next, seller, phone, amount, uuid, now)
    requires ValidChargeAmount(amount)
    requires !UuidTaken(st.sales, uuid)
    requires !KeyRefused(st.ledger, next.ledger[|st.ledger|].idempotencyKey)
    requires st.phones[phone].currentBalance + amount <= MaxMoney
    ensures Inv(next)
  {
    var row := next.ledger[|st.ledger|];
    assert next.ledger == st.ledger + [row];
    var sale := next.sales[|st.sales|];
    // Sellers: only the charged one changed, and it kept its user.
    assert SellersOk(next) by {
      forall i, j | 0 <= i < j < |next.sellers| ensures next.sellers[i].user != next.sellers[j].user {
        assert next.sellers[i].user == st.sellers[i].user && next.sellers[j].user == st.sellers[j].user;
      }
    }
    assert PhonesOk(next) by {
      forall i, j | 0 <= i < j < |next.phones| ensures next.phones[i].number != next.phones[j].number {
        assert next.phones[i].number == st.phones[i].number && next.phones[j].number == st.phones[j].number;
      }
    }
    assert RequestsOk(next);
    assert SalesOk(next) by {
      forall k | 0 <= k < |next.sales| ensures SaleOk(next.sales[k], |next.sellers|, |next.phones|) {
        if k < |st.sales| { assert next.sales[k] == st.sales[k]; }
      }
      forall i, j | 0 <= i < j < |next.sales| ensures next.sales[i].transactionUuid != next.sales[j].transactionUuid {
        if j == |st.sales| {
          assert next.sales[i] == st.sales[i];
        }
      }
    }
    assert LedgerOk(next) by {
      forall i | 0 <= i < |next.ledger|
        ensures RowOk(next.ledger[i], |next.sellers|) && LinkOk(next.ledger[i], next.requests, next.sales)
      {
        if i < |st.ledger| {
          assert next.ledger[i] == st.ledger[i];
          assert RowOk(st.ledger[i], |st.sellers|) && LinkOk(st.ledger[i], st.requests, st.sales);
          match st.ledger[i].relatedTo
          case None =>
          case Some(CreditRequestLink(_)) =>
          case Some(ChargeSaleLink(k)) => assert next.sales[k] == st.sales[k];
        }
      }
      forall i, j | 0 <= i < j < |next.ledger|
        ensures next.ledger[i].idempotencyKey != next.ledger[j].idempotencyKey
        ensures next.ledger[i].relatedTo.Some? ==> next.ledger[i].relatedTo != next.ledger[j].relatedTo
      {
        if j == |st.ledger| {
          assert next.ledger[i] == st.ledger[i];
          assert LinkOk(st.ledger[i], st.requests, st.sales);
        }
      }
    }
    assert Reconciled(next) by {
      forall s | 0 <= s < |next.sellers|
        ensures Reconciles(next.ledger, s, next.sellers[s].credit)
        ensures ChargeSum(next.ledger, s) == -SalesTotal(next.sales, s)
      {
        AppendRow(st.ledger, row, s, next.sellers[s].credit);
        SalesAppend(st.sales, sale, s);
      }
    }
  }

  /** The endpoint keeps the invariant, whatever its outcome. */
  lemma ChargePreservesInv(st: State, user: UserId, phone: PhoneId, amount: int, uuid: string, suffix: string, now: Time)
    requires Inv(st)
    ensures Inv(Charge(st, user, phone, amount, uuid, suffix, now).next)
  {
    var r := Charge(st, user, phone, amount, uuid, suffix, now);
    if r.outcome.Ok? {
      var seller := ProfileOf(st.sellers, user).value;
      ChargedPreservesInv(st, r.next, seller, phone, amount, Trim(uuid), now);
    }
  }

  /** Retrying a committed sale with the same UUID is refused as a duplicate
      and changes nothing, so a sale is applied at most once per UUID. */
  lemma ChargeRetryIsDuplicate(st: State, user: UserId, phone: PhoneId, amount: int, uuid: string, suffix: string, suffix': string, now: Time, now': Time)
    requires Charge(st, user, phone, amount, uuid, suffix, now).outcome.Ok?
    ensures var next := Charge(st, user, phone, amount, uuid, suffix, now).next;
            Charge(next, user, phone, amount, uuid, suffix', now') == Step(Err(Duplicate), next)
  {
    var next := Charge(st, user, phone, amount, uuid, suffix, now).next;
    var seller := ProfileOf(st.sellers, user).value;
    assert next.sellers[seller].user == user;
    assert next.sales[|st.sales|].transactionUuid == Trim(uuid);
  }

  /** The endpoint sees the UUID only once trimmed. */
  lemma ChargeSeesTrimmed(st: State, user: UserId, phone: PhoneId, amount: int, uuid: string, uuid': string, suffix: string, now: Time)
    requires Trim(uuid) == Trim(uuid')
    ensures Charge(st, user, phone, amount, uuid, suffix, now) == Charge(st, user, phone, amount, uuid', suffix, now)
  {
  }

  /** A client that resends the UUID as the committed sale stored it (the
      trimmed one) is refused as a duplicate too, and nothing changes. */
  lemma ChargeResendIsDuplicate(st: State, user: UserId, phone: PhoneId, amount: int, uuid: string, suffix: string, suffix': string, now: Time, now': Time)
    requires Charge(st, user, phone, amount, uuid, suffix, now).outcome.Ok?
    ensures var next := Charge(st, user, phone, amount, uuid, suffix, now).next;
            Charge(next, user, phone, amount, next.sales[|st.sales|].transactionUuid, suffix', now') == Step(Err(Duplicate), next)
  {
    var next := Charge(st, user, phone, amount, uuid, suffix, now).next;
    var stored := next.sales[|st.sales|].transactionUuid;
    assert stored == Trim(uuid);
    TrimIdempotent(uuid);
    ChargeRetryIsDuplicate(st, user, phone, amount, uuid, suffix, suffix', now, now');
    ChargeSeesTrimmed(next, user, phone, amount, stored, uuid, suffix', now');
  }

  /** The ledger key is 13 characters longer than the UUID and the suffix
      together. With the 36-character random suffix, a UUID of more than 206
      characters, which the serializer accepts, makes a key wider than the
      255-character column: a sale that passes every other check then fails
      and writes nothing. */
  lemma LongUuidFaults(st: State, user: UserId, phone: PhoneId, amount: int, uuid: string, suffix: string, now: Time)
    requires ValidChargeAmount(amount) && phone < |st.phones|
    requires ValidUuid(Trim(uuid)) && !UuidTaken(st.sales, Trim(uuid))
    requires ProfileOf(st.sellers, user).Some? && amount <= st.sellers[ProfileOf(st.sellers, user).value].credit
    requires |Trim(uuid)| + |suffix| > MaxKeyLength - 13
    ensures Charge(st, user, phone, amount, uuid, suffix, now) == Step(Err(Fault), st)
  {
    assert |ChargeKey(Trim(uuid), suffix)| == 13 + |Trim(uuid)| + |suffix|;
  }

  /** A committed sale moves exactly `amount` from seller credit to phone
      balance: the total of all credits falls by it, the total of all phone
      balances rises by it, and so does the total of all 'charge_sale' rows
      fall by it. */
  lemma ChargeConserves(st: State, user: UserId, phone: PhoneId, amount: int, uuid: string, suffix: string, now: Time)
    requires Charge(st, user, phone, amount, uuid, suffix, now).outcome.Ok?
    ensures var next := Charge(st, user, phone, amount, uuid, suffix, now).next;
            && TotalCredit(next.sellers) == TotalCredit(st.sellers) - amount
            && TotalBalance(next.phones) == TotalBalance(st.phones) + amount
            && LedgerTotal(next.ledger) == LedgerTotal(st.ledger) - amount
            && ChargeTotal(next.ledger) == ChargeTotal(st.ledger) - amount
  {
    var next := Charge(st, user, phone, amount, uuid, suffix, now).next;
    var seller := ProfileOf(st.sellers, user).value;
    assert next.sellers == st.sellers[seller := next.sellers[seller]];
    TotalCreditUpdate(st.sellers, seller, next.sellers[seller]);
    assert next.phones == st.phones[phone := next.phones[phone]];
    TotalBalanceUpdate(st.phones, phone, next.phones[phone]);
    var row := next.ledger[|st.ledger|];
    assert next.ledger == st.ledger + [row];
    AppendRow(st.ledger, row, seller, 0);
  }
}
