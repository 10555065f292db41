/** The engine as the views run it: one database whose tables the
    operations update in place, each operation first doing the checks the
    view makes outside its transaction and then running its
    `transaction.atomic()` block, which either commits every write or
    returns before making any. Each operation is proved to do exactly what
    its specification function says, so everything proved about those
    functions holds of the database. */
module Engine {
  import opened Base
  import opened AccountsModels
  import opened CreditsModels
  import opened ChargeModels
  import opened ChargeSerializers
  import opened CreditsSerializers
  import opened Store
  import Records
  import ChargeViews
  import CreditsViews
  import LegacyCreditsViews

  class Database {
    var sellers: seq<Seller>
    var phones: seq<PhoneNumber>
    var requests: seq<CreditRequest>
    var sales: seq<ChargeSale>
    var ledger: seq<Transaction>

    /** The tables as one value. */
    function Snapshot(): State
      reads this
    {
      State(sellers, phones, requests, sales, ledger)
    }

    ghost predicate Valid()
      reads this
    {
      Inv(Snapshot())
    }

    /** An empty database. */
    constructor()
      ensures Snapshot() == State([], [], [], [], [])
      ensures Valid()
    {
      sellers, phones, requests, sales, ledger := [], [], [], [], [];
      EmptyInv();
    }

    /** Creating the seller profile of `user`. */
    method CreateSellerProfile(user: UserId) returns (out: Outcome)
      requires Valid()
      modifies this
      ensures Valid()
      ensures Step(out, Snapshot()) == Records.CreateSellerProfile(old(Snapshot()), user)
    {
      Records.CreateSellerProfilePreservesInv(Snapshot(), user);
      if ProfileOf(sellers, user).Some? {
        return Err(Duplicate);
      }
      sellers := sellers + [Seller(user, DefaultCredit)];
      out := Ok(|sellers| - 1);
    }

    /** Creating a phone number. */
    method RegisterPhoneNumber(number: string) returns (out: Outcome)
      requires Valid()
      modifies this
      ensures Valid()
      ensures Step(out, Snapshot()) == Records.RegisterPhoneNumber(old(Snapshot()), number)
    {
      Records.RegisterPhoneNumberPreservesInv(Snapshot(), number);
      var value := Trim(number);
      if !ValidNumber(value) {
        return Err(Invalid);
      }
      if NumberTaken(phones, value) {
        return Err(Duplicate);
      }
      phones := phones + [PhoneNumber(value, 0, None)];
      out := Ok(|phones| - 1);
    }

    /** A seller's new credit request. */
    method SubmitCreditRequest(user: UserId, reference: string, amount: int, now: Time) returns (out: Outcome)
      requires Valid()
      modifies this
      ensures Valid()
      ensures Step(out, Snapshot()) == Records.SubmitCreditRequest(old(Snapshot()), user, reference, amount, now)
    {
      Records.SubmitCreditRequestPreservesInv(Snapshot(), user, reference, amount, now);
      var referenceId := Trim(reference);
      if !ValidRequestAmount(amount) || !ValidReference(referenceId) {
        return Err(Invalid);
      }
      if ReferenceTaken(requests, referenceId) {
        return Err(Duplicate);
      }
      var profile := ProfileOf(sellers, user);
      if profile.None? {
        return Err(NotSeller);
      }
      requests := requests + [CreditRequest(referenceId, profile.value, amount, DefaultRequestStatus, now, None)];
      out := Ok(|requests| - 1);
    }

    /** An administrator's edit of request `id`. */
    method UpdateCreditRequest(id: RequestId, status: RequestStatus, processedAt: Option<Time>) returns (out: Outcome)
      requires Valid()
      modifies this
      ensures Valid()
      ensures Step(out, Snapshot()) == Records.UpdateCreditRequest(old(Snapshot()), id, status, processedAt)
    {
      Records.UpdateCreditRequestPreservesInv(Snapshot(), id, status, processedAt);
      if id >= |requests| {
        return Err(NotFound);
      }
      if !ValidStatusChange(requests[id].status, status) {
        return Err(Invalid);
      }
      var request := requests[id];
      request := request.(status := status);
      request := request.(processedAt := processedAt);
      requests := requests[id := request];
      out := Ok(id);
    }

    /** The charge-sale endpoint. */
    method CreateChargeSale(user: UserId, phone: PhoneId, amount: int, uuid: string, suffix: string, now: Time)
      returns (out: Outcome)
      requires Valid()
      modifies this
      ensures Valid()
      ensures Step(out, Snapshot()) == ChargeViews.Charge(old(Snapshot()), user, phone, amount, uuid, suffix, now)
    {
      ChargeViews.ChargePreservesInv(Snapshot(), user, phone, amount, uuid, suffix, now);
      var transactionUuid := Trim(uuid);
      if !ValidChargeAmount(amount) || phone >= |phones| || !ValidUuid(transactionUuid) {
        return Err(Invalid);
      }
      if UuidTaken(sales, transactionUuid) {
        return Err(Duplicate);
      }
      var profile := ProfileOf(sellers, user);
      if profile.None? {
        return Err(NotSeller);
      }
      out := ChargeAtomically(profile.value, phone, amount, transactionUuid, suffix, now);
    }

    /** The sale's atomic block: lock the phone and the seller, re-check the
        UUID and the credit, then write the sale, the ledger row, the seller
        and the phone. */
    method ChargeAtomically(seller: SellerId, phone: PhoneId, amount: int, uuid: string, suffix: string, now: Time)
      returns (out: Outcome)
      modifies this
      ensures Step(out, Snapshot()) == ChargeViews.ChargeLocked(old(Snapshot()), seller, phone, amount, uuid, suffix, now)
    {
      if phone >= |phones| || seller >= |sellers| {
        return Err(NotFound);
      }
      if UuidTaken(sales, uuid) {
        return Err(Duplicate);
      }
      var account := sellers[seller];
      var target := phones[phone];
      if account.credit < amount {
        return Err(InsufficientCredit);
      }
      var previousCredit := account.credit;
      var initialBalance := target.currentBalance;
      account := account.(credit := account.credit - amount);
      target := target.(currentBalance := target.currentBalance + amount, lastChargeDate := Some(now));
      var key := ChargeViews.ChargeKey(uuid, suffix);
      // The database refuses a duplicate key or a value wider than its column.
      if KeyRefused(ledger, key) || !Fits(amount) || !Fits(account.credit) || !Fits(target.currentBalance) {
        return Err(Fault);
      }
      var sale := ChargeSale(uuid, seller, phone, amount, initialBalance, target.currentBalance, SaleSuccessful, "", now);
      var saleId := |sales|;
      sales := sales + [sale];
      var row := Transaction(key, seller, -amount, ChargeSaleType, previousCredit, account.credit,
                             "Charge sale for phone " + target.number, Successful,
                             Some(ChargeSaleLink(saleId)), now, Some(now));
      ledger := ledger + [row];
      sellers := sellers[seller := account];
      phones := phones[phone := target];
      out := Ok(saleId);
    }

    /** Processing credit request `id` (the variant with row locks), with the
        approval's ledger row keyed `key`. */
    method ProcessCreditRequestWithKey(id: RequestId, action: string, key: string, now: Time) returns (out: Outcome)
      requires Valid()
      modifies this
      ensures Valid()
      ensures Step(out, Snapshot()) == CreditsViews.ProcessWithKey(old(Snapshot()), id, action, key, now)
    {
      CreditsViews.ProcessPreservesInv(Snapshot(), id, action, key, now);
      if id >= |requests| {
        return Err(NotFound);
      }
      var actionType := Lower(action);
      if requests[id].status != Pending {
        return Err(NotPending);
      }
      if actionType != "approve" && actionType != "reject" {
        return Err(BadAction);
      }
      out := ProcessAtomically(id, actionType == "approve", key, now);
    }

    /** The locked variant as written: the approval's ledger row is created
        without a key of its own. */
    method ProcessCreditRequestAsWritten(id: RequestId, action: string, now: Time) returns (out: Outcome)
      requires Valid()
      modifies this
      ensures Valid()
      ensures Step(out, Snapshot()) == CreditsViews.ProcessAsWritten(old(Snapshot()), id, action, now)
    {
      out := ProcessCreditRequestWithKey(id, action, CreditsViews.OmittedKey, now);
    }

    /** The locked variant as intended: the approval's ledger row is keyed
        `credit_request_<id>_<suffix>`. */
    method ProcessCreditRequest(id: RequestId, action: string, suffix: string, now: Time) returns (out: Outcome)
      requires Valid()
      modifies this
      ensures Valid()
      ensures Step(out, Snapshot()) == CreditsViews.Process(old(Snapshot()), id, action, suffix, now)
    {
      out := ProcessCreditRequestWithKey(id, action, CreditsViews.CreditRequestKey(id, suffix), now);
    }

    /** The processing atomic block: lock the request, re-check that it is
        pending, lock its seller, then approve or reject. */
    method ProcessAtomically(id: RequestId, approve: bool, key: string, now: Time) returns (out: Outcome)
      modifies this
      ensures Step(out, Snapshot()) == CreditsViews.ProcessLocked(old(Snapshot()), id, approve, key, now)
    {
      if id >= |requests| {
        return Err(NotFound);
      }
      var request := requests[id];
      if request.status != Pending {
        return Err(NotPending);
      }
      if request.seller >= |sellers| {
        return Err(NotFound);
      }
      var account := sellers[request.seller];
      if approve {
        var previousCredit := account.credit;
        var newCredit := previousCredit + request.amount;
        // The database refuses a duplicate key or a value wider than its column.
        if KeyRefused(ledger, key) || !Fits(request.amount) || !Fits(newCredit) {
          return Err(Fault);
        }
        request := request.(status := Approved, processedAt := Some(now));
        requests := requests[id := request];
        out := Ok(|ledger|);
        ledger := ledger + [Transaction(key, request.seller, request.amount, CreditIncrease, previousCredit, newCredit,
                                        "Credit increase from request " + request.referenceId, Successful,
                                        Some(CreditRequestLink(id)), now, Some(now))];
        sellers := sellers[request.seller := account.(credit := newCredit)];
      } else {
        request := request.(status := Rejected, processedAt := Some(now));
        requests := requests[id := request];
        out := Ok(id);
      }
    }

    /** Processing credit request `id` in the older variant: one pending
        check, then the ledger row, the seller's credit and the request's
        status, all in one block. */
    method ProcessCreditRequestLegacy(id: RequestId, action: string, suffix: string, now: Time) returns (out: Outcome)
      requires Valid()
      modifies this
      ensures Valid()
      ensures Step(out, Snapshot()) == LegacyCreditsViews.ProcessLegacy(old(Snapshot()), id, action, suffix, now)
    {
      LegacyCreditsViews.ProcessLegacyPreservesInv(Snapshot(), id, action, suffix, now);
      if id >= |requests| {
        return Err(NotFound);
      }
      var request := requests[id];
      var actionType := Lower(action);
      if request.status != Pending {
        return Err(NotPending);
      }
      if actionType != "approve" && actionType != "reject" {
        return Err(BadAction);
      }
      if actionType == "approve" {
        var key := CreditsViews.CreditRequestKey(id, suffix);
        if request.seller >= |sellers| {
          return Err(Fault);
        }
        var account := sellers[request.seller];
        var previousCredit := account.credit;
        var newCredit := previousCredit + request.amount;
        // The database refuses a duplicate key or a value wider than its column.
        if KeyRefused(ledger, key) || !Fits(request.amount) || !Fits(newCredit) {
          return Err(Fault);
        }
        out := Ok(|ledger|);
        ledger := ledger + [Transaction(key, request.seller, request.amount, CreditIncrease, previousCredit, newCredit,
                                        "Credit increase from request " + request.referenceId, Successful,
                                        None, now, Some(now))];
        sellers := sellers[request.seller := account.(credit := newCredit)];
        request := request.(status := Approved, processedAt := Some(now));
      } else {
        request := request.(status := Rejected, processedAt := Some(now));
        out := Ok(id);
      }
      requests := requests[id := request];
    }
  }
}
