/** The operations that create or edit rows without moving money: a seller
    profile (accounts/models.py), a phone number (PhoneNumberSerializer), a
    credit request (CreditRequestSerializer with perform_create), and an
    administrator's edit of a request (AdminCreditRequestSerializer). */
module Records {
  import opened Base
  import opened AccountsModels
  import opened CreditsModels
  import opened ChargeModels
  import opened Ledger
  import opened CreditsSerializers
  import opened ChargeSerializers
  import opened Store

  /** `Seller.objects.create(user=user)`: a second profile for the same user
      violates the one-to-one link; a new profile starts at the default credit. */
  function CreateSellerProfile(st: State, user: UserId): (r: Step)
    ensures r.outcome.Err? ==> r.next == st
    ensures r.outcome.Err? ==> r.outcome.error == Duplicate
    ensures r.outcome.Ok? <==> ProfileOf(st.sellers, user).None?
    ensures r.outcome == Err(Duplicate) <==> ProfileOf(st.sellers, user).Some?
    ensures r.outcome.Ok? ==>
              && r.outcome.id == |st.sellers|
              && r.next == st.(sellers := st.sellers + [Seller(user, 0)])
              && ProfileOf(r.next.sellers, user) == Some(|st.sellers|)
  {
    if ProfileOf(st.sellers, user).Some? then Step(Err(Duplicate), st)
    else Step(Ok(|st.sellers|), st.(sellers := st.sellers + [Seller(user, DefaultCredit)]))
  }

  /** Creating a phone number: the CharField trims the input, then the
      number must be digits only, fit the column and be new; the trimmed
      number is stored with a zero balance, never charged. */
  function RegisterPhoneNumber(st: State, number: string): (r: Step)
    ensures r.outcome.Err? ==> r.next == st
    ensures r.outcome.Err? ==> r.outcome.error in {Invalid, Duplicate}
    ensures r.outcome == Err(Invalid) <==> !ValidNumber(Trim(number))
    ensures r.outcome == Err(Duplicate) <==> ValidNumber(Trim(number)) && NumberTaken(st.phones, Trim(number))
    ensures r.outcome.Ok? ==>
              && r.outcome.id == |st.phones|
              && r.next == st.(phones := st.phones + [PhoneNumber(Trim(number), 0, None)])
  {
    var value := Trim(number);
    if !ValidNumber(value) then Step(Err(Invalid), st)
    else if NumberTaken(st.phones, value) then Step(Err(Duplicate), st)
    else Step(Ok(|st.phones|), st.(phones := st.phones + [PhoneNumber(value, 0, None)]))
  }

  /** Creating a credit request: the CharField trims the reference, the
      serializer checks the amount and the reference, the request is forced
      onto the caller's own seller profile, and it starts pending and
      unprocessed. A seller cannot choose its status or processing time. */
  function SubmitCreditRequest(st: State, user: UserId, reference: string, amount: int, now: Time): (r: Step)
    ensures r.outcome.Err? ==> r.next == st
    ensures r.outcome.Err? ==> r.outcome.error in {Invalid, Duplicate, NotSeller}
    ensures r.outcome == Err(Invalid) <==> !ValidRequestAmount(amount) || !ValidReference(Trim(reference))
    ensures r.outcome == Err(Duplicate)
        <==> ValidRequestAmount(amount) && ValidReference(Trim(reference)) && ReferenceTaken(st.requests, Trim(reference))
    ensures r.outcome == Err(NotSeller)
        <==> && ValidRequestAmount(amount) && ValidReference(Trim(reference)) && !ReferenceTaken(st.requests, Trim(reference))
             && ProfileOf(st.sellers, user).None?
    ensures r.outcome.Ok? ==>
              && ProfileOf(st.sellers, user).Some?
              && r.outcome.id == |st.requests|
              && r.next == st.(requests := st.requests
                                 + [CreditRequest(Trim(reference), ProfileOf(st.sellers, user).value, amount, Pending, now, None)])
  {
    var referenceId := Trim(reference);
    if !ValidRequestAmount(amount) || !ValidReference(referenceId) then Step(Err(Invalid), st)
    else if ReferenceTaken(st.requests, referenceId) then Step(Err(Duplicate), st)
    else
      match ProfileOf(st.sellers, user)
      case None => Step(Err(NotSeller), st)
      case Some(seller) =>
        Step(Ok(|st.requests|), st.(requests := st.requests
                                      + [CreditRequest(referenceId, seller, amount, DefaultRequestStatus, now, None)]))
  }

  /** An administrator's edit of a request: only `status` and `processed_at`
      are writable, and a request that is no longer pending keeps its status. */
  function UpdateCreditRequest(st: State, id: RequestId, status: RequestStatus, processedAt: Option<Time>): (r: Step)
    ensures r.outcome.Err? ==> r.next == st
    ensures r.outcome.Err? ==> r.outcome.error in {NotFound, Invalid}
    ensures r.outcome == Err(NotFound) <==> id >= |st.requests|
    ensures r.outcome == Err(Invalid) <==> id < |st.requests| && st.requests[id].status != Pending && status != st.requests[id].status
    ensures id < |st.requests| && (st.requests[id].status == Pending || status == st.requests[id].status) ==> r.outcome == Ok(id)
    ensures r.outcome.Ok? ==>
              && r.outcome.id == id
              && r.next == st.(requests := st.requests[id := st.requests[id].(status := status, processedAt := processedAt)])
  {
    if id >= |st.requests| then Step(Err(NotFound), st)
    else if !ValidStatusChange(st.requests[id].status, status) then Step(Err(Invalid), st)
    else Step(Ok(id), st.(requests := st.requests[id := st.requests[id].(status := status, processedAt := processedAt)]))
  }

  lemma CreateSellerProfilePreservesInv(st: State, user: UserId)
    requires Inv(st)
    ensures Inv(CreateSellerProfile(st, user).next)
  {
    var r := CreateSellerProfile(st, user);
    if r.outcome.Ok? {
      var next := r.next;
      var s := |st.sellers|;
      assert SellersOk(next) by {
        forall i, j | 0 <= i < j < |next.sellers| ensures next.sellers[i].user != next.sellers[j].user {
          if j == s { assert next.sellers[i] == st.sellers[i]; }
        }
      }
      assert LedgerOk(next) by {
        forall i | 0 <= i < |next.ledger| ensures RowOk(next.ledger[i], |next.sellers|) {
          assert RowOk(st.ledger[i], |st.sellers|);
        }
      }
      assert forall i | 0 <= i < |st.ledger| :: st.ledger[i].seller != s by {
        forall i | 0 <= i < |st.ledger| ensures st.ledger[i].seller != s {
          assert RowOk(st.ledger[i], |st.sellers|);
        }
      }
      assert forall k | 0 <= k < |st.sales| :: st.sales[k].seller != s by {
        forall k | 0 <= k < |st.sales| ensures st.sales[k].seller != s {
          assert SaleOk(st.sales[k], |st.sellers|, |st.phones|);
        }
      }
      NoRowsFor(st.ledger, s, 0);
      NoSalesFor(st.sales, s);
      assert Reconciled(next) by {
        forall t | 0 <= t < |next.sellers|
          ensures Reconciles(next.ledger, t, next.sellers[t].credit)
          ensures ChargeSum(next.ledger, t) == -SalesTotal(next.sales, t)
        {
          if t < s { assert next.sellers[t] == st.sellers[t]; }
        }
      }
      assert RequestsOk(next) by {
        forall i | 0 <= i < |next.requests| ensures RequestOk(next.requests[i], |next.sellers|) {
          assert RequestOk(st.requests[i], |st.sellers|);
        }
      }
      assert SalesOk(next) by {
        forall k | 0 <= k < |next.sales| ensures SaleOk(next.sales[k], |next.sellers|, |next.phones|) {
          assert SaleOk(st.sales[k], |st.sellers|, |st.phones|);
        }
      }
    }
  }

  lemma RegisterPhoneNumberPreservesInv(st: State, number: string)
    requires Inv(st)
    ensures Inv(RegisterPhoneNumber(st, number).next)
  {
    var r := RegisterPhoneNumber(st, number);
    if r.outcome.Ok? {
      var next := r.next;
      var phone := PhoneNumber(Trim(number), 0, None);
      assert next == st.(phones := st.phones + [phone]);
      assert ValidNumber(phone.number) && !NumberTaken(st.phones, phone.number);
      assert PhonesOk(next) by {
        forall p | 0 <= p < |next.phones|
          ensures 0 <= next.phones[p].currentBalance <= MaxMoney && ValidNumber(next.phones[p].number)
        {
          if p < |st.phones| { assert next.phones[p] == st.phones[p]; }
        }
        forall i, j | 0 <= i < j < |next.phones| ensures next.phones[i].number != next.phones[j].number {
          if j == |st.phones| { assert next.phones[i] == st.phones[i]; }
        }
      }
      assert SalesOk(next) by {
        forall k | 0 <= k < |next.sales| ensures SaleOk(next.sales[k], |next.sellers|, |next.phones|) {
          assert SaleOk(st.sales[k], |st.sellers|, |st.phones|);
        }
      }
    }
  }

  lemma SubmitCreditRequestPreservesInv(st: State, user: UserId, reference: string, amount: int, now: Time)
    requires Inv(st)
    ensures Inv(SubmitCreditRequest(st, user, reference, amount, now).next)
  {
    var r := SubmitCreditRequest(st, user, reference, amount, now);
    if r.outcome.Ok? {
      var next := r.next;
      assert RequestsOk(next) by {
        forall i | 0 <= i < |next.requests| ensures RequestOk(next.requests[i], |next.sellers|) {
          if i < |st.requests| { assert RequestOk(st.requests[i], |st.sellers|); }
        }
        forall i, j | 0 <= i < j < |next.requests| ensures next.requests[i].referenceId != next.requests[j].referenceId {
          if j == |st.requests| { assert next.requests[i] == st.requests[i]; }
        }
      }
      assert LedgerOk(next) by {
        forall i | 0 <= i < |next.ledger| ensures LinkOk(next.ledger[i], next.requests, next.sales) {
          assert LinkOk(st.ledger[i], st.requests, st.sales);
          match st.ledger[i].relatedTo
          case None =>
          case Some(CreditRequestLink(j)) => assert next.requests[j] == st.requests[j];
          case Some(ChargeSaleLink(_)) =>
        }
      }
    }
  }

  lemma UpdateCreditRequestPreservesInv(st: State, id: RequestId, status: RequestStatus, processedAt: Option<Time>)
    requires Inv(st)
    ensures Inv(UpdateCreditRequest(st, id, status, processedAt).next)
  {
    var r := UpdateCreditRequest(st, id, status, processedAt);
    if r.outcome.Ok? {
      var next := r.next;
      assert RequestsOk(next) by {
        forall i | 0 <= i < |next.requests| ensures RequestOk(next.requests[i], |next.sellers|) {
          assert RequestOk(st.requests[i], |st.sellers|);
        }
        forall i, j | 0 <= i < j < |next.requests| ensures next.requests[i].referenceId != next.requests[j].referenceId {
          assert next.requests[i].referenceId == st.requests[i].referenceId;
          assert next.requests[j].referenceId == st.requests[j].referenceId;
        }
      }
      assert LedgerOk(next) by {
        forall i | 0 <= i < |next.ledger| ensures LinkOk(next.ledger[i], next.requests, next.sales) {
          assert LinkOk(st.ledger[i], st.requests, st.sales);
        }
      }
    }
  }
}
