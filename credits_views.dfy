/** Processing a credit request (CreditRequestViewSet.process in
    recharge/credits/views.py, the variant that re-checks under row locks):
    an administrator approves it, crediting the seller and writing one
    ledger row, or rejects it. */
module CreditsViews {
  import opened Base
  import opened AccountsModels
  import opened CreditsModels
  import opened ChargeModels
  import opened Ledger
  import opened Store

  /** `credit_request_<id>_<fresh>`: the key the older variant gives an
      approval's ledger row, the fresh part being a random UUID. */
  function CreditRequestKey(id: RequestId, suffix: string): string {
    "credit_request_" + DecimalString(id) + "_" + suffix
  }

  /** The value a CharField gets when the create call leaves it out. */
  const OmittedKey: string := ""

  /** `next` is `st` after approving pending request `id` at `now`: the request
      is approved and stamped, its seller gained the requested amount, one
      successful 'credit_increase' row recording the seller's credit before
      and after was appended, and nothing else changed. The row's key and
      link are for the caller to state. */
  ghost predicate CreditApplied(st: State, next: State, id: RequestId, now: Time) {
    && id < |st.requests|
    && var req := st.requests[id];
       && req.status == Pending
       && req.seller < |st.sellers|
       && next.requests == st.requests[id := req.(status := Approved, processedAt := Some(now))]
       && |next.sellers| == |st.sellers|
       && next.sellers[req.seller] == st.sellers[req.seller].(credit := st.sellers[req.seller].credit + req.amount)
       && (forall s | 0 <= s < |st.sellers| && s != req.seller :: next.sellers[s] == st.sellers[s])
       && next.phones == st.phones
       && next.sales == st.sales
       && |next.ledger| == |st.ledger| + 1
       && next.ledger[..|st.ledger|] == st.ledger
       && var row := next.ledger[|st.ledger|];
          && row.seller == req.seller
          && row.amount == req.amount
          && row.transactionType == CreditIncrease
          && row.previousCredit == st.sellers[req.seller].credit
          && row.newCredit == row.previousCredit + req.amount
          && row.status == Successful
  }

  /** `next` is `st` after rejecting pending request `id` at `now`: only that
      request changed, to rejected and stamped; no credit and no ledger row. */
  ghost predicate RejectionApplied(st: State, next: State, id: RequestId, now: Time) {
    && id < |st.requests|
    && st.requests[id].status == Pending
    && next == st.(requests := st.requests[id := st.requests[id].(status := Rejected, processedAt := Some(now))])
  }

  /** The `transaction.atomic()` block, on the request and seller as they are
      once locked; the approval's row gets `key`. A write the database refuses
      (a taken key, a credit wider than the column) aborts the block. */
  function ProcessLocked(st: State, id: RequestId, approve: bool, key: string, now: Time): (r: Step)
    ensures r.outcome.Err? ==> r.next == st
    ensures r.outcome.Err? ==> r.outcome.error in {NotFound, NotPending, Fault}
    ensures r.outcome == Err(NotPending) <==> id < |st.requests| && st.requests[id].status != Pending
    ensures r.outcome == Err(NotFound)
        <==> id >= |st.requests| || (st.requests[id].status == Pending && st.requests[id].seller >= |st.sellers|)
    ensures r.outcome == Err(Fault)
        <==> && approve && id < |st.requests| && st.requests[id].status == Pending && st.requests[id].seller < |st.sellers|
             && (KeyRefused(st.ledger, key) || !Fits(st.requests[id].amount)
                 || !Fits(st.sellers[st.requests[id].seller].credit + st.requests[id].amount))
    ensures r.outcome.Ok? && approve ==>
              && r.outcome.id == |st.ledger|
              && CreditApplied(st, r.next, id, now)
              && r.next.ledger[|st.ledger|].idempotencyKey == key
              && r.next.ledger[|st.ledger|].relatedTo == Some(CreditRequestLink(id))
    ensures r.outcome.Ok? && !approve ==> r.outcome.id == id && RejectionApplied(st, r.next, id, now)
    ensures !approve && id < |st.requests| && st.requests[id].status == Pending && st.requests[id].seller < |st.sellers|
            ==> r.outcome == Ok(id)
  {
    if id >= |st.requests| then Step(Err(NotFound), st)
    else
      var req := st.requests[id];
      if req.status != Pending then Step(Err(NotPending), st)
      else if req.seller >= |st.sellers| then Step(Err(NotFound), st)
      else
        var account := st.sellers[req.seller];
        if approve then
          var previousCredit := account.credit;
          var newCredit := previousCredit + req.amount;
          if KeyRefused(st.ledger, key) || !Fits(req.amount) || !Fits(newCredit) then Step(Err(Fault), st)
          else
            var row := Transaction(key, req.seller, req.amount, CreditIncrease, previousCredit, newCredit,
                                   "Credit increase from request " + req.referenceId, Successful,
                                   Some(CreditRequestLink(id)), now, Some(now));
            Step(Ok(|st.ledger|), st.(
              requests := st.requests[id := req.(status := Approved, processedAt := Some(now))],
              ledger := st.ledger + [row],
              sellers := st.sellers[req.seller := account.(credit := newCredit)]))
        else
          Step(Ok(id), st.(requests := st.requests[id := req.(status := Rejected, processedAt := Some(now))]))
  }

  /** The endpoint with the approval's ledger key given: look the request up,
      lower-case the action, check pending first and the action second, then
      run the atomic block. */
  function ProcessWithKey(st: State, id: RequestId, action: string, key: string, now: Time): (r: Step)
    ensures r.outcome.Err? ==> r.next == st
    ensures r.outcome.Err? ==> r.outcome.error in {NotFound, NotPending, BadAction, Fault}
    ensures r.outcome == Err(NotFound)
        <==> || id >= |st.requests|
             || (&& st.requests[id].status == Pending && (Lower(action) == "approve" || Lower(action) == "reject")
                 && st.requests[id].seller >= |st.sellers|)
    ensures r.outcome == Err(NotPending) <==> id < |st.requests| && st.requests[id].status != Pending
    ensures r.outcome == Err(BadAction)
        <==> id < |st.requests| && st.requests[id].status == Pending && Lower(action) != "approve" && Lower(action) != "reject"
    ensures r.outcome == Err(Fault)
        <==> && id < |st.requests| && st.requests[id].status == Pending && Lower(action) == "approve"
             && st.requests[id].seller < |st.sellers|
             && (KeyRefused(st.ledger, key) || !Fits(st.requests[id].amount)
                 || !Fits(st.sellers[st.requests[id].seller].credit + st.requests[id].amount))
    ensures && id < |st.requests| && st.requests[id].status == Pending && Lower(action) == "reject"
            && st.requests[id].seller < |st.sellers|
            ==> r.outcome == Ok(id) && RejectionApplied(st, r.next, id, now)
    ensures r.outcome.Ok? ==>
              || (Lower(action) == "approve" && CreditApplied(st, r.next, id, now)
                  && r.next.ledger[|st.ledger|].idempotencyKey == key
                  && r.next.ledger[|st.ledger|].relatedTo == Some(CreditRequestLink(id)))
              || (Lower(action) == "reject" && RejectionApplied(st, r.next, id, now))
    ensures r.outcome.Ok? ==> r == ProcessLocked(st, id, Lower(action) == "approve", key, now)
  {
    if id >= |st.requests| then Step(Err(NotFound), st)
    else
      var actionType := Lower(action);
      if st.requests[id].status != Pending then Step(Err(NotPending), st)
      else if actionType != "approve" && actionType != "reject" then Step(Err(BadAction), st)
      else ProcessLocked(st, id, actionType == "approve", key, now)
  }

  /** The endpoint as written: the approval's ledger row is created without an
      idempotency key, so it gets the empty default. */
  function ProcessAsWritten(st: State, id: RequestId, action: string, now: Time): (r: Step)
    ensures r.outcome.Ok? && Lower(action) == "approve" ==>
              |r.next.ledger| == |st.ledger| + 1 && r.next.ledger[|st.ledger|].idempotencyKey == OmittedKey
  {
    ProcessWithKey(st, id, action, OmittedKey, now)
  }

  /** The endpoint as intended: the approval's row gets a key of its own,
      `credit_request_<id>_<fresh>` like the older variant. */
  function Process(st: State, id: RequestId, action: string, suffix: string, now: Time): (r: Step)
    ensures r.outcome.Ok? && Lower(action) == "approve" ==>
              |r.next.ledger| == |st.ledger| + 1 && r.next.ledger[|st.ledger|].idempotencyKey == CreditRequestKey(id, suffix)
  {
    ProcessWithKey(st, id, action, CreditRequestKey(id, suffix), now)
  }

  /** An approval keeps the invariant when its row's key is new and its link,
      if any, names the request. */
  lemma CreditAppliedPreservesInv(st: State, next: State, id: RequestId, now: Time)
    requires Inv(st)
    requires CreditApplied(st, next, id, now)
    requires !KeyRefused(st.ledger, next.ledger[|st.ledger|].idempotencyKey)
    requires next.ledger[|st.ledger|].relatedTo in {None, Some(CreditRequestLink(id))}
    requires next.ledger[|st.ledger|].newCredit <= MaxMoney
    ensures Inv(next)
  {
    var req := st.requests[id];
    var row := next.ledger[|st.ledger|];
    assert next.ledger == st.ledger + [row];
    assert RequestOk(req, |st.sellers|);
    // No earlier row links the request: linked requests are already approved.
    assert forall i | 0 <= i < |st.ledger| :: st.ledger[i].relatedTo != Some(CreditRequestLink(id)) by {
      forall i | 0 <= i < |st.ledger| ensures st.ledger[i].relatedTo != Some(CreditRequestLink(id)) {
        assert LinkOk(st.ledger[i], st.requests, st.sales);
      }
    }
    assert SellersOk(next) by {
      forall i, j | 0 <= i < j < |next.sellers| ensures next.sellers[i].user != next.sellers[j].user {
        assert next.sellers[i].user == st.sellers[i].user && next.sellers[j].user == st.sellers[j].user;
      }
    }
    assert RequestsOk(next) by {
      forall i | 0 <= i < |next.requests| ensures RequestOk(next.requests[i], |next.sellers|) {
        assert RequestOk(st.requests[i], |st.sellers|);
      }
      forall i, j | 0 <= i < j < |next.requests| ensures next.requests[i].referenceId != next.requests[j].referenceId {
        assert next.requests[i].referenceId == st.requests[i].referenceId;
        assert next.requests[j].referenceId == st.requests[j].referenceId;
      }
    }
    assert SalesOk(next);
    assert LedgerOk(next) by {
      forall i | 0 <= i < |next.ledger|
        ensures RowOk(next.ledger[i], |next.sellers|) && LinkOk(next.ledger[i], next.requests, next.sales)
      {
        if i < |st.ledger| {
          assert next.ledger[i] == st.ledger[i];
          assert RowOk(st.ledger[i], |st.sellers|) && LinkOk(st.ledger[i], st.requests, st.sales);
          match st.ledger[i].relatedTo
          case None =>
          case Some(CreditRequestLink(j)) => assert j != id; assert next.requests[j] == st.requests[j];
          case Some(ChargeSaleLink(_)) =>
        }
      }
      forall i, j | 0 <= i < j < |next.ledger|
        ensures next.ledger[i].idempotencyKey != next.ledger[j].idempotencyKey
        ensures next.ledger[i].relatedTo.Some? ==> next.ledger[i].relatedTo != next.ledger[j].relatedTo
      {
        if j == |st.ledger| {
          assert next.ledger[i] == st.ledger[i];
        }
      }
    }
    assert Reconciled(next) by {
      forall s | 0 <= s < |next.sellers|
        ensures Reconciles(next.ledger, s, next.sellers[s].credit)
        ensures ChargeSum(next.ledger, s) == -SalesTotal(next.sales, s)
      {
        AppendRow(st.ledger, row, s, next.sellers[s].credit);
      }
    }
  }

  /** A rejection keeps the invariant. */
  lemma RejectionPreservesInv(st: State, next: State, id: RequestId, now: Time)
    requires Inv(st)
    requires RejectionApplied(st, next, id, now)
    ensures Inv(next)
  {
    assert RequestsOk(next) by {
      forall i | 0 <= i < |next.requests| ensures RequestOk(next.requests[i], |next.sellers|) {
        assert RequestOk(st.requests[i], |st.sellers|);
      }
      forall i, j | 0 <= i < j < |next.requests| ensures next.requests[i].referenceId != next.requests[j].referenceId {
        assert next.requests[i].referenceId == st.requests[i].referenceId;
        assert next.requests[j].referenceId == st.requests[j].referenceId;
      }
    }
    assert LedgerOk(next) by {
      forall i | 0 <= i < |next.ledger| ensures LinkOk(next.ledger[i], next.requests, next.sales) {
        assert LinkOk(st.ledger[i], st.requests, st.sales);
        match st.ledger[i].relatedTo
        case None =>
        case Some(CreditRequestLink(j)) => assert j != id;
        case Some(ChargeSaleLink(_)) =>
      }
    }
  }

  /** Processing keeps the invariant whatever the key and the outcome; a key
      already in use makes the approval fail rather than corrupt the ledger. */
  lemma ProcessPreservesInv(st: State, id: RequestId, action: string, key: string, now: Time)
    requires Inv(st)
    ensures Inv(ProcessWithKey(st, id, action, key, now).next)
  {
    var r := ProcessWithKey(st, id, action, key, now);
    if r.outcome.Ok? {
      if Lower(action) == "approve" {
        CreditAppliedPreservesInv(st, r.next, id, now);
      } else {
        RejectionPreservesInv(st, r.next, id, now);
      }
    }
  }

  /** A processed request cannot be processed again: any second attempt, with
      any action, is refused as no longer pending and changes nothing. */
  lemma ProcessOnce(st: State, id: RequestId, action: string, key: string, now: Time, action': string, key': string, now': Time)
    requires ProcessWithKey(st, id, action, key, now).outcome.Ok?
    ensures var next := ProcessWithKey(st, id, action, key, now).next;
            ProcessWithKey(next, id, action', key', now') == Step(Err(NotPending), next)
  {
  }

  /** An approval adds the requested amount to the total of all credits and
      to the ledger total, and leaves phone balances and the 'charge_sale'
      total alone; a rejection changes no total. */
  lemma ProcessConserves(st: State, id: RequestId, action: string, key: string, now: Time)
    requires ProcessWithKey(st, id, action, key, now).outcome.Ok?
    ensures var next := ProcessWithKey(st, id, action, key, now).next;
            var added := if Lower(action) == "approve" then st.requests[id].amount else 0;
            && TotalCredit(next.sellers) == TotalCredit(st.sellers) + added
            && LedgerTotal(next.ledger) == LedgerTotal(st.ledger) + added
            && ChargeTotal(next.ledger) == ChargeTotal(st.ledger)
            && TotalBalance(next.phones) == TotalBalance(st.phones)
  {
    var next := ProcessWithKey(st, id, action, key, now).next;
    if Lower(action) == "approve" {
      var seller := st.requests[id].seller;
      assert next.sellers == st.sellers[seller := next.sellers[seller]];
      TotalCreditUpdate(st.sellers, seller, next.sellers[seller]);
      var row := next.ledger[|st.ledger|];
      assert next.ledger == st.ledger + [row];
      AppendRow(st.ledger, row, seller, 0);
    }
  }

  /** As written, once any approval has committed (its row holds the empty
      key), every later approval of a pending request hits the unique
      constraint and is rolled back. */
  lemma AsWrittenApprovesOnlyOnce(st: State, id: RequestId, now: Time, id': RequestId, action': string, now': Time)
    requires ProcessAsWritten(st, id, "approve", now).outcome.Ok?
    requires Lower(action') == "approve"
    ensures var next := ProcessAsWritten(st, id, "approve", now).next;
            ProcessAsWritten(next, id', action', now').outcome.Err?
  {
    var next := ProcessAsWritten(st, id, "approve", now).next;
    assert Lower("approve") == "approve";
    assert next.ledger[|st.ledger|].idempotencyKey == OmittedKey;
    assert KeyTaken(next.ledger, OmittedKey);
  }

  /** Two sellers' worth of history in miniature: one seller, two pending
      requests. As written, the second approval fails and the seller is
      left with the first amount only. */
  lemma AsWrittenSecondApprovalFails()
    ensures var st := State([Seller(7, 0)], [], [CreditRequest("CR-1", 0, 1000, Pending, 0, None),
                                                 CreditRequest("CR-2", 0, 2000, Pending, 0, None)], [], []);
            var first := ProcessAsWritten(st, 0, "approve", 1);
            var second := ProcessAsWritten(first.next, 1, "approve", 2);
            && first.outcome.Ok?
            && second.outcome == Err(Fault)
            && second.next.sellers[0].credit == 1000
            && second.next.requests[1].status == Pending
  {
    var st := State([Seller(7, 0)], [], [CreditRequest("CR-1", 0, 1000, Pending, 0, None),
                                         CreditRequest("CR-2", 0, 2000, Pending, 0, None)], [], []);
    assert Lower("approve") == "approve";
    assert !KeyRefused(st.ledger, OmittedKey);
    var first := ProcessAsWritten(st, 0, "approve", 1);
    assert first.next.ledger[0].idempotencyKey == OmittedKey;
  }

  /** As intended, every pending request of an existing seller can be
      approved as long as its fresh key is unused and the new credit fits
      the column; the seller's credit rises by the requested amount. */
  lemma ApprovalSucceeds(st: State, id: RequestId, action: string, suffix: string, now: Time)
    requires Inv(st)
    requires id < |st.requests| && st.requests[id].status == Pending
    requires Lower(action) == "approve"
    requires !KeyRefused(st.ledger, CreditRequestKey(id, suffix))
    requires st.sellers[st.requests[id].seller].credit + st.requests[id].amount <= MaxMoney
    ensures Process(st, id, action, suffix, now).outcome == Ok(|st.ledger|)
    ensures CreditApplied(st, Process(st, id, action, suffix, now).next, id, now)
  {
    assert RequestOk(st.requests[id], |st.sellers|);
  }

  /** The same history as above, as intended: both approvals commit and the
      seller holds both amounts. */
  lemma SecondApprovalSucceeds()
    ensures var st := State([Seller(7, 0)], [], [CreditRequest("CR-1", 0, 1000, Pending, 0, None),
                                                 CreditRequest("CR-2", 0, 2000, Pending, 0, None)], [], []);
            var first := Process(st, 0, "approve", "a", 1);
            var second := Process(first.next, 1, "approve", "b", 2);
            && first.outcome.Ok?
            && second.outcome.Ok?
            && second.next.sellers[0].credit == 3000
  {
    var st := State([Seller(7, 0)], [], [CreditRequest("CR-1", 0, 1000, Pending, 0, None),
                                         CreditRequest("CR-2", 0, 2000, Pending, 0, None)], [], []);
    assert Lower("approve") == "approve";
    var first := Process(st, 0, "approve", "a", 1);
    assert first.next.ledger[0].idempotencyKey == CreditRequestKey(0, "a");
    assert CreditRequestKey(0, "a") != CreditRequestKey(1, "b") by {
      assert CreditRequestKey(0, "a")[15] == '0';
      assert CreditRequestKey(1, "b")[15] == '1';
    }
  }
}
