/** The older CreditRequestViewSet.process (credits/views.py): one pending
    check before the atomic block, no row locks, and an approval row keyed
    `credit_request_<id>_<fresh>` with no link to the request. */
module LegacyCreditsViews {
  import opened Base
  import opened AccountsModels
  import opened CreditsModels
  import opened Store
  import opened CreditsViews

  function ProcessLegacy(st: State, id: RequestId, action: string, suffix: string, now: Time): (r: Step)
    ensures r.outcome.Err? ==> r.next == st
    ensures r.outcome.Err? ==> r.outcome.error in {NotFound, NotPending, BadAction, Fault}
    ensures r.outcome == Err(NotFound) <==> id >= |st.requests|
    ensures r.outcome == Err(NotPending) <==> id < |st.requests| && st.requests[id].status != Pending
    ensures r.outcome == Err(BadAction)
        <==> id < |st.requests| && st.requests[id].status == Pending && Lower(action) != "approve" && Lower(action) != "reject"
    ensures r.outcome == Err(Fault)
        <==> && id < |st.requests| && st.requests[id].status == Pending && Lower(action) == "approve"
             && (|| st.requests[id].seller >= |st.sellers|
                 || KeyRefused(st.ledger, CreditRequestKey(id, suffix)) || !Fits(st.requests[id].amount)
                 || !Fits(st.sellers[st.requests[id].seller].credit + st.requests[id].amount))
    ensures id < |st.requests| && st.requests[id].status == Pending && Lower(action) == "reject" ==> r.outcome == Ok(id)
    ensures r.outcome.Ok? && Lower(action) == "approve" ==>
              && r.outcome.id == |st.ledger|
              && CreditApplied(st, r.next, id, now)
              && r.next.ledger[|st.ledger|].idempotencyKey == CreditRequestKey(id, suffix)
              && r.next.ledger[|st.ledger|].relatedTo == None
    ensures r.outcome.Ok? && Lower(action) != "approve" ==>
              Lower(action) == "reject" && r.outcome.id == id && RejectionApplied(st, r.next, id, now)
  {
    if id >= |st.requests| then Step(Err(NotFound), st)
    else
      var req := st.requests[id];
      var actionType := Lower(action);
      if req.status != Pending then Step(Err(NotPending), st)
      else if actionType != "approve" && actionType != "reject" then Step(Err(BadAction), st)
      else if actionType == "approve" then
        var key := CreditRequestKey(id, suffix);
        // Reading `credit_request.seller` inside the block: a missing seller
        // reaches only the generic handler.
        if req.seller >= |st.sellers| then Step(Err(Fault), st)
        else
          var account := st.sellers[req.seller];
          var previousCredit := account.credit;
          var newCredit := previousCredit + req.amount;
          if KeyRefused(st.ledger, key) || !Fits(req.amount) || !Fits(newCredit) then Step(Err(Fault), st)
          else
            var row := Transaction(key, req.seller, req.amount, CreditIncrease, previousCredit, newCredit,
                                   "Credit increase from request " + req.referenceId, Successful,
                                   None, now, Some(now));
            Step(Ok(|st.ledger|), st.(
              ledger := st.ledger + [row],
              sellers := st.sellers[req.seller := account.(credit := newCredit)],
              requests := st.requests[id := req.(status := Approved, processedAt := Some(now))]))
      else
        Step(Ok(id), st.(requests := st.requests[id := req.(status := Rejected, processedAt := Some(now))]))
  }

  /** The older variant keeps the invariant whatever its outcome. */
  lemma ProcessLegacyPreservesInv(st: State, id: RequestId, action: string, suffix: string, now: Time)
    requires Inv(st)
    ensures Inv(ProcessLegacy(st, id, action, suffix, now).next)
  {
    var r := ProcessLegacy(st, id, action, suffix, now);
    if r.outcome.Ok? {
      if Lower(action) == "approve" {
        CreditAppliedPreservesInv(st, r.next, id, now);
      } else {
        RejectionPreservesInv(st, r.next, id, now);
      }
    }
  }

  /** The ledger row with its link erased. */
  function Unlinked(t: Transaction): Transaction {
    t.(relatedTo := None)
  }

  /** Run one at a time, the older variant behaves as the locked one (with
      the same key): same outcome, same sellers, requests, phones and sales,
      and the same ledger except that its approval row carries no link. */
  lemma LegacyMatchesLocked(st: State, id: RequestId, action: string, suffix: string, now: Time)
    requires Inv(st)
    ensures var legacy := ProcessLegacy(st, id, action, suffix, now);
            var locked := Process(st, id, action, suffix, now);
            && legacy.outcome == locked.outcome
            && legacy.next.(ledger := []) == locked.next.(ledger := [])
            && |legacy.next.ledger| == |locked.next.ledger|
            && forall i | 0 <= i < |legacy.next.ledger| :: Unlinked(legacy.next.ledger[i]) == Unlinked(locked.next.ledger[i])
  {
    if id < |st.requests| {
      assert RequestOk(st.requests[id], |st.sellers|);
    }
  }
}
