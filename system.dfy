/** The engine as one sequential state machine: every request the system
    serves is a command, each transaction block runs alone, and a history is
    a sequence of commands run from some state. */
module System {
  import opened Base
  import opened AccountsModels
  import opened CreditsModels
  import opened ChargeModels
  import opened Ledger
  import opened ChargeSerializers
  import opened Store
  import opened Records
  import opened ChargeViews
  import opened CreditsViews
  import opened LegacyCreditsViews

  datatype Command =
    | CreateProfile(user: UserId)
    | AddPhone(number: string)
    | SubmitRequest(requester: UserId, reference: string, requestAmount: int, submittedAt: Time)
    | EditRequest(editId: RequestId, status: RequestStatus, processedAt: Option<Time>)
    | ProcessRequest(processId: RequestId, action: string, keySuffix: string, processedOn: Time)
    | ProcessRequestAsWritten(writtenId: RequestId, writtenAction: string, writtenOn: Time)
    | ProcessRequestLegacy(legacyId: RequestId, legacyAction: string, legacySuffix: string, legacyOn: Time)
    | SellCharge(seller: UserId, phone: PhoneId, amount: int, uuid: string, suffix: string, soldAt: Time)

  function Apply(st: State, cmd: Command): Step {
    match cmd
    case CreateProfile(user) => CreateSellerProfile(st, user)
    case AddPhone(number) => RegisterPhoneNumber(st, number)
    case SubmitRequest(user, reference, amount, now) => SubmitCreditRequest(st, user, reference, amount, now)
    case EditRequest(id, status, processedAt) => UpdateCreditRequest(st, id, status, processedAt)
    case ProcessRequest(id, action, suffix, now) => Process(st, id, action, suffix, now)
    case ProcessRequestAsWritten(id, action, now) => ProcessAsWritten(st, id, action, now)
    case ProcessRequestLegacy(id, action, suffix, now) => ProcessLegacy(st, id, action, suffix, now)
    case SellCharge(user, phone, amount, uuid, suffix, now) => Charge(st, user, phone, amount, uuid, suffix, now)
  }

  /** The state after running `cmds` in order from `st`. */
  function Run(st: State, cmds: seq<Command>): State
    decreases |cmds|
  {
    if cmds == [] then st else Run(Apply(st, cmds[0]).next, cmds[1..])
  }

  /** How many of `cmds` commit when run in order from `st`. */
  function Committed(st: State, cmds: seq<Command>): nat
    decreases |cmds|
  {
    if cmds == [] then 0
    else
      var r := Apply(st, cmds[0]);
      (if r.outcome.Ok? then 1 else 0) + Committed(r.next, cmds[1..])
  }

  lemma ApplyPreservesInv(st: State, cmd: Command)
    requires Inv(st)
    ensures Inv(Apply(st, cmd).next)
  {
    match cmd
    case CreateProfile(user) => CreateSellerProfilePreservesInv(st, user);
    case AddPhone(number) => RegisterPhoneNumberPreservesInv(st, number);
    case SubmitRequest(user, reference, amount, now) => SubmitCreditRequestPreservesInv(st, user, reference, amount, now);
    case EditRequest(id, status, processedAt) => UpdateCreditRequestPreservesInv(st, id, status, processedAt);
    case ProcessRequest(id, action, suffix, now) => ProcessPreservesInv(st, id, action, CreditRequestKey(id, suffix), now);
    case ProcessRequestAsWritten(id, action, now) => ProcessPreservesInv(st, id, action, OmittedKey, now);
    case ProcessRequestLegacy(id, action, suffix, now) => ProcessLegacyPreservesInv(st, id, action, suffix, now);
    case SellCharge(user, phone, amount, uuid, suffix, now) => ChargePreservesInv(st, user, phone, amount, uuid, suffix, now);
  }

  /** Every state reachable from a valid one is valid: credits and balances
      are never negative, every ledger row balances, uuids, keys and
      references stay unique, and the ledger reconciles with every seller. */
  lemma {:induction false} RunPreservesInv(st: State, cmds: seq<Command>)
    requires Inv(st)
    ensures Inv(Run(st, cmds))
    decreases |cmds|
  {
    if cmds != [] {
      ApplyPreservesInv(st, cmds[0]);
      RunPreservesInv(Apply(st, cmds[0]).next, cmds[1..]);
    }
  }

  /** `next` keeps all of `st`'s history: tables only grow, the ledger and the
      sales are append-only, a request keeps its reference, seller, amount
      and creation time, and a request that has left pending keeps its
      status. */
  ghost predicate Extends(st: State, next: State) {
    && |st.sellers| <= |next.sellers|
    && (forall s | 0 <= s < |st.sellers| :: next.sellers[s].user == st.sellers[s].user)
    && |st.phones| <= |next.phones|
    && (forall p | 0 <= p < |st.phones| :: next.phones[p].number == st.phones[p].number)
    && |st.requests| <= |next.requests|
    && (forall i | 0 <= i < |st.requests| ::
          && next.requests[i].referenceId == st.requests[i].referenceId
          && next.requests[i].seller == st.requests[i].seller
          && next.requests[i].amount == st.requests[i].amount
          && next.requests[i].createdAt == st.requests[i].createdAt
          && (st.requests[i].status != Pending ==> next.requests[i].status == st.requests[i].status))
    && st.sales <= next.sales
    && st.ledger <= next.ledger
  }

  lemma ProcessExtends(st: State, id: RequestId, action: string, key: string, now: Time)
    ensures Extends(st, ProcessWithKey(st, id, action, key, now).next)
  {
    var r := ProcessWithKey(st, id, action, key, now);
    if r.outcome.Ok? {
      assert r.next.ledger[..|st.ledger|] == st.ledger;
    }
  }

  lemma ProcessLegacyExtends(st: State, id: RequestId, action: string, suffix: string, now: Time)
    ensures Extends(st, ProcessLegacy(st, id, action, suffix, now).next)
  {
    var r := ProcessLegacy(st, id, action, suffix, now);
    if r.outcome.Ok? {
      assert r.next.ledger[..|st.ledger|] == st.ledger;
    }
  }

  lemma ChargeExtends(st: State, user: UserId, phone: PhoneId, amount: int, uuid: string, suffix: string, now: Time)
    ensures Extends(st, Charge(st, user, phone, amount, uuid, suffix, now).next)
  {
    var r := Charge(st, user, phone, amount, uuid, suffix, now);
    if r.outcome.Ok? {
      assert r.next.ledger[..|st.ledger|] == st.ledger;
    }
  }

  /** No command rewrites history: see Extends. */
  lemma ApplyExtends(st: State, cmd: Command)
    ensures Extends(st, Apply(st, cmd).next)
  {
    match cmd
    case CreateProfile(_) =>
    case AddPhone(_) =>
    case SubmitRequest(_, _, _, _) =>
    case EditRequest(_, _, _) =>
    case ProcessRequest(id, action, suffix, now) => ProcessExtends(st, id, action, CreditRequestKey(id, suffix), now);
    case ProcessRequestAsWritten(id, action, now) => ProcessExtends(st, id, action, OmittedKey, now);
    case ProcessRequestLegacy(id, action, suffix, now) => ProcessLegacyExtends(st, id, action, suffix, now);
    case SellCharge(user, phone, amount, uuid, suffix, now) => ChargeExtends(st, user, phone, amount, uuid, suffix, now);
  }

  lemma ExtendsTransitive(a: State, b: State, c: State)
    requires Extends(a, b) && Extends(b, c)
    ensures Extends(a, c)
  {
  }

  /** Over any history, a credit request's status only ever leaves pending
      (once approved or rejected it stays so), and no sale and no ledger row
      is ever changed or removed. */
  lemma {:induction false} RunExtends(st: State, cmds: seq<Command>)
    ensures Extends(st, Run(st, cmds))
    decreases |cmds|
  {
    if cmds == [] {
    } else {
      var next := Apply(st, cmds[0]).next;
      ApplyExtends(st, cmds[0]);
      RunExtends(next, cmds[1..]);
      ExtendsTransitive(st, next, Run(next, cmds[1..]));
    }
  }

  /** One command moves money only through the ledger: the change in the
      total of all credits equals the sum of the rows it appended, and the
      change in the total of all phone balances equals minus the sum of the
      'charge_sale' rows it appended. */
  lemma ApplyConserves(st: State, cmd: Command)
    ensures var next := Apply(st, cmd).next;
            && TotalCredit(next.sellers) - TotalCredit(st.sellers) == LedgerTotal(next.ledger) - LedgerTotal(st.ledger)
            && TotalBalance(next.phones) - TotalBalance(st.phones) == -(ChargeTotal(next.ledger) - ChargeTotal(st.ledger))
  {
    var r := Apply(st, cmd);
    if r.outcome.Ok? {
      match cmd
      case CreateProfile(user) => TotalCreditAppend(st.sellers, Seller(user, DefaultCredit));
      case AddPhone(number) => TotalBalanceAppend(st.phones, PhoneNumber(Trim(number), 0, None));
      case SubmitRequest(_, _, _, _) =>
      case EditRequest(_, _, _) =>
      case ProcessRequest(id, action, suffix, now) => ProcessConserves(st, id, action, CreditRequestKey(id, suffix), now);
      case ProcessRequestAsWritten(id, action, now) => ProcessConserves(st, id, action, OmittedKey, now);
      case ProcessRequestLegacy(id, action, suffix, now) =>
        if Lower(action) == "approve" { CreditAppliedConserves(st, r.next, id, now); }
      case SellCharge(user, phone, amount, uuid, suffix, now) => ChargeConserves(st, user, phone, amount, uuid, suffix, now);
    }
  }

  /** What an approval does to the totals, whichever variant wrote it. */
  lemma CreditAppliedConserves(st: State, next: State, id: RequestId, now: Time)
    requires CreditApplied(st, next, id, now)
    ensures TotalCredit(next.sellers) == TotalCredit(st.sellers) + st.requests[id].amount
    ensures LedgerTotal(next.ledger) == LedgerTotal(st.ledger) + st.requests[id].amount
    ensures ChargeTotal(next.ledger) == ChargeTotal(st.ledger)
    ensures TotalBalance(next.phones) == TotalBalance(st.phones)
  {
    var seller := st.requests[id].seller;
    assert next.sellers == st.sellers[seller := next.sellers[seller]];
    TotalCreditUpdate(st.sellers, seller, next.sellers[seller]);
    var row := next.ledger[|st.ledger|];
    assert next.ledger == st.ledger + [row];
    AppendRow(st.ledger, row, seller, 0);
  }

  /** Over any history: credit gained by sellers equals the ledger's net
      amount, and balance gained by phones equals the credit that charge
      sales took from sellers. */
  lemma {:induction false} RunConserves(st: State, cmds: seq<Command>)
    ensures var end := Run(st, cmds);
            && TotalCredit(end.sellers) - TotalCredit(st.sellers) == LedgerTotal(end.ledger) - LedgerTotal(st.ledger)
            && TotalBalance(end.phones) - TotalBalance(st.phones) == -(ChargeTotal(end.ledger) - ChargeTotal(st.ledger))
    decreases |cmds|
  {
    if cmds != [] {
      ApplyConserves(st, cmds[0]);
      RunConserves(Apply(st, cmds[0]).next, cmds[1..]);
    }
  }

  /** `next` keeps every seller's opening credit: a seller of `st` still
      opens where it did, and a seller created since opens at the default
      credit. */
  ghost predicate KeepsOpenings(st: State, next: State) {
    && |st.sellers| <= |next.sellers|
    && (forall s | 0 <= s < |st.sellers| ::
          Opening(next.ledger, s, next.sellers[s].credit) == Opening(st.ledger, s, st.sellers[s].credit))
    && (forall s | |st.sellers| <= s < |next.sellers| :: Opening(next.ledger, s, next.sellers[s].credit) == DefaultCredit)
  }

  /** A row that records one seller's credit change, appended while that
      seller's credit moves to the row's new_credit, keeps every opening. */
  lemma RowKeepsOpenings(st: State, next: State, row: Transaction)
    requires next.ledger == st.ledger + [row]
    requires |next.sellers| == |st.sellers| && row.seller < |st.sellers|
    requires row.previousCredit == st.sellers[row.seller].credit
    requires forall s | 0 <= s < |st.sellers| && s != row.seller :: next.sellers[s] == st.sellers[s]
    ensures KeepsOpenings(st, next)
  {
    forall s | 0 <= s < |st.sellers|
      ensures Opening(next.ledger, s, next.sellers[s].credit) == Opening(st.ledger, s, st.sellers[s].credit)
    {
      AppendRow(st.ledger, row, s, next.sellers[s].credit);
    }
  }

  lemma CreditAppliedKeepsOpenings(st: State, next: State, id: RequestId, now: Time)
    requires CreditApplied(st, next, id, now)
    ensures KeepsOpenings(st, next)
  {
    var row := next.ledger[|st.ledger|];
    assert next.ledger == st.ledger + [row];
    RowKeepsOpenings(st, next, row);
  }

  lemma ChargedKeepsOpenings(st: State, next: State, seller: SellerId, phone: PhoneId, amount: int, uuid: string, now: Time)
    requires Charged(st, next, seller, phone, amount, uuid, now)
    ensures KeepsOpenings(st, next)
  {
    var row := next.ledger[|st.ledger|];
    assert next.ledger == st.ledger + [row];
    RowKeepsOpenings(st, next, row);
  }

  /** A new profile has no ledger rows yet, so it opens at the default credit. */
  lemma ProfileKeepsOpenings(st: State, user: UserId)
    requires Inv(st)
    ensures KeepsOpenings(st, CreateSellerProfile(st, user).next)
  {
    var next := CreateSellerProfile(st, user).next;
    if next != st {
      var s := |st.sellers|;
      forall i | 0 <= i < |st.ledger| ensures st.ledger[i].seller != s {
        assert RowOk(st.ledger[i], |st.sellers|);
      }
      NoRowsFor(st.ledger, s, DefaultCredit);
    }
  }

  lemma ProcessKeepsOpenings(st: State, id: RequestId, action: string, key: string, now: Time)
    ensures KeepsOpenings(st, ProcessWithKey(st, id, action, key, now).next)
  {
    var r := ProcessWithKey(st, id, action, key, now);
    if r.outcome.Ok? && Lower(action) == "approve" {
      CreditAppliedKeepsOpenings(st, r.next, id, now);
    }
  }

  lemma ProcessLegacyKeepsOpenings(st: State, id: RequestId, action: string, suffix: string, now: Time)
    ensures KeepsOpenings(st, ProcessLegacy(st, id, action, suffix, now).next)
  {
    var r := ProcessLegacy(st, id, action, suffix, now);
    if r.outcome.Ok? && Lower(action) == "approve" {
      CreditAppliedKeepsOpenings(st, r.next, id, now);
    }
  }

  lemma ChargeKeepsOpenings(st: State, user: UserId, phone: PhoneId, amount: int, uuid: string, suffix: string, now: Time)
    ensures KeepsOpenings(st, Charge(st, user, phone, amount, uuid, suffix, now).next)
  {
    var r := Charge(st, user, phone, amount, uuid, suffix, now);
    if r.outcome.Ok? {
      ChargedKeepsOpenings(st, r.next, ProfileOf(st.sellers, user).value, phone, amount, Trim(uuid), now);
    }
  }

  /** No command rewrites what a seller was given when its account was set
      up: a seller's opening credit never changes, and a new seller opens at
      the default credit. */
  lemma ApplyKeepsOpenings(st: State, cmd: Command)
    requires Inv(st)
    ensures KeepsOpenings(st, Apply(st, cmd).next)
  {
    match cmd
    case CreateProfile(user) => ProfileKeepsOpenings(st, user);
    case AddPhone(_) =>
    case SubmitRequest(_, _, _, _) =>
    case EditRequest(_, _, _) =>
    case ProcessRequest(id, action, suffix, now) => ProcessKeepsOpenings(st, id, action, CreditRequestKey(id, suffix), now);
    case ProcessRequestAsWritten(id, action, now) => ProcessKeepsOpenings(st, id, action, OmittedKey, now);
    case ProcessRequestLegacy(id, action, suffix, now) => ProcessLegacyKeepsOpenings(st, id, action, suffix, now);
    case SellCharge(user, phone, amount, uuid, suffix, now) => ChargeKeepsOpenings(st, user, phone, amount, uuid, suffix, now);
  }

  lemma KeepsOpeningsTransitive(a: State, b: State, c: State)
    requires KeepsOpenings(a, b) && KeepsOpenings(b, c)
    ensures KeepsOpenings(a, c)
  {
  }

  /** Over any history from a valid state, every seller keeps its opening
      credit and every seller created on the way opens at the default. */
  lemma {:induction false} RunKeepsOpenings(st: State, cmds: seq<Command>)
    requires Inv(st)
    ensures KeepsOpenings(st, Run(st, cmds))
    decreases |cmds|
  {
    if cmds != [] {
      var next := Apply(st, cmds[0]).next;
      ApplyKeepsOpenings(st, cmds[0]);
      ApplyPreservesInv(st, cmds[0]);
      RunKeepsOpenings(next, cmds[1..]);
      KeepsOpeningsTransitive(st, next, Run(next, cmds[1..]));
    }
  }

  /** From an empty database, all credit sellers hold is accounted for by the
      ledger, all balance phones hold came from charge sales, and together
      they equal what approvals put in; each seller's credit is exactly the
      sum of its own rows. */
  lemma RunFromEmpty(cmds: seq<Command>)
    ensures var end := Run(State([], [], [], [], []), cmds);
            && Inv(end)
            && TotalCredit(end.sellers) == LedgerTotal(end.ledger)
            && TotalBalance(end.phones) == -ChargeTotal(end.ledger)
            && TotalCredit(end.sellers) + TotalBalance(end.phones) == LedgerTotal(end.ledger) - ChargeTotal(end.ledger)
            && forall s | 0 <= s < |end.sellers| :: end.sellers[s].credit == SumFor(end.ledger, s)
  {
    var empty := State([], [], [], [], []);
    var end := Run(empty, cmds);
    EmptyInv();
    RunPreservesInv(empty, cmds);
    RunConserves(empty, cmds);
    RunKeepsOpenings(empty, cmds);
    forall s | 0 <= s < |end.sellers| ensures end.sellers[s].credit == SumFor(end.ledger, s) {
      SellerReconciles(end, s);
    }
  }

  /** One sale per UUID, by the same caller to the same phone, in order. */
  function Sales(user: UserId, phone: PhoneId, amount: int, uuids: seq<string>, suffix: string, now: Time): (r: seq<Command>)
    ensures |r| == |uuids|
    decreases |uuids|
  {
    if uuids == [] then []
    else [SellCharge(user, phone, amount, uuids[0], suffix, now)] + Sales(user, phone, amount, uuids[1..], suffix, now)
  }

  /** Different UUIDs give different ledger keys under the same suffix. */
  lemma ChargeKeyInjective(u: string, v: string, suffix: string)
    requires ChargeKey(u, suffix) == ChargeKey(v, suffix)
    ensures u == v
  {
    assert |u| == |v|;
    assert u == ChargeKey(u, suffix)[12..12 + |u|];
    assert v == ChargeKey(v, suffix)[12..12 + |v|];
  }

  /** A batch of sales that can only be refused for lack of credit: a valid
      state, an existing seller and phone, a valid amount, UUIDs that are
      valid, already trimmed, distinct and unused, unused keys, and room on the phone for all of the
      seller's credit. */
  ghost predicate BatchReady(st: State, user: UserId, phone: PhoneId, amount: int, uuids: seq<string>, suffix: string) {
    && Inv(st)
    && ProfileOf(st.sellers, user).Some?
    && phone < |st.phones|
    && ValidChargeAmount(amount)
    && (forall i | 0 <= i < |uuids| :: ValidUuid(uuids[i]) && Trimmed(uuids[i]))
    && (forall i, j | 0 <= i < j < |uuids| :: uuids[i] != uuids[j])
    && (forall i | 0 <= i < |uuids| :: !UuidTaken(st.sales, uuids[i]) && !KeyRefused(st.ledger, ChargeKey(uuids[i], suffix)))
    && st.phones[phone].currentBalance + st.sellers[ProfileOf(st.sellers, user).value].credit <= MaxMoney
  }

  /** The first sale of a ready batch commits when the credit covers it, and
      the rest of the batch is still ready. */
  lemma SaleCommits(st: State, user: UserId, phone: PhoneId, amount: int, uuids: seq<string>, suffix: string, now: Time)
    requires BatchReady(st, user, phone, amount, uuids, suffix)
    requires uuids != []
    requires amount <= st.sellers[ProfileOf(st.sellers, user).value].credit
    ensures var s := ProfileOf(st.sellers, user).value;
            var r := Charge(st, user, phone, amount, uuids[0], suffix, now);
            && r.outcome.Ok?
            && ProfileOf(r.next.sellers, user) == Some(s)
            && r.next.sellers[s].credit == st.sellers[s].credit - amount
            && BatchReady(r.next, user, phone, amount, uuids[1..], suffix)
  {
    var s := ProfileOf(st.sellers, user).value;
    var c := st.sellers[s].credit;
    assert 0 <= c <= MaxMoney;
    assert ValidUuid(uuids[0]) && Trimmed(uuids[0]);
    assert !UuidTaken(st.sales, uuids[0]) && !KeyRefused(st.ledger, ChargeKey(uuids[0], suffix));
    var r := Charge(st, user, phone, amount, uuids[0], suffix, now);
    ChargeReachesBlock(st, user, phone, amount, uuids[0], suffix, now);
    assert r.outcome.Ok?;
    var next := r.next;
    ChargePreservesInv(st, user, phone, amount, uuids[0], suffix, now);
    assert next.sellers[s].user == user;
    assert ProfileOf(next.sellers, user) == Some(s);
    var rest := uuids[1..];
    forall i | 0 <= i < |rest|
      ensures ValidUuid(rest[i]) && Trimmed(rest[i])
      ensures !UuidTaken(next.sales, rest[i]) && !KeyRefused(next.ledger, ChargeKey(rest[i], suffix))
    {
      assert rest[i] == uuids[i + 1];
      assert next.sales == st.sales + [next.sales[|st.sales|]];
      assert next.ledger == st.ledger + [next.ledger[|st.ledger|]];
      if ChargeKey(rest[i], suffix) == ChargeKey(uuids[0], suffix) {
        ChargeKeyInjective(rest[i], uuids[0], suffix);
      }
    }
  }

  /** The rest of a ready batch is ready in the same state. */
  lemma BatchRestReady(st: State, user: UserId, phone: PhoneId, amount: int, uuids: seq<string>, suffix: string)
    requires BatchReady(st, user, phone, amount, uuids, suffix)
    requires uuids != []
    ensures BatchReady(st, user, phone, amount, uuids[1..], suffix)
  {
    var rest := uuids[1..];
    forall i | 0 <= i < |rest|
      ensures ValidUuid(rest[i]) && Trimmed(rest[i])
      ensures !UuidTaken(st.sales, rest[i]) && !KeyRefused(st.ledger, ChargeKey(rest[i], suffix))
    {
      assert rest[i] == uuids[i + 1];
    }
  }

  /** The first sale of a ready batch is refused, changing nothing, when the
      credit does not cover it, and the rest of the batch is still ready. */
  lemma SaleRefused(st: State, user: UserId, phone: PhoneId, amount: int, uuids: seq<string>, suffix: string, now: Time)
    requires BatchReady(st, user, phone, amount, uuids, suffix)
    requires uuids != []
    requires st.sellers[ProfileOf(st.sellers, user).value].credit < amount
    ensures Charge(st, user, phone, amount, uuids[0], suffix, now) == Step(Err(InsufficientCredit), st)
    ensures BatchReady(st, user, phone, amount, uuids[1..], suffix)
  {
    assert ValidUuid(uuids[0]) && Trimmed(uuids[0]) && !UuidTaken(st.sales, uuids[0]);
    ChargeRefusedForCredit(st, user, phone, amount, uuids[0], suffix, now);
    BatchRestReady(st, user, phone, amount, uuids, suffix);
  }

  /** The bound on n sales still holds after one more refusal. */
  lemma RefusalKeepsBound(n: nat, count: nat, c: int, amount: int)
    requires 0 < amount && c < amount
    requires n <= count && n * amount <= c
    ensures n <= count + 1 && n * amount <= c && (n < count + 1 ==> c - n * amount < amount)
  {
    assert 0 <= n * amount;
  }

  /** The bound on n sales from credit c - amount is the bound on m = n + 1
      sales from credit c. */
  lemma CommitKeepsBound(n: nat, m: nat, count: nat, c: int, amount: int)
    requires 0 < amount <= c && m == n + 1
    requires n <= count && n * amount <= c - amount && (n < count ==> c - amount - n * amount < amount)
    ensures m <= count + 1 && m * amount <= c && (m < count + 1 ==> c - m * amount < amount)
    ensures c - amount - n * amount == c - m * amount
  {
    assert m * amount == amount + n * amount;
  }

  /** Sales run one after another against one seller whose credit is `c`,
      each of the same `amount` and each with its own UUID: the number n that
      commit is min(count, floor(c / amount)) -- n sales fit in the credit,
      and if some were refused the remaining credit is below one more -- and
      the seller is left with c - n * amount, never below zero. */
  lemma {:induction false} SerializedSales(st: State, user: UserId, phone: PhoneId, amount: int, uuids: seq<string>, suffix: string, now: Time)
    requires BatchReady(st, user, phone, amount, uuids, suffix)
    ensures var s := ProfileOf(st.sellers, user).value;
            var c := st.sellers[s].credit;
            var cmds := Sales(user, phone, amount, uuids, suffix, now);
            var n := Committed(st, cmds);
            && n <= |uuids|
            && n * amount <= c
            && (n < |uuids| ==> c - n * amount < amount)
            && s < |Run(st, cmds).sellers|
            && Run(st, cmds).sellers[s].credit == c - n * amount
    decreases |uuids|, 1
  {
    if uuids != [] {
      var s := ProfileOf(st.sellers, user).value;
      if st.sellers[s].credit < amount {
        RefusedSaleThenRest(st, user, phone, amount, uuids, suffix, now);
      } else {
        CommittedSaleThenRest(st, user, phone, amount, uuids, suffix, now);
      }
    }
  }

  /** Running a batch of sales is running its first sale, then the rest. */
  lemma SaleStep(st: State, user: UserId, phone: PhoneId, amount: int, uuids: seq<string>, suffix: string, now: Time)
    requires uuids != []
    ensures var cmds := Sales(user, phone, amount, uuids, suffix, now);
            var r := Charge(st, user, phone, amount, uuids[0], suffix, now);
            var rest := Sales(user, phone, amount, uuids[1..], suffix, now);
            && Run(st, cmds) == Run(r.next, rest)
            && Committed(st, cmds) == (if r.outcome.Ok? then 1 else 0) + Committed(r.next, rest)
  {
    var cmds := Sales(user, phone, amount, uuids, suffix, now);
    assert cmds[1..] == Sales(user, phone, amount, uuids[1..], suffix, now);
    assert cmds[0] == SellCharge(user, phone, amount, uuids[0], suffix, now);
  }

  /** SerializedSales when the first sale is refused for lack of credit. */
  lemma {:induction false} RefusedSaleThenRest(st: State, user: UserId, phone: PhoneId, amount: int, uuids: seq<string>, suffix: string, now: Time)
    requires BatchReady(st, user, phone, amount, uuids, suffix)
    requires uuids != [] && st.sellers[ProfileOf(st.sellers, user).value].credit < amount
    ensures var s := ProfileOf(st.sellers, user).value;
            var c := st.sellers[s].credit;
            var cmds := Sales(user, phone, amount, uuids, suffix, now);
            var n := Committed(st, cmds);
            && n <= |uuids|
            && n * amount <= c
            && (n < |uuids| ==> c - n * amount < amount)
            && s < |Run(st, cmds).sellers|
            && Run(st, cmds).sellers[s].credit == c - n * amount
    decreases |uuids|, 0
  {
    var s := ProfileOf(st.sellers, user).value;
    var c := st.sellers[s].credit;
    var cmds := Sales(user, phone, amount, uuids, suffix, now);
    var rest := uuids[1..];
    var r := Charge(st, user, phone, amount, uuids[0], suffix, now);
    assert r.outcome.Err? && r.next == st
        && BatchReady(st, user, phone, amount, rest, suffix) by {
      SaleRefused(st, user, phone, amount, uuids, suffix, now);
    }
    var n' := Committed(st, Sales(user, phone, amount, rest, suffix, now));
    var end := Run(st, Sales(user, phone, amount, rest, suffix, now));
    assert n' <= |rest| && n' * amount <= c && (n' < |rest| ==> c - n' * amount < amount)
        && s < |end.sellers| && end.sellers[s].credit == c - n' * amount by {
      SerializedSales(st, user, phone, amount, rest, suffix, now);
    }
    assert Committed(st, cmds) == n' && Run(st, cmds) == end by {
      SaleStep(st, user, phone, amount, uuids, suffix, now);
    }
    RefusalKeepsBound(n', |rest|, c, amount);
  }

  /** SerializedSales when the first sale commits. */
  lemma {:induction false} CommittedSaleThenRest(st: State, user: UserId, phone: PhoneId, amount: int, uuids: seq<string>, suffix: string, now: Time)
    requires BatchReady(st, user, phone, amount, uuids, suffix)
    requires uuids != [] && amount <= st.sellers[ProfileOf(st.sellers, user).value].credit
    ensures var s := ProfileOf(st.sellers, user).value;
            var c := st.sellers[s].credit;
            var cmds := Sales(user, phone, amount, uuids, suffix, now);
            var n := Committed(st, cmds);
            && n <= |uuids|
            && n * amount <= c
            && (n < |uuids| ==> c - n * amount < amount)
            && s < |Run(st, cmds).sellers|
            && Run(st, cmds).sellers[s].credit == c - n * amount
    decreases |uuids|, 0
  {
    var s := ProfileOf(st.sellers, user).value;
    var c := st.sellers[s].credit;
    var cmds := Sales(user, phone, amount, uuids, suffix, now);
    var rest := uuids[1..];
    var r := Charge(st, user, phone, amount, uuids[0], suffix, now);
    var next := r.next;
    assert && r.outcome.Ok? && ProfileOf(next.sellers, user) == Some(s)
           && next.sellers[s].credit == c - amount
           && BatchReady(next, user, phone, amount, rest, suffix) by {
      SaleCommits(st, user, phone, amount, uuids, suffix, now);
    }
    var n' := Committed(next, Sales(user, phone, amount, rest, suffix, now));
    var end := Run(next, Sales(user, phone, amount, rest, suffix, now));
    assert n' <= |rest| && n' * amount <= c - amount && (n' < |rest| ==> c - amount - n' * amount < amount)
        && s < |end.sellers| && end.sellers[s].credit == c - amount - n' * amount by {
      SerializedSales(next, user, phone, amount, rest, suffix, now);
    }
    assert Committed(st, cmds) == 1 + n' && Run(st, cmds) == end by {
      SaleStep(st, user, phone, amount, uuids, suffix, now);
    }
    CommitKeepsBound(n', Committed(st, cmds), |rest|, c, amount);
  }
}
