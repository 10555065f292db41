# Recharge balance engine in Dafny

This project models the part of the recharge system that moves money. A seller holds an integral credit. A phone number holds an integral balance. A charge sale moves an amount from a seller's credit to a phone's balance, at most once per transaction UUID. An administrator approves a seller's credit request, which adds its amount to the seller's credit, or rejects it. Every applied change of credit appends one row to the ledger (`Transaction`). The row records the seller's credit before and after the change.

The state is five tables (`Store.State`): sellers, phone numbers, credit requests, charge sales and the ledger. A row's primary key is its position. Each endpoint has two forms:

- a specification function from a state to a `Step` (the outcome plus the next state), in `Records`, `ChargeViews`, `CreditsViews` and `LegacyCreditsViews`;
- a method of the class `Engine.Database`, which updates its table fields in place and is proved equal to that function.

The locked processing endpoint has both forms twice: as written (`CreditsViews.ProcessAsWritten`, `Engine.Database.ProcessCreditRequestAsWritten`) and with the approval key corrected (`CreditsViews.Process`, `Engine.Database.ProcessCreditRequest`); see "Findings". Both share `CreditsViews.ProcessWithKey` and `Engine.Database.ProcessCreditRequestWithKey`, which take the key as a parameter.

The `transaction.atomic()` blocks of the charge sale and of the locked processing are functions and methods of their own: `ChargeLocked`/`ChargeAtomically` and `ProcessLocked`/`ProcessAtomically`. The older processing endpoint's block stays inline in `LegacyCreditsViews.ProcessLegacy` and `Engine.Database.ProcessCreditRequestLegacy`, because that endpoint re-reads nothing before it. Each block either commits every write or returns before making any. A write the database would refuse becomes the outcome `Fault` with nothing changed. The refused writes are an `idempotency_key` that is already taken, an `idempotency_key` longer than its 255-character column, and a value wider than a `DecimalField(max_digits=12, decimal_places=0)` column. A charge sale's key is `charge_sale_`, the UUID, `_` and a 36-character random UUID. So a UUID of more than 206 characters passes the serializer's 255-character limit but fails at this write.

`Store.Inv` is the invariant every state reachable from an empty database satisfies. It says:

- credits and balances lie between 0 and the column maximum;
- profiles, phone numbers, reference ids, UUIDs, ledger keys and ledger links are unique;
- every ledger row has `new_credit = previous_credit + amount` and a non-zero amount;
- every row's link names a cause with the same seller and amount;
- each seller's rows form a chain that ends at the seller's current credit;
- each seller's `charge_sale` rows sum to minus the seller's sales total.

The serializers' CharFields trim their input (`str.strip()`) before validating it. So a phone number, a reference id and a transaction UUID are checked and stored trimmed. A blank value, a value longer than its column, and a value holding a NUL character are refused as Invalid.

`System` runs sequences of commands and proves, over any history, that the following hold. A history may mix every endpoint: the locked processing as written, the same with the corrected key, and the older processing.

- the invariant holds;
- a request's status only ever leaves `pending`;
- the ledger and the sales only grow;
- credit and balance are conserved.

An administrator's plain edit of a request (`Records.UpdateCreditRequest`) may move a pending request to approved or rejected with no credit and no ledger row. The serializer allows this, and so does the model.

## Model

| member | source | states |
|---|---|---|
| AccountsModels.ProfileOf | recharge/recharge/accounts/models.py:33-37 | the caller's profile, when found, is a seller owned by that user; when absent, no seller belongs to the user |
| ChargeModels.SalesTotalUniform | recharge/credits/tests/test_system_integrity.py:370-382 | when all of a seller's sales have the same amount, their total is the number of sales times that amount |
| Ledger.Latest | recharge/credits/tests/test_system_integrity.py:280-288 | the latest row of a seller is a row of that seller with no row of that seller after it; when none is found, the seller has no rows |
| Ledger.ReplayReproducesCredit | recharge/credits/tests/test_system_integrity.py:260-267 | in a balanced ledger whose chain ends at `credit`, the opening credit plus the sum of the seller's amounts is `credit` |
| Ledger.LatestIsCurrent | recharge/credits/tests/test_system_integrity.py:280-291 | the latest row's `new_credit` equals the credit its chain ends at |
| Store.SellerReconciles | recharge/credits/tests/test_system_integrity.py:260-291 | under the invariant, a seller's credit is non-negative, equals its opening credit plus its ledger amounts, and equals its latest row's `new_credit`; its `charge_sale` rows sum to minus its sales total |
| ChargeViews.ChargeLocked | recharge/charge/views.py:56-138 | the atomic block: a missing phone or seller gives NotFound; a used UUID gives Duplicate; credit below the amount gives InsufficientCredit; a taken ledger key, a ledger key longer than 255 characters or a value wider than its column gives Fault. Each holds iff its condition does, with no change, and no other error occurs. On commit, exactly one successful sale and one linked `charge_sale` row of `-amount` are appended, the seller loses `amount`, the phone gains it, and no other seller or phone changes |
| ChargeViews.Charge | recharge/charge/views.py:39-143 | the endpoint, on the trimmed UUID: Invalid iff the amount is not positive, the phone is missing, or the UUID is blank, over 255 characters or holds a NUL; then Duplicate iff the UUID is taken; then NotSeller iff the caller has no profile; then InsufficientCredit and Fault iff the block gives them. No other error occurs, and no error changes anything. A commit is exactly the block's commit for the caller's own profile |
| ChargeViews.ChargedPreservesInv | recharge/charge/views.py:80-122 | a committed sale keeps the invariant, so the seller's credit stays non-negative and the new row balances |
| ChargeViews.ChargePreservesInv | recharge/charge/views.py:39-143 | the endpoint keeps the invariant whatever its outcome |
| ChargeViews.ChargeRetryIsDuplicate | recharge/charge/views.py:50-54 | after a committed sale, any retry with the same UUID is refused as Duplicate and changes nothing |
| ChargeViews.ChargeResendIsDuplicate | recharge/charge/views.py:45-54 | after a committed sale, resending the UUID as the sale stored it (trimmed) is refused as Duplicate and changes nothing |
| ChargeViews.LongUuidFaults | recharge/charge/views.py:100-113 | a sale that passes every other check, with a trimmed UUID and suffix longer than 242 characters together, ends in Fault with nothing changed, because its key exceeds the 255 characters of `idempotency_key` |
| ChargeViews.ChargeConserves | recharge/charge/views.py:80-85 | a committed sale lowers total credit by `amount` and raises total phone balance by `amount`; the ledger total and the `charge_sale` total each fall by `amount` |
| CreditsViews.ProcessLocked | recharge/recharge/credits/views.py:60-135 | the atomic block: a missing request gives NotFound; a non-pending request (re-read under lock) gives NotPending; a missing seller gives NotFound; a used key or an over-wide credit gives Fault. Each holds iff its condition does, with no change, and no other error occurs. Rejecting a pending request of an existing seller always commits, as RejectionApplied; an approval commits as CreditApplied with a row linked to the request |
| CreditsViews.ProcessWithKey | recharge/recharge/credits/views.py:43-135 | the endpoint: NotFound iff the request is missing (or its seller is, for a valid action on a pending request); NotPending iff it is not pending; BadAction iff the lower-cased action is neither approve nor reject; Fault iff an approval's key is taken or its credit too wide. No other error occurs. A valid rejection always commits; a commit is an approval (credit plus one row) or a rejection (status only) |
| CreditsViews.ProcessAsWritten | recharge/recharge/credits/views.py:90-102 | as written, an approval's ledger row gets the empty key |
| CreditsViews.Process | recharge/credits/views.py:64-65 | as intended, an approval's ledger row gets the key `credit_request_<id>_<suffix>` |
| CreditsViews.CreditAppliedPreservesInv | recharge/recharge/credits/views.py:81-106 | an approval with a fresh key, a link to the request (or none) and a credit that fits keeps the invariant |
| CreditsViews.RejectionPreservesInv | recharge/recharge/credits/views.py:112-120 | a rejection keeps the invariant |
| CreditsViews.ProcessPreservesInv | recharge/recharge/credits/views.py:43-135 | processing keeps the invariant whatever its outcome and key |
| CreditsViews.ProcessOnce | recharge/recharge/credits/views.py:48-52 | once a request is processed, every later process call on it, with any action, is NotPending and changes nothing |
| CreditsViews.ProcessConserves | recharge/recharge/credits/views.py:81-106 | an approval raises total credit and the ledger total by the requested amount, and changes neither phone balances nor the `charge_sale` total; a rejection changes no total |
| CreditsViews.AsWrittenApprovesOnlyOnce | recharge/recharge/credits/views.py:90-102 | as written, after one committed approval, every later approval fails |
| CreditsViews.AsWrittenSecondApprovalFails | recharge/recharge/credits/views.py:90-102 | as written, with two pending requests of one seller, the first approval commits, the second is a Fault, and the seller keeps only the first amount |
| CreditsViews.ApprovalSucceeds | recharge/recharge/credits/views.py:77-111 | as intended, a pending request of a valid state is approved whenever its key is unused and the new credit fits |
| CreditsViews.SecondApprovalSucceeds | recharge/recharge/credits/views.py:77-111 | as intended, the same two approvals both commit and the seller holds both amounts |
| LegacyCreditsViews.ProcessLegacy | recharge/credits/views.py:42-110 | the older endpoint: NotFound, NotPending and BadAction each iff its condition holds; Fault iff an approval finds no seller, a taken key or a credit too wide. No other error occurs. Rejecting a pending request always commits and changes only the request; an approval writes one keyed, unlinked row and credits the seller |
| LegacyCreditsViews.ProcessLegacyPreservesInv | recharge/credits/views.py:60-105 | the older endpoint keeps the invariant whatever its outcome |
| LegacyCreditsViews.LegacyMatchesLocked | recharge/credits/views.py:48-62 | run one request at a time, the older endpoint gives the same outcome and state as the locked one with the same key, apart from the approval row's link |
| Records.CreateSellerProfile | recharge/recharge/accounts/models.py:31-42 | creating a profile succeeds iff the user has none, and otherwise is Duplicate with no change; a new profile starts at credit 0 and becomes the user's profile |
| Records.RegisterPhoneNumber | recharge/recharge/charge/serializers.py:6-24 | on the trimmed number: Invalid iff it is not 1 to 20 ASCII digits; Duplicate iff it is taken; no other error. A new phone stores the trimmed number with balance 0 and no charge date |
| Records.SubmitCreditRequest | recharge/recharge/credits/serializers.py:5-37 | on the trimmed reference: Invalid iff the amount is not positive or the reference is blank, over 255 characters or holds a NUL; Duplicate iff the reference is taken; NotSeller iff the caller has no profile; no other error. A created request belongs to the caller's own profile and is pending with no processing time |
| Records.UpdateCreditRequest | recharge/recharge/credits/serializers.py:40-65 | an administrator's edit is NotFound iff the request is missing and Invalid iff the request is not pending and the status would change; no other error. Every other edit commits, changing only status and processing time |
| Records.CreateSellerProfilePreservesInv | recharge/recharge/accounts/models.py:31-42 | creating a profile keeps the invariant |
| Records.RegisterPhoneNumberPreservesInv | recharge/charge/models.py:7-21 | creating a phone keeps the invariant |
| Records.SubmitCreditRequestPreservesInv | recharge/credits/models.py:9-41 | submitting a request keeps the invariant |
| Records.UpdateCreditRequestPreservesInv | recharge/recharge/credits/serializers.py:56-65 | an administrator's edit keeps the invariant |
| System.ApplyPreservesInv | recharge/credits/tests/test_system_integrity.py:260-291 | every command keeps the invariant |
| System.RunPreservesInv | recharge/credits/tests/test_system_integrity.py:260-291 | every history from a valid state ends in a valid state, so credit is never negative and every row balances |
| System.ApplyExtends | recharge/recharge/credits/serializers.py:56-65 | one command only appends to the ledger and the sales, keeps every request's reference, seller, amount and creation time, and never changes the status of a non-pending request |
| System.RunExtends | recharge/recharge/credits/serializers.py:56-65 | the same over any history: status only ever leaves pending, and the ledger and the sales are append-only |
| System.ApplyConserves | recharge/credits/tests/test_system_integrity.py:269-277 | one command changes total credit by exactly its new ledger amounts, and total phone balance by minus its new `charge_sale` amounts |
| System.CreditAppliedConserves | recharge/credits/views.py:73-92 | an approval from either endpoint adds the requested amount to total credit and to the ledger total, and nothing to balances |
| System.RunConserves | recharge/credits/tests/test_system_integrity.py:269-277 | over any history, the credit sellers gained is the ledger's net amount, and the balance phones gained is the credit sales took |
| System.ProfileKeepsOpenings | recharge/recharge/accounts/models.py:38-42 | creating a profile changes no existing seller's opening credit, and the new seller, which has no ledger rows, opens at the default credit of 0 |
| System.ApplyKeepsOpenings | recharge/recharge/credits/views.py:81-102 | from a valid state, no command changes a seller's opening credit: every row written records the seller's credit before it as `previous_credit`; a seller created by the command opens at 0 |
| System.RunKeepsOpenings | recharge/credits/tests/test_system_integrity.py:260-291 | over any history from a valid state, every seller keeps its opening credit, and every seller created on the way opens at 0 |
| System.RunFromEmpty | recharge/credits/tests/test_system_integrity.py:260-277 | from an empty database, total credit equals the ledger total, total phone balance equals minus the `charge_sale` total, and their sum is what approvals put in; each seller's credit is exactly the sum of its own rows |
| System.ChargeKeyInjective | recharge/charge/views.py:100 | different UUIDs give different ledger keys under the same suffix |
| System.SaleCommits | recharge/charge/views.py:73-122 | the first sale of a ready batch commits when the credit covers it, and the rest of the batch stays ready |
| System.SaleRefused | recharge/charge/views.py:73-77 | the first sale of a ready batch is InsufficientCredit with no change when the credit does not cover it |
| System.SerializedSales | recharge/credits/tests/test_system_integrity.py:353-367 | n equal sales against credit c commit exactly min(n, floor(c / amount)) times (n·amount ≤ c, and c − n·amount < amount when some were refused), and leave c − n·amount |
| Engine.Database.constructor | recharge/recharge/accounts/models.py:31-42 | an empty database, which satisfies the invariant |
| Engine.Database.CreateSellerProfile | recharge/recharge/accounts/models.py:31-42 | updates the tables exactly as `Records.CreateSellerProfile` and keeps the invariant |
| Engine.Database.RegisterPhoneNumber | recharge/recharge/charge/serializers.py:21-24 | updates the tables exactly as `Records.RegisterPhoneNumber` and keeps the invariant |
| Engine.Database.SubmitCreditRequest | recharge/recharge/credits/serializers.py:28-37 | updates the tables exactly as `Records.SubmitCreditRequest` and keeps the invariant |
| Engine.Database.UpdateCreditRequest | recharge/recharge/credits/serializers.py:56-65 | updates the tables exactly as `Records.UpdateCreditRequest` and keeps the invariant |
| Engine.Database.CreateChargeSale | recharge/charge/views.py:39-143 | updates the tables exactly as `ChargeViews.Charge` and keeps the invariant |
| Engine.Database.ChargeAtomically | recharge/charge/views.py:56-127 | updates the tables exactly as `ChargeViews.ChargeLocked` |
| Engine.Database.ProcessCreditRequestWithKey | recharge/recharge/credits/views.py:43-135 | updates the tables exactly as `CreditsViews.ProcessWithKey` and keeps the invariant |
| Engine.Database.ProcessCreditRequestAsWritten | recharge/recharge/credits/views.py:90-102 | updates the tables exactly as `CreditsViews.ProcessAsWritten`, the endpoint as written, and keeps the invariant |
| Engine.Database.ProcessCreditRequest | recharge/credits/views.py:64-65 | updates the tables exactly as `CreditsViews.Process`, the locked endpoint with the corrected key, and keeps the invariant |
| Engine.Database.ProcessAtomically | recharge/recharge/credits/views.py:60-120 | updates the tables exactly as `CreditsViews.ProcessLocked` |
| Engine.Database.ProcessCreditRequestLegacy | recharge/credits/views.py:42-110 | updates the tables exactly as `LegacyCreditsViews.ProcessLegacy` and keeps the invariant |

## Left out

- Concurrency: row locks (`select_for_update`), lock order, statement timeouts and the threaded test. Each atomic block runs alone. `SerializedSales` is the sequential counterpart of the concurrent test.
- HTTP: response bodies and status codes, routers, `get_queryset` filtering and the ledger's search and ordering options. Outcomes are the `Store.Error` values.
- Permissions: the role checks of the views, and the user's role flags.
- Defaults no endpoint relies on: a ledger row's `'processing'` status and a sale's `'successful'` status. Every write in the model sets the status explicitly.
- `timezone.now()` and `uuid.uuid4()` are parameters: `now` and the key `suffix`. Every `created_at` is the `now` of the call that writes the row.
- `Ledger.Latest` takes a seller's last appended row as its latest. The source orders by `created_at`, and the two agree only while `now` never decreases from one call to the next. A clock that goes back is out of scope.
- Management commands. The seller-creation command sets credit with no ledger row, so replay starts from `Ledger.Opening`, not from 0.
- Primary keys are positions in the tables. They are 0-based where the database's are 1-based, which changes only the digits inside a `credit_request_<id>_…` key.
- Time stamps that nothing reads: `created_at`/`updated_at` on sellers and phones, a ledger row's `created_at`/`completed_at` beyond what is recorded, and the description text beyond its prefix.
- Serializer uniqueness: the unique validators DRF derives from the model are folded into the endpoints' Duplicate outcome. A phone id that does not exist is Invalid, because the serializer's related field refuses it before the view's own lookup.
- String handling: `str.lower()` and `str.isdigit()` are read as ASCII. Trimming removes the ASCII whitespace of `str.strip()` (tab to carriage return, 0x1C to 0x1F, and space); Unicode spaces beyond ASCII are not removed.
- Numbers: amounts are whole numbers (`decimal_places=0`). Fractional input and the database's own rounding are out of scope. The 12-digit column limit is enforced as a Fault inside the blocks.
- Partial updates (PATCH) of a credit request, deleting rows, and editing phones or sales after creation.
- The `action` field is taken to be a string. A non-string value, which would make `.lower()` raise before any write, is out of scope.

## Findings

| source | as written | input that shows it | evidently intended | confidence | as-written member | corrected member |
|---|---|---|---|---|---|---|
| recharge/recharge/credits/views.py:90-102 | the approval's `Transaction.objects.create` passes no `idempotency_key`, so the row gets the CharField default `""`, and the column is unique | two pending requests approved one after the other: the second insert violates the unique key, the block rolls back, and the endpoint answers 500 | a key of its own per approval, `credit_request_<id>_<uuid4>`, as the older endpoint writes (recharge/credits/views.py:64-65) | not executed | CreditsViews.ProcessAsWritten, CreditsViews.AsWrittenSecondApprovalFails | CreditsViews.Process, CreditsViews.ApprovalSucceeds |
