# External settlement notification service — Dafny model

The service collects one settlement confirmation per participant for a
settlement that the ledger hub holds, and declares the settlement finalized
once it has heard from enough participants. For each
`POST /external-settlement/{settlementId}` the handler does the following:

1. It rejects a falsy `participantId` (400).
2. It reads the settlement from the hub. A request that raised gives 503, and any reply other than 200 gives 404.
3. It accepts only the states `PS_TRANSFERS_RECORDED`, `PS_TRANSFERS_RESERVED`,
   `PS_TRANSFERS_COMMITTED` and `SETTLED` (400 otherwise).
4. It takes the participant list (`participants`, else `participantSettlements`, else empty). It requires
   `str(p.id or p.participantId) == str(participantId)` for some entry (403 otherwise).
5. It appends a row to the notifications table only when no row exists yet for (settlement, participant).
6. It counts the settlement's rows against the length of the same snapshot's list. It returns `FINALIZED`
   (attempting an advisory `PUT {"state": "SETTLED"}` unless the state already is `SETTLED`) or `PENDING_QUORUM`.

`GET /external-settlement/{settlementId}/status` reports the settlement's row
count and one detail line per row. Two directory helpers are also modelled. One
finds a participant's notification e-mail endpoint. The other builds the map
from account id to participant information.

Layout:

- `values.dfy` (module `Values`): JSON scalars (null, integer, string). It defines Python truthiness, the
  value-returning `or`, and `str()`, including the decimal text of integers.
- `hub.dfy` (module `Hub`): the hub read as a value (`Unreachable | Answered(status, body)`), the state gate,
  the participant list and the membership test.
- `store.dfy` (module `Store`): the `Record` row, the queries, the status report, and the
  `NotificationStore` class whose `seq<Record>` the handler appends to.
- `reconciliation.dfy` (module `Reconciliation`): `Validate`, the specification function `Handle`, and the
  imperative handler `NotifyExternalSettlement`, proved equal to `Handle`.
- `quorum.dfy` (module `Quorum`): properties of one call and of sequences of calls.
- `directory.dfy` (module `Directory`): the e-mail endpoint search and the account-map fold, as loop methods
  proved against specification functions.

What the handler does not do, as the code stands:

- It does no amount or currency validation.
- It does not push per-account state to the hub.
- It attempts the settlement `PUT` once, with `SETTLED`, and never retries it with another state.
- The table has no uniqueness constraint on (settlement, participant); only the lookup before the insert keeps pairs unique.
- An unparsable `settledAt` fails the request with 500 before anything is written.

Behaviour of the code kept as written:

- A hub entry with neither `id` nor `participantId` is keyed by the text `"None"` (Python's
  `str(None)`), so a request whose `participantId` is the string `"None"` passes the membership test
  (`Hub.IdlessEntryMatchesNoneText`, `Hub.NoneTextMatches`).
- An entry whose `id` is `0` falls back to its `participantId` (`Hub.ZeroIdFallsBack`).
- A zero or empty `amount` is stored as null.
- Quorum compares a row count with the length of the current snapshot's list. Rows of participants that
  an earlier snapshot listed and this one does not still count, so `FINALIZED` can come back while a
  listed participant has not notified (`Quorum.StaleRowsCountTowardQuorum`).

Assumptions: participant ids are stored and compared as the text a String column holds. An integer id
is kept as its decimal digits. The status query's detail lines come in insertion order.

## Model

| member | source | states |
|---|---|---|
| `Values.Truthy` | main.py:133 | `not participant_id` holds exactly for null, the integer 0 and the empty string |
| `Values.Or` | main.py:158-159 | Python's `a or b` yields `a` when it is truthy and `b` otherwise, whatever `b` is |
| `Values.ToStr` | main.py:159 | `str()` keeps a string, prints null as "None" and an integer as digits (with a leading minus), so the text "None" comes only from null or the string "None" |
| `Values.IntToDecimalInjective` | main.py:159 | `str()` of two integers is the same text only when the integers are equal, so comparing ids as strings loses nothing for integer ids |
| `Values.Column` | main.py:177-178 | a null payload field is stored as null; any other value is stored as its text |
| `Hub.StateAllowed` | main.py:152-154 | the state gate passes exactly the four strings of the allow-list and nothing else (a non-string state or any other string fails) |
| `Hub.ParticipantsList` | main.py:158 | the list is `participants` when present and non-empty, else `participantSettlements` when present and non-empty, else empty |
| `Hub.EmptyListHasNoMember` | main.py:158-159 | no participant id belongs to an empty list |
| `Hub.EntryKey` | main.py:159 | an entry is keyed by the text of its `id` when that is truthy, else by the text of its `participantId`; the key is "None" exactly when `id or participantId` is null or the string "None" |
| `Hub.IsMember` | main.py:159 | a participant id belongs to the list exactly when some entry of the list has the id's text as its key |
| `Hub.IntIdMatch` | main.py:159 | an integer entry id matches an integer participant id exactly when they are equal, and matches the string of its own decimal digits |
| `Hub.ZeroIdFallsBack` | main.py:159 | a falsy `id` of 0 is skipped by `or`, so the entry is keyed by its `participantId` |
| `Hub.NoneTextMatches` | main.py:159 | the request id "None" is a member exactly when some entry's `id or participantId` is null or the string "None" |
| `Hub.IdlessEntryMatchesNoneText` | main.py:159 | any list holding an entry with neither key admits the request id "None" |
| `Store.RecordsOf` | main.py:185-187 | the rows of one settlement are exactly the store's rows with that settlement id, each as often as the store holds it, and none are invented |
| `Store.CountFor` | main.py:185-187 | a settlement's count never exceeds the number of rows in the store |
| `Store.HasRecord` | main.py:165-170 | a pair is recorded exactly when the participant is among the settlement's recorded participants |
| `Store.FirstMatch` | main.py:165-168 | the `.first()` query finds a row exactly when some row holds the (settlement, participant) pair, and what it finds holds that pair |
| `Store.RecordsOfAppend` | main.py:181-187 | appending a row extends only its own settlement's rows, by that row |
| `Store.CountForGrows` | main.py:181-187 | appending rows never lowers any settlement's count |
| `Store.CountIsDistinctParticipants` | main.py:185-187 | when no pair occurs twice, a settlement's count equals the number of distinct participants recorded for it |
| `Store.StatusOf` | main.py:210-219 | the status report carries the requested settlement id, and `notificationCount` equals both the number of detail lines and the settlement's row count |
| `Store.StatusDetailsAreTheSettlementRows` | main.py:220-226 | every detail line is (participant, reference, settledAt) of a row of that settlement, and every such row has its line |
| `Store.StatusCountsDistinctParticipants` | main.py:217-219 | with unique pairs, `notificationCount` is the number of distinct participants that notified |
| `Store.NotificationStore.Status` | main.py:210-227 | the status query on the store echoes the settlement id, and its count equals the number of detail lines and the settlement's row count |
| `Store.NotificationStore.Add` | main.py:181-182 | `db.add` and `db.commit` append exactly the new row |
| `Reconciliation.HttpStatus` | main.py:133-162 | each refusal carries a 4xx or 5xx status: 400, 503, 404, 400, 403, and 500 for an uncaught exception |
| `Reconciliation.Validate` | main.py:127-162 | the checks run in source order, and each refusal is stated with the condition that triggers it. A notification passes exactly when the id is truthy, the hub answered 200 with an object, the state is allowed and the id is a member. A pass carries a non-empty list and the id as text |
| `Reconciliation.StripZ` | main.py:172 | `replace("Z", "")` leaves no `Z`, changes a string without `Z` not at all, and drops a lone `Z` while keeping any other single character |
| `Reconciliation.StripZCounts` | main.py:172 | the result keeps every character other than `Z` exactly as often as the input has it, so it is shorter by exactly the number of `Z`s |
| `Reconciliation.StripZConcat` | main.py:172 | removing `Z`s works piecewise, so the characters that stay keep their order |
| `Reconciliation.SettledAt` | main.py:172 | a falsy `settledAt` takes the clock. A non-empty string is parsed with its `Z`s removed. A non-string value makes the request fail |
| `Reconciliation.StoredAmount` | main.py:176 | the amount is stored (as its text) exactly when it is truthy, else null |
| `Reconciliation.NewRecord` | main.py:173-180 | a new row carries the settlement id, the participant id as text, the amount as its text when truthy, the currency and reference as sent, the parsed `settledAt`, and the clock as `created_at` |
| `Reconciliation.Conclude` | main.py:184-208 | the reply is FINALIZED exactly when the count reaches the list length, else PENDING_QUORUM. The PUT is attempted exactly on FINALIZED with a state other than SETTLED. The store is unchanged |
| `Reconciliation.Handle` | main.py:117-208 | A refusal writes nothing and attempts no PUT. A notification that passes validation is refused only when its pair is new and its `settledAt` does not parse, and then with 500. A new valid pair is recorded as exactly the row built from the payload. At most one row is added, only for a pair not yet recorded. An existing pair is never added again. An accepted notification leaves its pair recorded. FINALIZED holds exactly when the count reaches the snapshot's list length. The PUT is attempted exactly on FINALIZED when the state is not SETTLED |
| `Reconciliation.NotifyExternalSettlement` | main.py:117-208 | the step-by-step handler leaves the store and returns the reply and the PUT flag exactly as `Handle` specifies |
| `Quorum.MissingIdRefusedBeforeHubRead` | main.py:133-134 | a falsy participant id gets 400 whatever the hub would have answered, with the store unchanged and no PUT |
| `Quorum.HubReadFailures` | main.py:137-147 | a raised hub read gives 503 and a non-200 reply gives 404. Neither writes a row or attempts the PUT |
| `Quorum.StateGate` | main.py:152-155 | a notification is refused for its state exactly when the state is not one of the four allowed values, and then nothing is written |
| `Quorum.NonMemberForbidden` | main.py:158-162 | a participant matching no entry gets 403, with no row written and no PUT |
| `Quorum.EmptyListNeverFinalizes` | main.py:158-162 | with an empty participant list no notification is ever FINALIZED or written |
| `Quorum.OtherSettlementsUntouched` | main.py:165-182 | the rows of every other settlement are exactly what they were |
| `Quorum.FirstSubmissionAddsOneRow` | main.py:170-182 | a first submission that passes validation and whose `settledAt` parses is accepted, appends exactly the row built from its payload, and raises the settlement's count by one |
| `Quorum.FirstSubmissionReported` | main.py:176-182 | after such a submission the status report holds its (participant, reference, settledAt) line |
| `Quorum.SubmitTwiceSameAsOnce` | main.py:165-208 | sending the same notification again against the same snapshot gives the same reply and the same PUT attempt, and leaves the store as the first call left it |
| `Quorum.RunExtends` | main.py:165-182 | over any sequence of calls the store only grows, with earlier rows kept in place |
| `Quorum.CountNeverDecreases` | main.py:185-187 | over any sequence of calls no settlement's count drops and no recorded pair disappears |
| `Quorum.FinalizedIsStable` | main.py:165-190 | after a FINALIZED reply, whatever calls follow, the same participant's duplicate against the same snapshot is FINALIZED again and writes nothing |
| `Quorum.HandleKeepsPairsUnique` | main.py:165-182 | processed one at a time, a call never creates a second row for a pair |
| `Quorum.RunKeepsPairsUnique` | main.py:165-182 | over any sequence of calls the store keeps at most one row per pair |
| `Quorum.StatusCountIsDistinctNotifiers` | main.py:211-219 | for a store built by the handler, `notificationCount` is the number of distinct participants that notified |
| `Quorum.AllNotifiedMeansQuorum` | main.py:185-190 | when every participant of a list with distinct keys has a row, the count reaches the list length |
| `Quorum.StaleRowsCountTowardQuorum` | main.py:185-190 | the converse fails: rows of a participant the snapshot no longer lists count toward quorum |
| `Quorum.TwoParticipantScenario` | main.py:117-208 | a committed settlement with two participants gives PENDING_QUORUM with count 1 after the first, then FINALIZED with count 2 and the PUT attempted after the second |
| `Directory.GetParticipantEndpointEmail` | main.py:65-78 | the result is the `value` of the first endpoint of type `SETTLEMENT_TRANSFER_POSITION_CHANGE_EMAIL`. It is null when the call failed, the status was not 200, the body was unreadable or no endpoint matched |
| `Directory.BuildAccountToParticipantMap` | main.py:45-63 | the nested loops build the participant-by-participant, account-by-account fold. The map is empty when the call failed, the status was not 200 or any step raised |
| `Directory.FoldAccounts` | main.py:55-60 | one participant's account loop, when it does not raise, never drops a key of the map it started from |
| `Directory.FoldParticipants` | main.py:54-60 | the loop over participants, when it does not raise, never drops a key of the map it started from |
| `Directory.FoldAccountsMeaning` | main.py:55-60 | one participant's loop raises exactly when an account or the name lacks a key. Otherwise it adds every account id, and each id maps to the entry one of those accounts stores |
| `Directory.AccountMapMeaning` | main.py:52-63 | the map is missing exactly when some participant is malformed. Otherwise its keys are all account ids, and each value is the (name, currency, account type) of an account with that id |
| `Directory.LastParticipantWins` | main.py:56-60 | an id among the last participant's accounts maps to that participant's entry, overwriting earlier ones |
| `Directory.FoldAccountsStaysFailed` | main.py:62-63 | once an account raises, the whole participant's loop yields the failure |
| `Directory.FoldParticipantsStaysFailed` | main.py:62-63 | once any participant raises, the whole map is the failure, which the method turns into `{}` |

## Left out

- FastAPI routing, dependency injection, `get_db`, the `verify_api_key` check (commented out in the handler) and
  the health endpoint: framework plumbing.
- The HTTP calls themselves: SSL settings, timeouts and configuration loading. Each hub or directory
  call is a reply value passed in.
- The advisory `PUT`'s own outcome: the handler ignores it, and the model records only whether it was attempted.
- `send_stakeholder_notifications`, called on the FINALIZED branch after the row is committed: its alerts are
  prints and are not modelled, and the model has no flag for the call. Its two lookups are modelled separately
  (`Directory`). It can also raise: when an entry's `accounts` is a non-empty list whose first item is not an
  object, a non-empty object (`accounts[0]` fails), or holds an unhashable `id`. The request then ends with 500
  instead of FINALIZED while the row stays committed. This path is not modelled: the model's FINALIZED stands for
  the call returning.
- Timestamps are opaque values: `datetime.utcnow()` is the `now` input and `fromisoformat` is the
  `parseIso` input.
- Concurrent submissions: the table has no uniqueness constraint on (settlement, participant), so two
  simultaneous first submissions can both insert. The model handles calls one at a time, and
  `UniquePairs` holds only under that assumption.
- SQLAlchemy and schema creation. The row's auto-increment id is its position in the sequence, and
  result order is taken as insertion order.
- JSON values other than null, integers and strings are not modelled, for example floats and booleans for ids or amounts.
  Hub entries are assumed to be objects, and list fields are assumed to be lists when present. An entry that is not an object
  (a 500 in the source) is not modelled.
- Response message texts are not modelled; only the status and the outcome are.
