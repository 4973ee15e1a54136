# Payment guarantees of the XRPL x402 stack

A Dafny model of the protocols in this repository that decide whether a payment is made, made
once, and reported truthfully, with proofs about all inputs and all runs.  `dafny verify
dfyconfig.toml` checks the project.

## What is modelled

| part | modules | form |
|---|---|---|
| Settlement store | `SettlementStore` | classes over a map, proved against a join |
| Facilitator settlement | `XrplLedger`, `Settlement`, `SettlementSafety`, `SettlementBroadcast`, `SettlementEviction`, `SettlementPrompt`, `SettlementAgreement`, `SettlementForesight`, `SettlementAnswers`, `SettlementReach`, `SettlementRuns` | every `settle` call is a program counter; calls of any number of instances interleave and crash over one store and one growing ledger |
| Settle endpoint | `SettleEndpoint`, `SettleEndpointAnswers`, `SettleEndpointLate`, `SettleEndpointRuns` | the identifier cache in front of settlement, Redis command by Redis command, with key expiry anywhere |
| Payer journal | `ReceiptJournal`, `PayerAttempts`, `PayerLeases`, `PayerRuns`, `SpendBudget` | a class for the journal; callers that claim, sign, persist, dispatch, record and crash; the budget read off the log |
| Paid handlers | `PaidHandler`, `PaidHandlerAnswers`, `PaidHandlerExpiry`, `PaidHandlerRuns` | bind, get and put of many requests on one key, with expiry between any two commands |
| RLUSD funding | `RlusdQuote`, `RlusdFunding`, `RlusdTrustLine`, `RlusdFundingRuns` | exact quote arithmetic; runs and crashes over a one-entry write-ahead journal |
| Signing and verifying | `PaymentShape`, `SignedPayments`, `PaymentReasons`, `CurrencyCodes`, `AsciiText` | pure checks over text fields |
| Paging | `TicketPaging`, `Discovery` | loops over page markers; the catalogue class and its cursor walk |

A run is a sequence of steps; a theorem about "every run" quantifies over all such sequences from an
initial state.  Each protocol keeps a log of its events in the state, and the theorems speak about
the log and the ledger; only the exact conditions name how far a call has got.

## Assumptions of the model

- Transaction hashes, request fingerprints and invoice hashes are injective; owner tokens are fresh.
- The validated ledger index never goes backwards, a validated answer never changes, a transaction
  is included at most once and not after its `LastLedgerSequence`, and a failed (`tec`) inclusion
  uses its sequence or ticket.
- `searched_all` is true only when every ledger up to `LastLedgerSequence` is available.  The code
  looks a transaction up before it reads the current ledger, so it depends on this.
- Inclusion below the recorded first ledger is possible in the model, since the payer holds the
  signed blob and the facilitator reads that index only after verifying.
- A lookup bounded below by the recorded first ledger may or may not return a transaction included
  before it; both answers are allowed.
- Every journal operation is one atomic, durable step under its lock.
- The XRPL codec keeps values; how it spells a currency on decoding is a parameter.
- Decimals are exact.

## Where the code does less than its documentation says

The code is modelled as it is.  Each case has a run or input that shows it, and the condition under
which the promise holds.

- "Identical retries never rebroadcast": a call that verified before a settlement and reserves after
  the record's eviction submits again (`SlowCallBroadcastsAgain`).  An eviction allows another
  submission exactly when some call for the hash is already submitting, or has passed its checks with
  LastLedgerSequence still ahead (`EvictionAllowsSubmitExactlyWhen`); without such evictions there is
  one broadcast ever (`AtMostOneBroadcastEver`).
- "transaction_expired" can be answered for a transaction that validated.  This happens when the payer
  broadcasts by itself and is included before the facilitator's first-ledger read
  (`EarlyInclusionBreaksAgreement`, in a run without evictions), and without any outside broadcast when
  a slow call reserves again after a prompt eviction (`SlowCallBreaksAgreement`).  The exact condition: once the transaction is included
  and no record overlooks it, different answers to one request are possible in some continuation if
  and only if some call has passed its checks and has yet to read its first ledger, or has read one
  past the inclusion (`AnswersCanSplitExactlyWhen`); for retries of a pending record past
  LastLedgerSequence, if and only if the transaction was included below its recorded first ledger
  (`RetriesDisagreeExactlyWhen`).  An operator's rule that excludes both: if the transaction reaches
  the ledger only through the facilitator's submission, and records are evicted only when no call can
  reserve again, all answers agree and an expired transaction never validates
  (`FacilitatedAnswersAgree`); that eviction rule is exact for a second reservation
  (`EvictionAllowsReserveExactlyWhen`).
- A settle response stored after its request lost the identifier key, which may since be bound again,
  is served to another request (`LatePutAnswersAnotherRequest`), which can be a false success
  (`LatePutServesFalseSuccess`).  Storing can lead to a foreign answer being served if and only if the
  key does not carry the storing request's fingerprint any more (`PutHarmsExactlyWhenLost`, and over
  whole runs `LatePutHarmsExactlyWhenLost`).
- A second failure that reports the same transaction text leaves the attempt and its payload in place
  (`FailureRemovesExactlyWhenFirst`, `RepeatedFailureRemovesNothing`); a failure of an earlier payload
  removes a later one (`FailureOfAnyPayloadRemoves`, `OldFailureRemovesNewPayload`).
- A lease holds other callers back for 30 seconds only if no outcome is reported for its fingerprint: a
  caller that still holds an older payload and is interrupted reports it as pending, which resets the
  lease of a new claim (`OldReportCancelsLease`).  `LeaseIsExclusive` lists every way in which a lease
  ends early.
- A stale authorization that a cached response vouched for reruns the handler if the key expires
  between the two reads (`ExpiryLetsStaleStart`, `StaleAuthorizationRunsTwice`), and only then
  (`StaleStartsOnlyAfterExpiry`); a handler that outlives its key has its response replayed in a later
  epoch (`LatePutIsReplayed`, `LateResponseIsReplayed`); an expiry allows that exactly when some
  request is still active on the key (`ExpiryIsUnsafeExactlyWhenActive`).
- Extra fields with outer white space are signed trimmed but compared raw, so such a signed payment is
  refused (`SignedPassesStructure`, `UntrimmedSampleIsRefused`).
- The ledger's hexadecimal spelling of a three-character code passes the shape check
  (`IsoHexHasShape`) but no facilitator with normalised asset settings serves it
  (`IsoHexIsNeverServed`).
- The facilitator's payment-flow mismatch is never reported (`FlowReasonIsNeverGiven`).
- The structural check's own reasons for memos, delegates, paths and DeliverMin are never reached
  (`FieldReasonIsNeverGiven`).

## Model

| member | source | states |
|---|---|---|
| `SettlementStore.RedisSettlementStore.Get` | packages/facilitator/src/xrpl_x402_facilitator/replay_store.py:61-67 | shows the entry stored under the upper-cased hash, or none |
| `SettlementStore.RedisSettlementStore.ReserveKey` | packages/facilitator/src/xrpl_x402_facilitator/replay_store.py:69-79 | acquires exactly when the hash is free; a pending record gets no expiry; nothing else changes |
| `SettlementStore.RedisSettlementStore.UpdateKey` | packages/facilitator/src/xrpl_x402_facilitator/replay_store.py:10-42 | the Lua script equals the monotonic join of the specification, and reports a write only when the body was stored |
| `SettlementStore.InMemorySettlementStore.ReserveKey` | packages/facilitator/src/xrpl_x402_facilitator/replay_store.py:102-109 | acquires exactly when the hash is free |
| `SettlementStore.InMemorySettlementStore.UpdateKey` | packages/facilitator/src/xrpl_x402_facilitator/replay_store.py:111-124 | equals the in-memory update rule |
| `SettlementStore.ExpiryFollowsStatus` | packages/facilitator/src/xrpl_x402_facilitator/replay_store.py:25-36 | in every history with evictions anywhere, a key has an expiry exactly when its status is terminal, so a pending reservation cannot be evicted |
| `SettlementStore.StoresAgree` | packages/facilitator/src/xrpl_x402_facilitator/replay_store.py:91-124 | after every eviction-free history the Lua store and the in-memory store show the same values |
| `SettlementStore.UpdatesNeverCreate` | packages/facilitator/src/xrpl_x402_facilitator/replay_store.py:13-17 | updates never create a key and touch only the key they name |
| `SettlementStore.FinalStatusIsHighest` | packages/facilitator/src/xrpl_x402_facilitator/replay_store.py:18-41 | whatever the order, the final status is the highest rank offered |
| `SettlementStore.FirstWinnerIsKept` | packages/facilitator/src/xrpl_x402_facilitator/replay_store.py:18-41 | the first record that reached the winning terminal rank is kept; while all are pending, the latest |
| `SettlementStore.OrderIndependent` | packages/facilitator/src/xrpl_x402_facilitator/replay_store.py:18-41 | any two orders of the same updates end in the same status |
| `SettlementStore.FinalStatusByName` | packages/facilitator/src/xrpl_x402_facilitator/replay_store.py:18-41 | after any updates in any order: validated if any was validated, otherwise failed if any was failed, otherwise pending |
| `SettlementStore.ValidatedIsFinal` | packages/facilitator/src/xrpl_x402_facilitator/replay_store.py:25-37 | no series of updates changes a validated record |
| `SettlementStore.FailedYieldsToValidated` | packages/facilitator/src/xrpl_x402_facilitator/replay_store.py:25-37 | a failed record yields to the first validated update and to nothing else |
| `SettlementStore.MemoryUpdateByName` | packages/facilitator/src/xrpl_x402_facilitator/replay_store.py:111-124 | in memory a pending record takes anything, a failed one only a validated update, a validated one nothing |
| `XrplLedger.CloseGrows` | packages/facilitator/src/xrpl_x402_facilitator/xrpl_service.py:1122-1169 | closing any ledger keeps answers, spent slots and the at-most-once rule that the lookups rely on |
| `XrplLedger.SpentStaysUnavailable` | packages/facilitator/src/xrpl_x402_facilitator/xrpl_service.py:698-725 | a used sequence or ticket never passes the account check again |
| `Settlement.JudgeSucceedsExactly` | packages/facilitator/src/xrpl_x402_facilitator/xrpl_service.py:1254-1286 | a validated answer is a success exactly when it is tesSUCCESS and delivered the required amount, asset and issuer |
| `SettlementAnswers.JudgeReasonExactly` | packages/facilitator/src/xrpl_x402_facilitator/xrpl_service.py:1254-1286 | which failure reason a validated answer gets, case by case |
| `SettlementAnswers.ReadAnswersExactly` | packages/facilitator/src/xrpl_x402_facilitator/xrpl_service.py:228-250 | a stored hash answers a mismatch exactly for another fingerprint, the stored record exactly if it is the request's own and terminal, and nothing exactly if it is pending |
| `SettlementAnswers.MismatchIsTheOnlyAnswer` | packages/facilitator/src/xrpl_x402_facilitator/xrpl_service.py:282-297 | in every run a call that reads its hash while another fingerprint holds it responds with the mismatch and nothing else |
| `SettlementAnswers.MissExactly` | packages/facilitator/src/xrpl_x402_facilitator/xrpl_service.py:252-288 | a first miss verifies, a second one answers pending |
| `SettlementAnswers.VerifiedExactly` | packages/facilitator/src/xrpl_x402_facilitator/xrpl_service.py:662-725 | verification passes its ledger checks exactly within the window and with an available slot |
| `SettlementAnswers.PendingExactly` | packages/facilitator/src/xrpl_x402_facilitator/xrpl_service.py:994-1120 | a step answers pending exactly where the outcome is unknown |
| `SettlementAnswers.PollsRunOut` | packages/facilitator/src/xrpl_x402_facilitator/xrpl_service.py:994-1053 | a call that never sees its transaction polls as often as it may and then answers pending |
| `SettlementAnswers.OutcomeIsStored` | packages/facilitator/src/xrpl_x402_facilitator/xrpl_service.py:1008-1050 | an outcome replaces a pending record, a success also a failed one, and nothing replaces a success |
| `SettlementAnswers.OneResponsePerCall` | packages/facilitator/src/xrpl_x402_facilitator/xrpl_service.py:205-326 | in every run a call responds at most once |
| `SettlementSafety.StepKeepsInv` | packages/facilitator/src/xrpl_x402_facilitator/xrpl_service.py:205-326 | each step of any call keeps every record, call and logged response backed by the ledger |
| `SettlementSafety.TerminalResponsesAgree` | packages/facilitator/src/xrpl_x402_facilitator/xrpl_service.py:994-1169 | over every interleaving, crash and eviction, two terminal responses to one request agree on success and reason, if the transaction was not included below the first ledger of either record |
| `SettlementSafety.DisagreementIsEarlyInclusion` | packages/facilitator/src/xrpl_x402_facilitator/xrpl_service.py:1055-1120 | over every run, two terminal responses differ exactly when only one says expired, and then the transaction was included below the first ledger of the record behind it |
| `SettlementAgreement.RetriesDisagreeExactlyWhen` | packages/facilitator/src/xrpl_x402_facilitator/xrpl_service.py:1055-1169 | two fresh retries of a pending record past LastLedgerSequence can give different answers if and only if the transaction was included below the stored record's first ledger |
| `SettlementForesight.AnswersCanSplitExactlyWhen` | packages/facilitator/src/xrpl_x402_facilitator/xrpl_service.py:252-326 | from any state in which the transaction is included with an answer that can be judged for every requirement, and no record overlooks it, some continuation gives two different answers to one request if and only if a call for it has passed its checks and has yet to read its first ledger, or read one past the inclusion |
| `SettlementAgreement.FacilitatedAnswersAgree` | packages/facilitator/src/xrpl_x402_facilitator/xrpl_service.py:205-326 | if the transaction reaches the ledger only after the facilitator submitted it and its own record is evicted only when no call can still reserve it, any two answers to one request agree, and expired is answered only for a transaction that never validates |
| `SettlementSafety.ExpiredNeverValidates` | packages/facilitator/src/xrpl_x402_facilitator/xrpl_service.py:1092-1114 | an expired answer stays true: no ledger from the recorded first one on ever holds the transaction |
| `SettlementSafety.SuccessIsHonest` | packages/facilitator/src/xrpl_x402_facilitator/xrpl_service.py:1000-1030 | every success rests on a validated tesSUCCESS of that hash with exactly the required delivery |
| `SettlementBroadcast.AtMostOneBroadcast` | packages/facilitator/src/xrpl_x402_facilitator/xrpl_service.py:278-305 | in every run a transaction is submitted at most once more than its record was evicted, so at most once while it is not evicted |
| `SettlementEviction.SettledIsNeverSubmittedLater` | packages/facilitator/src/xrpl_x402_facilitator/xrpl_service.py:662-725 | in every run, a call that begins to verify a transaction after it was settled never submits, evicted or not |
| `SettlementEviction.EvictionAllowsSubmitExactlyWhen` | packages/facilitator/src/xrpl_x402_facilitator/xrpl_service.py:252-305 | after a record's eviction some continuation submits the transaction again if and only if a call for it is submitting, or reserving with a first ledger below LastLedgerSequence, or verified with the index still below it |
| `SettlementEviction.EvictionAllowsReserveExactlyWhen` | packages/facilitator/src/xrpl_x402_facilitator/xrpl_service.py:252-280 | after a record's eviction some continuation reserves the hash again if and only if a call for it is reserving, verified, or at its account check with an unspent slot |
| `SettlementPrompt.AtMostOneBroadcastEver` | packages/facilitator/src/xrpl_x402_facilitator/xrpl_service.py:228-305 | if records are evicted only when no call can still submit, a transaction is submitted at most once ever |
| `SettlementPrompt.OneRequestPerHash` | packages/facilitator/src/xrpl_x402_facilitator/xrpl_service.py:228-250 | if records are evicted only when no call can still reserve, one hash answers for one request, and that request is never told it mismatches |
| `SettlementRuns.OneCallSettles` | packages/facilitator/src/xrpl_x402_facilitator/xrpl_service.py:205-326 | a concrete run reserves, broadcasts and answers success |
| `SettlementRuns.SlowCallBroadcastsAgain` | packages/facilitator/src/xrpl_x402_facilitator/xrpl_service.py:252-305 | a reachable run in which a call that outlives the record's time to live broadcasts a settled transaction again |
| `SettlementRuns.EarlyInclusionBreaksAgreement` | packages/facilitator/src/xrpl_x402_facilitator/xrpl_service.py:266-280 | a clean run without any eviction, which breaks only the rule that the facilitator submits first, in which two answers to one request differ |
| `SettlementRuns.SlowCallBreaksAgreement` | packages/facilitator/src/xrpl_x402_facilitator/xrpl_service.py:266-303 | a run with prompt evictions only, in which the transaction is included only after a submission, that is not clean and in which two answers to one request differ |
| `SettleEndpoint.PaymentIdentifierStore.Bind` | packages/facilitator/src/xrpl_x402_facilitator/idempotency.py:32-66 | the first fingerprint owns the key; another one is refused and changes neither key nor expiry |
| `SettleEndpoint.PaymentIdentifierStore.GetCached` | packages/facilitator/src/xrpl_x402_facilitator/idempotency.py:68-78 | returns the stored response only to the owner of the key |
| `SettleEndpoint.PaymentIdentifierStore.Put` | packages/facilitator/src/xrpl_x402_facilitator/idempotency.py:80-90 | stores the response whoever owns the key, and renews its expiry |
| `SettleEndpointAnswers.ConflictExactly` | packages/facilitator/src/xrpl_x402_facilitator/idempotency.py:51-66 | a request conflicts exactly when the key already carries another fingerprint, which stays |
| `SettleEndpointAnswers.CacheReadExactly` | packages/facilitator/src/xrpl_x402_facilitator/factory.py:318-334 | a stored answer that is not pending is served without settling, everything else settles |
| `SettleEndpointAnswers.CollectExactly` | packages/facilitator/src/xrpl_x402_facilitator/factory.py:330-350 | a pending answer is served and forgotten, any other one is stored and served |
| `SettleEndpointAnswers.KeysSeparate` | packages/facilitator/src/xrpl_x402_facilitator/idempotency.py:24-30 | requests share a key exactly when network, payee and identifier are the same |
| `SettleEndpointAnswers.PendingIsNeverCached` | packages/facilitator/src/xrpl_x402_facilitator/factory.py:347-349 | over every run the cache never holds a pending answer |
| `SettleEndpoint.EStepKeepsEInv` | packages/facilitator/src/xrpl_x402_facilitator/factory.py:318-350 | every endpoint, settlement and expiry step keeps the cache and all served responses honest |
| `SettleEndpoint.NoFalseSuccess` | packages/facilitator/src/xrpl_x402_facilitator/factory.py:318-350 | if no request outlives its key, every success served, fresh or cached, rests on a validated tesSUCCESS of that hash with exactly the required delivery |
| `SettleEndpointLate.PutHarmsExactlyWhenLost` | packages/facilitator/src/xrpl_x402_facilitator/idempotency.py:80-90 | after a late answer is stored, some run in which no request outlives its key serves a request the terminal answer of another one, if and only if the key does not carry the storing request's fingerprint any more |
| `SettleEndpointLate.LatePutHarmsExactlyWhenLost` | packages/facilitator/src/xrpl_x402_facilitator/factory.py:318-350 | the same over whole runs from the initial state, while the request waits with its answer and the others go on |
| `SettleEndpointLate.LateReadIsForeignExactlyWhen` | packages/facilitator/src/xrpl_x402_facilitator/idempotency.py:68-78 | a request that lost its key before its cache read is served a foreign answer exactly when the key then holds a terminal answer of its new owner |
| `SettleEndpoint.LatePutAnswersAnotherRequest` | packages/facilitator/src/xrpl_x402_facilitator/idempotency.py:80-90 | an answer stored under a key that is bare or bound again is served to the next request of its owner, or to any different request under the identifier if it has none |
| `SettleEndpointRuns.LatePutServesFalseSuccess` | packages/facilitator/src/xrpl_x402_facilitator/factory.py:318-350 | a reachable run in which a request that outlives its key makes another request be served a success although its transaction is in no ledger |
| `ReceiptJournal.Journal.PruneExpiredAttempts` | packages/payer/src/xrpl_x402_payer/journal.py:139-164 | removes exactly the paid attempts whose window has passed and counts them |
| `ReceiptJournal.Journal.ClaimAttempt` | packages/payer/src/xrpl_x402_payer/journal.py:166-207 | prunes, then returns a stored payload or live lease, or takes the lease over; errors write nothing |
| `ReceiptJournal.Journal.PersistAttemptPayload` | packages/payer/src/xrpl_x402_payer/journal.py:215-242 | a stored payload wins over the caller's; otherwise only the lease owner may store |
| `ReceiptJournal.Journal.ReleaseClaim` | packages/payer/src/xrpl_x402_payer/journal.py:244-256 | removes only the owner's claim that has no payload |
| `ReceiptJournal.Journal.Append` | packages/payer/src/xrpl_x402_payer/journal.py:279-307 | appends unless a receipt with the same fingerprint, state and transaction is kept |
| `ReceiptJournal.Journal.RecordOutcome` | packages/payer/src/xrpl_x402_payer/journal.py:309-353 | drops late pending or failed reports; otherwise appends and moves the attempt to in flight, paid or removed |
| `ReceiptJournal.ClaimExactly` | packages/payer/src/xrpl_x402_payer/journal.py:166-207 | which error, attempt or token a claim returns and what the index then holds, for every index and clock |
| `ReceiptJournal.PersistExactly` | packages/payer/src/xrpl_x402_payer/journal.py:215-242 | which error or attempt storing a payload returns and what the index then holds |
| `ReceiptJournal.AppendExactly` | packages/payer/src/xrpl_x402_payer/journal.py:279-303 | a receipt is appended exactly when none kept has its fingerprint, outcome and transaction |
| `ReceiptJournal.LateExactly` | packages/payer/src/xrpl_x402_payer/journal.py:317-330 | a report is dropped as late exactly when a failed or paid receipt is kept for its fingerprint and transaction and it is not of a payment made |
| `ReceiptJournal.ReleaseExactly` | packages/payer/src/xrpl_x402_payer/journal.py:244-256 | a release removes exactly the owner's claim without a payload |
| `ReceiptJournal.PendingIsShared` | packages/payer/src/xrpl_x402_payer/journal.py:331-345 | after a pending outcome every later claim is given the payload |
| `ReceiptJournal.PaidIsSharedUntil` | packages/payer/src/xrpl_x402_payer/journal.py:331-353 | after a paid outcome claims are given the payload until the reuse window ends, and sign anew from then on |
| `ReceiptJournal.ReceiptsNeverRegress` | packages/payer/src/xrpl_x402_payer/journal.py:309-353 | for every history, receipts of one fingerprint and transaction strictly increase from pending to failed to paid |
| `ReceiptJournal.AtMostThreeReceipts` | packages/payer/src/xrpl_x402_payer/journal.py:279-303 | at most three receipts are kept for one payment |
| `ReceiptJournal.NothingFollowsPaid` | packages/payer/src/xrpl_x402_payer/journal.py:309-353 | no receipt of the same payment follows a paid one |
| `ReceiptJournal.FailureRemovesExactlyWhenFirst` | packages/payer/src/xrpl_x402_payer/journal.py:317-353 | a failure removes the attempt exactly when no terminal receipt is kept for the same fingerprint and transaction |
| `PayerAttempts.PayloadStaysOrIsRemoved` | packages/payer/src/xrpl_x402_payer/journal.py:166-256 | in one step a stored payload stays or is removed by a failed outcome or by pruning an expired paid attempt; it is never replaced |
| `PayerAttempts.ObtainedIsStored` | packages/payer/src/xrpl_x402_payer/payer.py:174-248 | what a caller obtains is what the index holds at that moment |
| `PayerAttempts.OnePayloadPerAttempt` | packages/payer/src/xrpl_x402_payer/payer.py:174-248 | over every interleaving, crash and lease takeover, callers obtain the same payload between two removals |
| `PayerAttempts.StoredBeforeDispatch` | packages/payer/src/xrpl_x402_payer/mcp.py:209-230 | a dispatched payload was in the index before |
| `PayerAttempts.OneSignerCanPersist` | packages/payer/src/xrpl_x402_payer/journal.py:215-242 | of two callers that both signed for a fingerprint at most one can store its payload |
| `PayerAttempts.TokensAlwaysFresh` | packages/payer/src/xrpl_x402_payer/journal.py:166-207 | owner tokens in the index and in callers' hands stay distinct and belong to whoever claimed them |
| `PayerAttempts.FailureOfAnyPayloadRemoves` | packages/payer/src/xrpl_x402_payer/journal.py:309-353 | a reported failure removes the current payload, also one signed after the reporter's own, exactly when no terminal receipt is kept for it |
| `PayerLeases.LeaseIsExclusive` | packages/payer/src/xrpl_x402_payer/payer.py:427-444 | over every trace, after one caller was sent to sign the next one is only when the clock has passed the lease of 30 seconds, or after the attempt was released, given an outcome or pruned |
| `PayerLeases.OverdueIsTakenOver` | packages/payer/src/xrpl_x402_payer/journal.py:186-207 | a claim without a payload whose lease has run out is always taken over |
| `PayerLeases.LiveLeaseMakesWait` | packages/payer/src/xrpl_x402_payer/journal.py:186-194 | while the lease runs a caller is neither given a payload nor sent to sign |
| `PayerLeases.ReleaseLetsNextSign` | packages/payer/src/xrpl_x402_payer/payer.py:244-248 | an owner without a payload that gives up lets the next caller sign at once |
| `PayerLeases.RejectedPersistReleases` | packages/payer/src/xrpl_x402_payer/payer.py:200-248 | a caller whose payload is not accepted goes on to release its claim |
| `PayerLeases.PruneClears` | packages/payer/src/xrpl_x402_payer/journal.py:139-164 | pruning leaves exactly the attempts that are not paid or still in their window |
| `PayerLeases.InterruptLeavesReceipt` | packages/payer/src/xrpl_x402_payer/payer.py:229-248 | an interrupted caller leaves a pending receipt of its own payload, which stays for others |
| `PayerLeases.ReportLeavesReceipt` | packages/payer/src/xrpl_x402_payer/mcp.py:256-291 | a report leaves a receipt of its outcome and transaction |
| `PayerLeases.PaidWindow` | packages/payer/src/xrpl_x402_payer/journal.py:331-353 | a payment made is shared for 300 seconds after its report |
| `PayerLeases.DispatchesOnce` | packages/payer/src/xrpl_x402_payer/payer.py:200-228 | a caller dispatches at most once, and never a payload that it refused |
| `PayerRuns.OldReportCancelsLease` | packages/payer/src/xrpl_x402_payer/journal.py:331-345 | a reachable trace in which a pending report of an old payload resets a live lease, so that two callers sign at once |
| `PayerRuns.OldFailureRemovesNewPayload` | packages/payer/src/xrpl_x402_payer/journal.py:309-353 | a reachable trace in which the failure of an old payload removes one signed after it |
| `PayerRuns.RepeatedFailureRemovesNothing` | packages/payer/src/xrpl_x402_payer/journal.py:317-330 | a reachable trace in which a repeated failure report leaves the stored payload in place |
| `SpendBudget.BudgetCountsEachPaymentOnce` | packages/payer/src/xrpl_x402_payer/receipts.py:44-73 | for every history with fingerprints, spent equals the sum over distinct paid (fingerprint, transaction) keys that match |
| `SpendBudget.SpentNeverDecreases` | packages/payer/src/xrpl_x402_payer/receipts.py:44-73 | recording never lowers spent; pending and failed outcomes never change it |
| `SpendBudget.SpentOnlyGrows` | packages/payer/src/xrpl_x402_payer/receipts.py:44-73 | over every history spent never goes down |
| `SpendBudget.ReceiptCountsExactlyWhen` | packages/payer/src/xrpl_x402_payer/receipts.py:44-73 | a receipt counts exactly when it is paid, on the queried network, with the queried issuer, in an asset that normalises alike |
| `SpendBudget.SymbolFindsWireCode` | packages/payer/src/xrpl_x402_payer/receipts.py:44-73 | a query by printable symbol counts payments recorded by wire code |
| `PaidHandlerAnswers.GetExactly` | packages/middleware/src/xrpl_x402_middleware/middleware.py:139-190 | before the handler: conflict exactly on another request's key, replay exactly of an own stored response, otherwise bind |
| `PaidHandlerAnswers.BindExactly` | packages/middleware/src/xrpl_x402_middleware/response_store.py:54-87 | binding runs the handler exactly on an absent key, and otherwise reports a conflict, a request in progress, or after a second miss a vanished binding |
| `PaidHandlerAnswers.StaleExactly` | packages/middleware/src/xrpl_x402_middleware/middleware.py:107-135 | a stale authorization is let through exactly by its own stored response |
| `PaidHandlerAnswers.FailureHoldsTheKey` | packages/middleware/src/xrpl_x402_middleware/middleware.py:256-260 | a failed handler stores nothing, and a retry is in progress until expiry |
| `PaidHandlerAnswers.PutExactly` | packages/middleware/src/xrpl_x402_middleware/response_store.py:115-145 | a response is stored exactly when the key is not seen to be another request's |
| `PaidHandlerAnswers.RunThenReplay` | packages/middleware/src/xrpl_x402_middleware/mcp.py:251-322 | on an absent key a request runs the handler, and a later one with its fingerprint is answered with that response |
| `PaidHandlerAnswers.ForeignNeverRuns` | packages/middleware/src/xrpl_x402_middleware/middleware.py:139-165 | a request that reads its key while another fingerprint holds it never runs the handler |
| `PaidHandler.HandlerStartsAtMostOnce` | packages/middleware/src/xrpl_x402_middleware/response_store.py:54-87 | between two expiries of a key the handler starts at most once over all requests and fingerprints |
| `PaidHandler.StaleStartsOnlyAfterExpiry` | packages/middleware/src/xrpl_x402_middleware/middleware.py:107-190 | a request whose authorization was stale on arrival starts the handler only after a cached response vouched for it and only if the key expired since |
| `PaidHandler.ExpiryLetsStaleStart` | packages/middleware/src/xrpl_x402_middleware/middleware.py:139-190 | a stale authorization vouched for by a cached response, whose key expires before its next read, starts the handler in the next epoch |
| `PaidHandler.ReplaysReturnTheRun` | packages/middleware/src/xrpl_x402_middleware/response_store.py:89-145 | if no handler outlives its key, every replay returns the response with which one request started and finished the handler in that epoch and fingerprint, and all replays of an epoch agree |
| `PaidHandlerExpiry.ExpiryIsUnsafeExactlyWhenActive` | packages/middleware/src/xrpl_x402_middleware/response_store.py:115-145 | an expiry can lead to a replay that no run of its epoch gave if and only if some request is running the handler on the key or has yet to store its response |
| `PaidHandler.LatePutIsReplayed` | packages/middleware/src/xrpl_x402_middleware/response_store.py:115-145 | in every reachable state, a response stored after expiry is replayed in a later epoch in which no run started or finished |
| `PaidHandlerRuns.StaleAuthorizationRunsTwice` | packages/middleware/src/xrpl_x402_middleware/middleware.py:107-190 | a reachable run in which the handler starts twice on one payment, because the key expired between a stale request's two reads |
| `PaidHandlerRuns.LateResponseIsReplayed` | packages/middleware/src/xrpl_x402_middleware/response_store.py:115-145 | a reachable run in which a late response is replayed in an epoch without a run |
| `PaidHandler.OneActive` | packages/middleware/src/xrpl_x402_middleware/mcp.py:290-322 | in such runs a key has at most one running handler |
| `RlusdQuote.SendMaxIsLeast` | devtools/rlusd_fund.py:137-148 | SendMax is the least integer at or above quote times (1 + bps/10000), and never below the quote |
| `RlusdQuote.AmmQuoteIsTight` | devtools/rlusd_fund.py:187-212 | the quote is the least whole number of drops whose constant-product output after the fee reaches the amount |
| `RlusdQuote.CeilingIsLeast` | devtools/rlusd_fund.py:205-212 | rounding up gives the least integer not below the exact quotient |
| `RlusdQuote.SendMaxGivenExactly` | devtools/rlusd_fund.py:137-148 | a bound is given exactly for a positive quote and 0 to 5000 basis points |
| `RlusdQuote.QuoteGivenExactly` | devtools/rlusd_fund.py:203-212 | for a positive amount from positive reserves a quote is given exactly when some input pays it out |
| `RlusdQuote.NoQuoteExactly` | devtools/rlusd_fund.py:203-209 | which error is given without liquidity or with an impossible fee |
| `RlusdFunding.StepKeepsInv` | devtools/rlusd_fund.py:863-958 | every step of a run, crash or ledger close keeps the journal invariant |
| `RlusdFunding.NoOverlap` | devtools/rlusd_fund.py:600-761 | whenever a transaction is about to be signed, every earlier one was included or can no longer be |
| `RlusdFunding.OneOpenTransaction` | devtools/rlusd_fund.py:600-687 | at most one submitted transaction is still open, and it is the journaled one |
| `RlusdFunding.NeverOvershoots` | devtools/rlusd_fund.py:883-958 | over any series of runs and crashes the RLUSD balance never exceeds the larger of its start and the target |
| `RlusdFunding.ConversionLeavesReserve` | devtools/rlusd_fund.py:823-860 | every validated conversion has a SendMax computed from the quote logged right before it was journaled, at least that quote and within the cap, and leaves base reserve, owner reserve and buffer |
| `RlusdFunding.JournaledBeforeSent` | devtools/rlusd_fund.py:689-761 | every submission, first or repeated, was journaled before |
| `RlusdTrustLine.ConversionNeedsLine` | devtools/rlusd_fund.py:764-797 | over any series of runs and crashes, a conversion is journaled only in a run that read a sufficient trust line or saw its own TrustSet succeed |
| `RlusdTrustLine.InclusionMoves` | devtools/rlusd_fund.py:883-958 | what an included transaction moves: the fee always, amount and spending of a conversion, and the owned object of a TrustSet on success only |
| `RlusdTrustLine.CompletedAreSuccesses` | devtools/rlusd_fund.py:589-598 | the completed hashes are distinct successes of the ledger and hold every confirmed one |
| `RlusdTrustLine.PendingEndsExactly` | devtools/rlusd_fund.py:600-687 | a pending transaction leaves the journal exactly on its validated result, or when a complete search past its last ledger found nothing |
| `RlusdTrustLine.PendingEndsOnlyWhenOver` | devtools/rlusd_fund.py:600-687 | and then the ledger has it or can never have it |
| `RlusdFundingRuns.OneRunFunds` | devtools/rlusd_fund.py:863-970 | from a fresh wallet with a line that can afford a quote within the cap, one run ends exactly at the target |
| `RlusdFundingRuns.OneRunSetsLineAndFunds` | devtools/rlusd_fund.py:764-797 | from a fresh wallet without a line, one run validates a TrustSet, then one conversion, and ends exactly at the target |
| `RlusdFundingRuns.InterruptedIsFinished` | devtools/rlusd_fund.py:640-687 | a run that finds a pending transaction not validated and not expired submits the same one again and finishes it |
| `RlusdFundingRuns.ValidatedIsRecorded` | devtools/rlusd_fund.py:612-640 | a run that finds it validated takes its result without submitting |
| `RlusdFundingRuns.AbsentIsForgotten` | devtools/rlusd_fund.py:640-660 | a run that finds it absent past its last ledger forgets it after a complete search, and otherwise ends with the journal kept |
| `RlusdFundingRuns.FundedIsLeftAlone` | devtools/rlusd_fund.py:883-905 | a run on a wallet at its target does nothing |
| `RlusdFundingRuns.ChecksEndTheRun` | devtools/rlusd_fund.py:823-860 | a quote over the cap, an unspendable balance, a bad fee and a reached target end the run before anything is signed |
| `PaymentShape.ShapeDemands` | packages/core/src/xrpl_x402_core/helpers.py:85-137 | whatever passes the shape check asks for a positive amount of canonical XRP without issuer, or of a canonical issued asset with its issuer |
| `PaymentShape.ShapeExactly` | packages/core/src/xrpl_x402_core/helpers.py:85-137 | the shape check accepts exactly the well-shaped demands whose other fields are well formed |
| `PaymentShape.ShapeReasonIsTrue` | packages/core/src/xrpl_x402_core/helpers.py:85-137 | the reason it gives is a true one |
| `PaymentShape.RlusdIssuers` | packages/core/src/xrpl_x402_core/assets.py:30-53 | RLUSD has one named issuer on each of two networks, and no other asset has one |
| `PaymentShape.NetworkIdReads` | packages/core/src/xrpl_x402_core/helpers.py:33-37 | a network reference is read as its number |
| `PaymentShape.IntegerIsCanonical` | packages/core/src/xrpl_x402_core/helpers.py:24-24 | the integer pattern accepts exactly the canonical texts of whole numbers |
| `PaymentShape.DecimalExactly` | packages/core/src/xrpl_x402_core/helpers.py:25-25 | the decimal pattern accepts exactly those, and those with digits behind a point |
| `PaymentShape.DecimalIsPositional` | packages/core/src/xrpl_x402_core/helpers.py:75-82 | a decimal text is worth its digits as one whole number, divided by ten for every digit behind the point |
| `PaymentShape.TrailingZeroIsWorthless` | packages/core/src/xrpl_x402_core/helpers.py:75-82 | a zero behind the last digit changes nothing |
| `PaymentShape.DecimalTextReads` | packages/facilitator/src/xrpl_x402_facilitator/factory.py:533-534 | the text of a whole number is read back as that number |
| `PaymentShape.IntegerIsDecimal` | packages/core/src/xrpl_x402_core/helpers.py:24-25 | integer text has one value under both amount patterns |
| `SignedPayments.SignsExactly` | packages/client/src/xrpl_x402_client/signer.py:80-137 | with a well-formed fill, signing fails only for a wrong shape or network, an empty invoice or a missing ticket |
| `SignedPayments.SignedCarries` | packages/client/src/xrpl_x402_client/signer.py:96-137 | every signed payment names the required payee, amount, tag, invoice and network and carries a fee |
| `SignedPayments.SignedSlotAndFee` | packages/client/src/xrpl_x402_client/signer.py:106-137 | where account, fee, sequence, ticket and last ledger of a signed payment come from |
| `SignedPayments.FilledIsValid` | packages/client/src/xrpl_x402_client/signer.py:215-236 | an autofilled draft passes the signer's own last check |
| `SignedPayments.EnvelopeBinds` | packages/facilitator/src/xrpl_x402_facilitator/xrpl_service.py:359-430 | accepted requirements that pass differ from the required ones at most in method and flow |
| `SignedPayments.EnvelopeServes` | packages/facilitator/src/xrpl_x402_facilitator/xrpl_service.py:416-455 | only requirements for the facilitator's network, address and assets pass, and a required method wins |
| `SignedPayments.EchoPassesExactly` | packages/facilitator/src/xrpl_x402_facilitator/xrpl_service.py:359-455 | echoed requirements pass exactly when well shaped, served, and sent with a trimmed method or none |
| `SignedPayments.SignedPassesStructure` | packages/facilitator/src/xrpl_x402_facilitator/xrpl_service.py:500-609 | what the signer signs for accepted requirements passes the structural check against the required ones exactly when the fee is within the cap, the codec keeps the asset's spelling, and issuer and invoice were trimmed |
| `SignedPayments.TrimmedPassesStructure` | packages/facilitator/src/xrpl_x402_facilitator/xrpl_service.py:500-659 | with trimmed extra fields only the fee cap is left |
| `SignedPayments.MethodsAgreeExactly` | packages/facilitator/src/xrpl_x402_facilitator/xrpl_service.py:404-427 | signer and facilitator select the same method unless the client dropped a required ticket method |
| `SignedPayments.SignedPassesStateExactly` | packages/facilitator/src/xrpl_x402_facilitator/xrpl_service.py:662-725 | signed at ledger s with timeout t, a payment passes at exactly the ledgers s to s + ceil(t/5) + 1, provided its slot and key fit |
| `SignedPayments.AcceptedNamesExactly` | packages/facilitator/src/xrpl_x402_facilitator/xrpl_service.py:500-659 | an accepted transaction moves exactly the required amount of the required asset to the payee, in full, under its tag, invoice and network |
| `SignedPayments.UntrimmedInvoiceIsRefused` | packages/facilitator/src/xrpl_x402_facilitator/xrpl_service.py:576-593 | whatever is signed for an invoice with outer white space fails the structural check |
| `SignedPayments.UntrimmedSampleIsRefused` | packages/facilitator/src/xrpl_x402_facilitator/xrpl_service.py:576-593 | a sample with a leading blank passes the envelope check, is signed and is refused |
| `SignedPayments.IsoHexIsNeverServed` | packages/facilitator/src/xrpl_x402_facilitator/xrpl_service.py:440-447 | the ledger's hexadecimal spelling of a three-character code is its own wire code but fails the envelope check, also where the code itself is supported |
| `SignedPayments.IsoHexHasShape` | packages/core/src/xrpl_x402_core/helpers.py:85-137 | a request for the ledger's spelling of USD passes the shape check |
| `SignedPayments.FieldReasonIsNeverGiven` | packages/facilitator/src/xrpl_x402_facilitator/xrpl_service.py:506-524 | the reasons for memos, delegates, paths and DeliverMin are never given, since those fields are refused as unexpected |
| `SignedPayments.AcceptedForOneDemand` | packages/facilitator/src/xrpl_x402_facilitator/xrpl_service.py:500-609 | one transaction is never accepted for two requirements that differ in payee, asset, issuer, value, tag or invoice |
| `SignedPayments.AcceptedSettlesExactlyOnFullDelivery` | packages/facilitator/src/xrpl_x402_facilitator/xrpl_service.py:1254-1286 | an accepted transaction that succeeds is judged a success exactly when it delivered what it names |
| `PaymentReasons.AmountFieldExactly` | packages/facilitator/src/xrpl_x402_facilitator/xrpl_service.py:536-568 | a payment has exactly one amount field, which the native or the issued check judges |
| `PaymentReasons.XrpReasonIsTrue` | packages/facilitator/src/xrpl_x402_facilitator/xrpl_service.py:548-565 | the reason for refusing a native amount is a true one |
| `PaymentReasons.IouReasonIsTrue` | packages/facilitator/src/xrpl_x402_facilitator/xrpl_service.py:611-659 | the reason for refusing an issued amount is a true one |
| `PaymentReasons.StructureReasonIsTrue` | packages/facilitator/src/xrpl_x402_facilitator/xrpl_service.py:500-609 | the structural check names a defect that the transaction has |
| `PaymentReasons.StatePassesExactly` | packages/facilitator/src/xrpl_x402_facilitator/xrpl_service.py:662-725 | the ledger and account check passes exactly within the window, with a key and a slot that fit |
| `PaymentReasons.StateReasonIsTrue` | packages/facilitator/src/xrpl_x402_facilitator/xrpl_service.py:662-725 | otherwise it names an obstacle that there is |
| `PaymentReasons.EnvelopeReasonIsTrue` | packages/facilitator/src/xrpl_x402_facilitator/xrpl_service.py:359-455 | the envelope check names a mismatch that there is |
| `PaymentReasons.MethodReasonIsTrue` | packages/facilitator/src/xrpl_x402_facilitator/xrpl_service.py:416-447 | and so for methods and assets |
| `PaymentReasons.FlowReasonIsNeverGiven` | packages/facilitator/src/xrpl_x402_facilitator/xrpl_service.py:397-411 | the payment-flow mismatch is never given, since the shape check leaves one flow |
| `PaymentReasons.PreparedReasonIsTrue` | packages/client/src/xrpl_x402_client/signer.py:215-236 | the signer's last check names what is missing and passes complete payments only |
| `PaymentReasons.SignErrorIsTrue` | packages/client/src/xrpl_x402_client/signer.py:80-137 | the signer's other errors are true |
| `CurrencyCodes.WireGivenExactly` | packages/core/src/xrpl_x402_core/assets.py:85-96 | which codes have a wire form, in what form, and which error the others get |
| `CurrencyCodes.ShownByBytesExactly` | packages/core/src/xrpl_x402_core/assets.py:74-82 | a hexadecimal code is shown by its bytes exactly when these are printable and not empty |
| `CurrencyCodes.WireIsIdempotent` | packages/core/src/xrpl_x402_core/assets.py:85-96 | encoding to wire form is idempotent for every accepted code |
| `CurrencyCodes.NormalizeOfWire` | packages/core/src/xrpl_x402_core/assets.py:74-96 | normalising the wire form equals normalising the original exactly for hexadecimal, three-character and printable codes |
| `CurrencyCodes.WireIsInjective` | packages/core/src/xrpl_x402_core/assets.py:85-96 | two printable non-hexadecimal symbols share a wire code only if equal after trimming and upper-casing |
| `CurrencyCodes.HexSpellingOfThreeLetters` | packages/core/src/xrpl_x402_core/assets.py:74-96 | a three-letter code and its hexadecimal spelling normalise alike but differ on the wire |
| `CurrencyCodes.DecodeEncoded` | packages/core/src/xrpl_x402_core/assets.py:78-96 | decoding an encoded symbol gives the symbol and its zero padding |
| `TicketPaging.AvailableTicketSequences` | packages/client/src/xrpl_x402_client/signer.py:178-213 | the loop ends on every snapshot and returns the sorted distinct tickets of all pages, or the paging error |
| `TicketPaging.TicketIsAvailable` | packages/facilitator/src/xrpl_x402_facilitator/xrpl_service.py:727-764 | the loop ends on every snapshot and returns what the search specification finds |
| `TicketPaging.PagingAgrees` | packages/facilitator/src/xrpl_x402_facilitator/xrpl_service.py:727-764 | the facilitator reports a ticket available exactly when it is in the signer's list; if that list fails, it fails alike or had already found the ticket |
| `TicketPaging.RepeatedExactlyWhenEndless` | packages/client/src/xrpl_x402_client/signer.py:205-213 | the repeated-marker error is raised exactly when following the markers would never end |
| `TicketPaging.WalkReturnsEveryPage` | packages/client/src/xrpl_x402_client/signer.py:178-213 | a walk succeeds exactly when following the markers ends at a page without one, and then returns the objects of all pages up to it, in order |
| `TicketPaging.NoTicketExactly` | packages/client/src/xrpl_x402_client/signer.py:170-176 | which error is given when there is no ticket to use |
| `TicketPaging.ChosenTicketIsAvailable` | packages/client/src/xrpl_x402_client/signer.py:147-176 | the signer picks the lowest ticket it knows, and unless just created the facilitator finds it available |
| `TicketPaging.SortedDistinct` | packages/client/src/xrpl_x402_client/signer.py:206-207 | strictly increasing, with exactly the given elements |
| `TicketPaging.Smallest` | packages/client/src/xrpl_x402_client/signer.py:170-171 | an element of the list that no other undercuts |
| `Discovery.BazaarCatalog.List` | packages/facilitator/src/xrpl_x402_facilitator/catalog.py:73-142 | returns the requested slice and total of the sorted filtered listing, and drops exactly the stale index keys |
| `Discovery.FilterMeans` | packages/facilitator/src/xrpl_x402_facilitator/catalog.py:97-127 | what each filter alone selects |
| `Discovery.FiltersCombine` | packages/facilitator/src/xrpl_x402_facilitator/catalog.py:104-111 | payee, scheme and network must be those of one option, every other filter stands alone |
| `Discovery.TextLeqMeans` | packages/facilitator/src/xrpl_x402_facilitator/catalog.py:130-136 | texts are ordered by their first difference, a prefix first |
| `Discovery.SortedMeans` | packages/facilitator/src/xrpl_x402_facilitator/catalog.py:130-136 | a listing is in order of resource, then type, then extensions |
| `Discovery.ForeignCursors` | packages/facilitator/src/xrpl_x402_facilitator/factory.py:537-548 | signs are read like Python's int, below zero is the start |
| `Discovery.CursorRefusedExactly` | packages/facilitator/src/xrpl_x402_facilitator/factory.py:537-548 | a cursor is refused exactly when it does not decode to the text of a whole number |
| `Discovery.StableSortIsStable` | packages/facilitator/src/xrpl_x402_facilitator/catalog.py:130-136 | the sort keeps the items, orders them by key, and keeps the order of equal keys |
| `Discovery.KeyLeqTotal` | packages/facilitator/src/xrpl_x402_facilitator/catalog.py:130-136 | the sort key order is total and antisymmetric |
| `Discovery.PruningKeepsListing` | packages/facilitator/src/xrpl_x402_facilitator/catalog.py:128-129 | dropping stale keys changes no listing |
| `Discovery.CursorRoundTrip` | packages/facilitator/src/xrpl_x402_facilitator/factory.py:533-548 | a cursor the search hands out is read back as the same offset |
| `Discovery.CursorMovesOn` | packages/facilitator/src/xrpl_x402_facilitator/factory.py:393-419 | a page with a next cursor is full and the cursor moves on by the limit |
| `Discovery.CursorsCarryOffsets` | packages/facilitator/src/xrpl_x402_facilitator/factory.py:393-419 | following cursors from any readable one is paging by offsets |
| `Discovery.PartialExactly` | packages/facilitator/src/xrpl_x402_facilitator/factory.py:403-419 | a page says that there is more exactly when it hands out a cursor, exactly when items are left |
| `Discovery.CursorWalkIsComplete` | packages/facilitator/src/xrpl_x402_facilitator/factory.py:393-419 | for every filter and limit of at least one, the walk ends and its pages joined are exactly the sorted filtered list, with every matching live entry once and in as many pages as needed |

## Left out

- Signature checking, key derivation, the XRPL binary codec, SHA-256/SHA-512, JSON and base64: foreign libraries.
- The upstream x402 client, server and MCP lifecycles: only this repository's hooks and stores appear.
- FastAPI wiring, gateway authentication, rate limits, body limits and settings.
- CLI, proxy, examples, demos, quickstart, build hooks and the live test support.
- The simulation, balance, transfer-rate and reserve checks of `verify`: in settlement any of them may refuse a call until its first-ledger read.
- File locking, fsync and atomic rename in the journals.
- Python's 28-digit Decimal context, float rounding in the ledger-window quotient, and text beyond ASCII.
- Time: lifetimes appear as expiry steps that may happen at any moment, and as the stated promptness conditions.
- Whether a cached failure at the settle endpoint stays consistent with a concurrent success: `put` does not order responses.
- SettlementSafety.TerminalResponsesAgree: its condition is on the stored records, which responses do not carry; the exact conditions are in `AnswersCanSplitExactlyWhen` and `RetriesDisagreeExactlyWhen`.
- Account deletion and the reuse of a deleted account's sequence numbers.
- `get`, `list` and `latest_for_fingerprint` of the journal, the receipt's display fields and the attempt's payment identifier: reads without a decision.
- `select_path_quote`, the faucet, trust-line details and wallet files of the funding tool; a conversion's quote is any number the quoting step returns.
- `BazaarCatalog.index` and the extraction of discovery data; case folding and the JSON texts that are searched and sorted are fields of an item.
- The response store as a class: it is modelled command by command as steps, because expiry between its commands is what its two-try loop is about.
- Settlement, payer, middleware and funding: their in-memory Python objects appear as state-machine states, not as classes, since other instances and crashes act between any two of their steps.
- Discovery.CursorRoundTrip: digit groups with underscores, which Python's `int` also reads, are not modelled.
- SignedPayments.SignsExactly: xrpl-py's own limits on issued amounts (16 digits) are not modelled, so a signature that its codec would refuse counts as made.
- SignedPayments.EnvelopeBinds: an extra field sent as null counts as absent, while the code's dictionary comparison tells the two apart.
- TicketPaging.AvailableTicketSequences: ticket numbers are integers; text that Python's `int` would convert is not modelled.
- SpendBudget.BudgetCountsEachPaymentOnce: only receipts with a fingerprint, since the log does not deduplicate others.
