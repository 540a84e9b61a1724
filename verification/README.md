# A verified model of the agent delegation network

This project models, in Dafny, the parts of the agent delegation network that decide whether a delegated
job runs and whether its result counts, and proves what they promise over whole runs.

- **The replay ledger** (`ReplayLedger`, `LedgerOutcomes`, `LedgerProtocol`, `LedgerGuarantees`). One table of rows,
  changed by four transactions. Each transaction is a method of the class `Ledger` on its field, proved equal to a
  function on tables. What those functions answer and store is said of the rows' fields, and the other results are
  about runs of them in which any number of parties interleave.
- **Requests and workers** (`Messages`, `Receipts`, `DelegationRequests`, `DelegationWorker`, `WorkerRuns`,
  `RequestBound`, `RequestLapses`). Signed messages, gateway receipts, request validation, policy, the worker's
  phases, and runs of any number of workers that share one ledger, to whom the same request may be delivered any
  number of times: what every handler call rests on, how often handlers are called, and when that bound fails.
- **Results** (`ResultReplay`, `ResultVerifier`). The nonce cache, the checks on a signed result and its single
  acceptance.
- **The honest path** (`HonestPath`, `RoundTrip`, `HonestWorld`). From the gateway's receipt to the coordinator's
  acceptance, and a world of keys, signatures and digests in which everything assumed holds at once.
- **Canonical JSON** (`KeyOrder`, `CanonicalJson`, `JsonParser`, `JsonEquality`, `TsCanonical`,
  `GatewayCanonical`). The release printer in Python and TypeScript with a parser that inverts it, and the
  gateway executor's printer against Python's `json.dumps`.
- **Line framing** (`LineFraming`, `GatewayExecutor`, `GatewayClient`). Replies that do not depend on how a
  stream was cut, and the table of pending requests.
- **The contract** (`DelegateContract`, `ContractWorld`, `SimpleHash`, `Hex`). The credential check, the 64-bit FNV-1a loop and
  hex.
- **Release proofs** (`ProofArchive`, `ProofExtraction`). The proof-input digest and both archive extractors.

`dafny verify dfyconfig.toml` checks everything.

## What is assumed

Hashes, signatures, MACs, time-stamp formats, base64 and serde are fields of a record (`Crypto`, `Primitives`,
`Hashing`, `Hmac`), left uninterpreted. A result that needs more says so in its `requires`: a digest without
collisions (`InjectiveDigest`, `CollisionFree`), keys under which the payloads their holder made verify (`Genuine`),
keys under which nothing verifies but what their holder made (`SignsOnly`), or time stamps that are read as they
were printed (`IsoRoundTrips`). The truncated hash of the contract cannot be free of collisions; there the result
says "or these two inputs collide". That all of this can hold at once, for every key, is itself a lemma with a
world that meets it: `HonestWorld.HonestIsPossible`, for the MAC `HonestWorld.SealIsPossible`, for the contract
`ContractWorld.AcceptedIsPossible`, and for release proofs `ContractWorld.CollisionFreeIsPossible`.

Instants are counted in microseconds. Each ledger operation is one atomic step at one instant, and a call
reads the clock once. The clock of a run does not go back; execution tokens are new.

## What the model shows about the code

Most promises hold as they stand. These hold only under a condition, which the results give exactly, or differ
from what the code says about itself; the model follows the code.

- A request read at the very instant of its expiry is not yet late (`src/delegation_protocol.py:149` compares
  with `>`), while the ledger has just purged its row (`src/replay_ledger.py:301` compares with `<=`). The bound
  of two grants holds of all runs exactly when no begin comes at that instant or after it
  (`LedgerGuarantees.RetentionExact`), and the bound of two handler calls exactly when no message with the data
  passes a screening at or after a replay expiry it was given before (`RequestBound.CallsBoundedExactly`), which
  for a stated expiry means: at that very instant (`RequestBound.FixedDataLapses`). In live mode such requests
  exist at every instant: `RequestLapses.BoundaryLapses`, `RequestLapses.BoundaryIsPossible`.
- A request without issue time and expiry is given an hour from whenever it is read, so its retention moves
  with the clock. Signed anew an hour later, without a receipt, its handler is called a third time:
  `RequestLapses.UnstatedRunsThrice`, `RequestLapses.UnstatedIsPossible`. The bound holds exactly when the data
  does not pass at instants an hour apart nor at the end of its receipt's authorization, so a receipt for less
  than an hour bounds it as a stated expiry does: `RequestBound.UnstatedDataLapses`.
- A finalize does not ask for RUNNING, and it clears the token. So a second finalize with a used token reopens a
  completed request (`LedgerGuarantees.SecondFinalizeReopens`). And nobody has to finalize twice: when a begin comes
  at an expiry and the second worker completes the new row, the first worker's own finalize, coming late, meets no
  token and reopens it (`LedgerGuarantees.StaleFinalizeReopens`). Terminal states are closed in all runs exactly when
  every begin comes before every expiry (`LedgerGuarantees.TerminalStatesAreClosed`); in any run only a token from
  before the row was made reopens a live one (`LedgerGuarantees.OnlyStaleTokensReopen`); and what a single step
  must be is `LedgerGuarantees.ReopenedExactly`.
- A row that fails its MAC aborts the transaction, so the purge is rolled back with it.
- The executor's `canonicalJson` is commented as matching Python's `json.dumps`. On values without fractions it
  does exactly when their strings stay within ASCII up to `~` and their integers come out of a JavaScript number
  as they went in, as the safe integers do and some beyond them cannot: `GatewayCanonical.TextsAgreeExactly`,
  `GatewayCanonical.IndistinctNumbersDisagree`.
- For the request hash Python takes `parameters or {}` (`src/tee_authorization.py:27`) and the executor
  `parameters ?? {}` (`t3n-bridge/src/gateway_executor.ts:285`). So the signed hash is the one the worker computes
  exactly when the texts agree and the parameters are not false, 0, "" or []:
  `GatewayCanonical.RequestHashesAgreeExactly`, `GatewayCanonical.FalsyParametersDisagree`.
- The contract's clock-skew allowance decides nothing, because a call before the window is rejected anyway:
  `DelegateContract.SkewDecidesNothing`.
- The data hash of a request is checked only when it is there, and null parameters are not checked against the
  receipt. `WorkerRuns.EveryCallIsJustified` says so.
- The agent id of a request's envelope is not compared with the sender named in its data, so the policy is asked
  about the sender the data names.
- `u8::from_str_radix` accepts a sign, so `+f` is a byte for the address parser (`Hex.PairValue`).
- A line with JSON `null` raises outside the executor's `try`; the model ends the connection there.
- The archive extractor for release assets refuses a file that comes twice; the remote one lets the last one
  count: `ProofExtraction.ExtractIntoDirectory`, `ProofExtraction.ExtractIntoMemory`.

## Model

| member | source | states |
|---|---|---|
| ReplayLedger.Ledger.WriteRecord | src/replay_ledger.py:211-282 | writes one record sealed with its MAC and changes no other row |
| ReplayLedger.Ledger.Begin | src/replay_ledger.py:285-385 | purge, integrity check, state check, lease, retry limit and grant leave exactly the table and outcome that the `LedgerOutcomes` results describe; an integrity error restores the table |
| ReplayLedger.Ledger.Heartbeat | src/replay_ledger.py:388-435 | renews a running row for the holder of its token and for nobody else, as `LedgerOutcomes.HeartbeatRenews` says on the fields |
| ReplayLedger.Ledger.Finalize | src/replay_ledger.py:438-488 | sets the final state behind the fence, turns a retryable failure at the cap into a final one, clears the token, as `LedgerOutcomes.FinalizeStores` says on the fields |
| ReplayLedger.Ledger.ConsumeResult | src/replay_ledger.py:491-537 | accepts a result key once per retention and refuses without a key or a secret |
| LedgerOutcomes.BeginAnswers | src/replay_ledger.py:334-385 | a live row's begin is granted if and only if attempts are left and the row is a retryable failure or RUNNING with 300 s since its last write; each refusal has its own cause |
| LedgerOutcomes.BeginLeaves | src/replay_ledger.py:334-385 | what the row holds after each answer: granted, given up with the reason, or untouched |
| LedgerOutcomes.FirstBegin | src/replay_ledger.py:304-332 | a request without a live row is granted its first of two attempts, and what the new row holds |
| LedgerOutcomes.TakenOverExactly | src/replay_ledger.py:342-383 | in every run, a request with a live row is granted if and only if an attempt is left and the last thing recorded is a retryable failure or lies 300 s back: a dead worker's request is taken over |
| LedgerOutcomes.FinalizeStores | src/replay_ledger.py:455-486 | a success is COMPLETED at any attempt; a failure is final if it was said to be or no attempt is left; the token is gone and the error the caller's, but for a last failure without one |
| LedgerOutcomes.FinalizeRefuses | src/replay_ledger.py:445-462 | any other finalize changes nothing, and raises exactly when the row does not verify |
| LedgerOutcomes.HeartbeatRenews | src/replay_ledger.py:388-435 | a heartbeat is written exactly for a running row behind the fence and changes the time of the last write only |
| LedgerOutcomes.ConsumeRecords | src/replay_ledger.py:491-537 | every answer of a consume and its cause; an accepted result is on record for 900 s or until the expiry given |
| LedgerOutcomes.VerifiesExactly | src/replay_ledger.py:198-205 | a row verifies if and only if no secret is asked of it or it carries the secret's MAC for its key and body |
| LedgerProtocol.InvPreserved | src/replay_ledger.py:285-488 | every step of every party keeps the watched row in agreement with the history of grants, renewals and finalizes |
| LedgerGuarantees.RetentionExact | src/replay_ledger.py:301-334 | in all runs a request is granted at most twice if and only if every begin comes strictly before the soonest of the expiries it is begun with |
| LedgerGuarantees.RetentionCoversValidity | src/replay_ledger.py:301-334 | a granted request's row is present until an expiry among those it was begun with, whatever else is purged |
| LedgerGuarantees.RowsCountGrants | src/replay_ledger.py:334-385 | in every run the attempt counter is the number of grants since the row was made, within the cap; a final failure means the cap was reached |
| LedgerGuarantees.TerminalStatesAreClosed | src/replay_ledger.py:336-364 | no continuation of any run that reached COMPLETED or FINAL_FAILURE leaves the pair or grants again, if and only if every begin comes before every expiry |
| LedgerGuarantees.StaleFinalizeReopens | src/replay_ledger.py:455-483 | where a begin may come at an expiry, a worker whose row has run out reopens the completed row of its successor with its first finalize, and the next begin is granted |
| LedgerGuarantees.OnlyStaleTokensReopen | src/replay_ledger.py:455-483 | in every run only a finalize with a token granted before the row was made takes a live row out of a terminal state |
| LedgerGuarantees.ReopenedExactly | src/replay_ledger.py:459-486 | a single step reopens a live terminal row if and only if it is a finalize that passes MAC and fence and whose resulting state is not terminal |
| LedgerGuarantees.SecondFinalizeReopens | src/replay_ledger.py:460-483 | a token that finalizes twice reopens a completed request and the next begin is granted |
| LedgerGuarantees.Fencing | src/replay_ledger.py:411-414 | in every run a row is RUNNING exactly when it carries a token, the token of the latest grant, and any other token changes nothing |
| LedgerGuarantees.LeaseExclusion | src/replay_ledger.py:342-383 | in every run consecutive grants are separated by a retryable finish, or by a whole lease after the earlier grant and each renewal, or the later one comes at or after the soonest expiry |
| LedgerGuarantees.RenewingHolderIsNeverDisplaced | src/agent_delegation_network.py:89-106 | until the soonest expiry a holder whose attempts to renew come within each lease succeeds every time; the row keeps its token and nobody else is granted |
| LedgerGuarantees.GrantedIsHeld | src/replay_ledger.py:304-383 | a granted worker is such a holder from the instant of its grant |
| LedgerGuarantees.TransactionFrame | src/replay_ledger.py:285-537 | a transaction changes its own key only, apart from purging exactly the expired rows; it never extends an expiry, and what it writes is sealed |
| LedgerGuarantees.HonestRowsVerify | src/replay_ledger.py:198-205 | parties who share a secret never meet an integrity error, over any run |
| LedgerGuarantees.IntegrityExactly | src/replay_ledger.py:198-205 | a transaction raises an integrity error if and only if it looks at a row that does not verify, and then leaves the table as it was |
| LedgerGuarantees.TamperedRowIsRefused | src/replay_ledger.py:102-205 | a row is refused by every transaction that looks at it if and only if its MAC is not the one made with the secret for its replay key and body: none, altered, moved from another replay key or made with another secret |
| Messages.SignedVerifies | src/terminal3_agent_auth_adapter.py:53-184 | a message signed for a payload its holder made verifies if and only if it is asked for its own action and its proof has not expired |
| Messages.AcceptedExactly | src/terminal3_agent_auth_adapter.py:121-184 | field by field, when a message is accepted, incomplete, expired or raises |
| Messages.VerifiedWasMade | src/terminal3_agent_auth_adapter.py:121-184 | the signed fields of a message that verifies are one payload made by the key's holder |
| Messages.AlteredIsRejected | src/terminal3_agent_auth_adapter.py:150-184 | no signed field can be changed, added or removed without the message failing, be the payload hash kept or made anew for a payload the key's holder did not make |
| Messages.ExtraFieldIgnored | src/terminal3_agent_auth_adapter.py:152-158 | fields outside payload and signature play no part in verification |
| Receipts.HonestReceiptAccepted | src/tee_authorization.py:56-179 | the receipt built for an enforced result is accepted, within both windows, by whoever expects what it is for |
| Receipts.ReceiptAcceptedExactly | src/tee_authorization.py:99-179 | field by field, when a receipt is accepted: what it decides, where it comes from, that it is in force and proven |
| Receipts.BuiltExactly | src/tee_authorization.py:56-96 | when a receipt can be built |
| Receipts.FingerprintDecidesBody | src/tee_authorization.py:31-53 | two receipts have one fingerprint if and only if they agree on all fourteen body fields |
| Receipts.RequestHashBinds | src/tee_authorization.py:18-28 | two request hashes are equal if and only if target and action are, and the parameters are or are both empty |
| Receipts.AcceptedReceiptIsAuthorized | src/tee_authorization.py:99-179 | an accepted receipt is a decision of the gateway on exactly this delegation, target, action, build and parameters, still in its window |
| DelegationRequests.ReplayKeyIdentifiesData | src/delegation_protocol.py:357-367 | two validated messages have one replay key if and only if they carry the same delegation data |
| DelegationRequests.AdmittedWithinRetention | src/agent_delegation_network.py:36-49 | every admission computes the replay expiry of the data at that instant and is no later than it |
| DelegationRequests.ReceiptIsReadable | src/tee_authorization.py:136-149 | the receipt of an admitted request authorizes until a readable instant that has not passed |
| DelegationRequests.ValidExactly | src/delegation_protocol.py:289-367 | field by field, when a message is valid, and that its key is then that of its data |
| DelegationRequests.ExpiryExactly | src/delegation_protocol.py:68-75 | the expiry is the stated one, an hour after the issue, or an hour from now |
| DelegationRequests.RetentionExactly | src/agent_delegation_network.py:36-49 | a request is kept until its own expiry or its receipt's, whichever comes first |
| DelegationRequests.ReceiptAskedFor | src/agent_delegation_network.py:63-86 | a receipt is asked for in live mode, by the flag, and wherever anything of a gateway is configured, and nowhere else |
| DelegationWorker.Worker.Screen | src/agent_delegation_network.py:310-373 | the checks before the ledger let a request through exactly when it is valid, allowed and has a handler; otherwise the signed reply is a failure, for the request if it was valid and for nobody if not |
| DelegationWorker.AllowedExactly | src/delegation_policy.py:197-226 | when the policy allows a request, said of its two maps |
| DelegationWorker.ScreenedExactly | src/agent_delegation_network.py:310-373 | when a message gets as far as the ledger: valid, allowed and for an action with a handler |
| DelegationWorker.Worker.Admit | src/agent_delegation_network.py:310-393 | a job starts exactly when the screening passes and the ledger grants; the ledger changes by that one begin, the request is kept, and every other outcome is a signed failure |
| DelegationWorker.BeginNames | src/agent_delegation_network.py:374-384 | what a begin says of the request: key, expiry, worker, delegation and receipt |
| DelegationWorker.NewResultTells | src/delegation_protocol.py:413-442 | what a result says, field by field |
| DelegationWorker.Worker.FinalizeJob | src/agent_delegation_network.py:412-442 | COMPLETED when the handler returns and RETRYABLE_FAILURE when it raises, under the job's own token; false exactly when the row fails its MAC |
| DelegationWorker.Worker.Execute | src/agent_delegation_network.py:412-491 | an open job is used up by one finalize; a handler that returned v is reported as COMPLETED with v and no error, one that raised m as FAILED with m and finalized as a failure to be retried; the result is stored and signed, and an unverifiable row stores nothing |
| DelegationWorker.Worker.Beat | src/agent_delegation_network.py:89-106 | one turn of the heartbeat thread is one heartbeat under the job's token |
| WorkerRuns.EveryCallIsJustified | src/agent_delegation_network.py:317-415 | in every run, each handler call of a worker in live mode, or of which a receipt is asked for any other reason, follows a verified signature, audience and data hash, a gateway decision on exactly this request, a policy allow for both sides, and a grant |
| WorkerRuns.StepRests | src/agent_delegation_network.py:310-415 | deliveries, calls, finalizes and foreign transactions of any kind leave every call backed by a screened message with the data and a recorded grant |
| RequestBound.StepKeeps | src/agent_delegation_network.py:374-491 | deliveries, handler calls, finalizes, heartbeats and foreign transactions keep grants, calls and tokens accounted for |
| RequestBound.HandlersRunAtMostTwice | src/agent_delegation_network.py:374-415 | however often and wherever a request that does not lapse is delivered, a handler is called for it at most twice |
| RequestBound.CallsBoundedExactly | src/delegation_protocol.py:147-149 | for any data, and any integrity secret the workers share, that bound holds of all runs if and only if no message with it passes a screening at or after the replay expiry it had when one passed before |
| RequestBound.FixedDataLapses | src/delegation_protocol.py:147-149 | with a stated expiry, that is if and only if none passes at the replay expiry itself |
| RequestBound.UnstatedDataLapses | src/delegation_protocol.py:68-75 | with neither time stated, that is if and only if none passes an hour after another or at the end of the receipt's authorization |
| RequestBound.UnstatedDataLapsesInTime | src/delegation_protocol.py:68-75 | under a clock without negative instants those two cases are all; without it there is one instant more, whose hour ends at zero |
| RequestLapses.BoundaryLapses | src/replay_ledger.py:301 | an honest request whose authorization ends while its proofs hold passes at that instant, and workers with one secret have runs with more than two calls |
| RequestLapses.UnstatedRunsThrice | src/delegation_protocol.py:68-75 | a request with neither time stated that is signed anew an hour later has, among workers with one secret, runs with more than two calls when no receipt is required |
| RequestLapses.BoundaryIsPossible | src/delegation_protocol.py:147-149 | for any working secret, at every instant there is a request in live mode that lapses then, under a digest without collisions |
| RequestLapses.UnstatedIsPossible | src/delegation_protocol.py:68-75 | for any working secret, at every instant there is a request without times that lapses an hour later, under a digest without collisions |
| ResultReplay.NonceCache.Prune | src/result_verifier.py:16-23 | leaves the longest suffix that is neither stale nor too long, with the set equal to its nonces |
| ResultReplay.NonceCache.ConsumeNonce | src/result_verifier.py:26-34 | accepts a nonce if and only if it is not empty, can be held in a set and is not in the window of accepted ones; the deque stays that window, ordered, distinct and equal to the set |
| ResultReplay.InWindowExactly | src/result_verifier.py:8-23 | an accepted nonce is in the window exactly while it is less than 900 s old and among the latest 4096 |
| ResultReplay.WindowUnique | src/result_verifier.py:16-34 | the window of a history at an instant is determined |
| ResultReplay.SingleAcceptanceExact | src/replay_ledger.py:491-537 | a result presented only between two instants is accepted at most once in all runs if and only if they are less than the retention apart |
| ResultReplay.HonestResultIsAcceptedOnce | src/result_verifier.py:37-54 | the 300 s of a proof lie within the 900 s of retention, so restarts that clear the cache cannot matter |
| ResultReplay.AcceptedWhenTried | src/replay_ledger.py:509-533 | over any run on a ledger without a row for it, a result is accepted if and only if somebody with a secret consumes it |
| ResultVerifier.Coordinator.VerifyWorkerResult | src/result_verifier.py:56-125 | returns Ok exactly when all checks pass, the nonce is there and not in the window, and the ledger accepts, and the data is then a COMPLETED result of the wanted delegation, worker and coordinator with the expected receipt; otherwise the fault of the first stage that fails; a nonce is used up even if the ledger refuses, and a failed check leaves no trace |
| ResultVerifier.CheckedExactly | src/result_verifier.py:56-124 | field by field, when a message passes every check |
| ResultVerifier.FailuresAreRefused | src/result_verifier.py:100-101 | data with any other status than COMPLETED is refused |
| ResultVerifier.ResultIsVouchedFor | src/result_verifier.py:56-124 | what passes is a success the worker issued within the proof's lifetime, for a delegation the gateway decided on for this worker, action, parameters and build, as the delegated receipt says |
| ResultVerifier.Coordinator.ConsumeResult | src/result_verifier.py:37-54 | one consume under the result's key, with the retention of the ledger |
| ResultVerifier.CheckedWasIssued | src/result_verifier.py:82-124 | whatever passes the checks was issued, as it is, by the expected worker within the lifetime of the proof |
| ResultVerifier.KeysAreDisjoint | src/result_verifier.py:38-44 | results and requests share a table but never a key |
| ResultVerifier.ResultIsAcceptedOnce | src/result_verifier.py:56-125 | a worker's result is accepted at most once by all coordinator processes that share a ledger, over any run |
| ResultVerifier.ResultIsAcceptedExactlyOnce | src/result_verifier.py:37-54 | and exactly once on a ledger without a row for it, if a process with a secret gets as far as consuming it |
| HonestPath.RequestRoundTrip | src/delegation_protocol.py:77-145 | what the worker reads from a request, with or without a receipt, is what the delegator asked for |
| HonestPath.NewRequestAsks | src/delegation_protocol.py:77-121 | a new request says all that was asked for, field by field |
| HonestPath.HonestRequestValidates | src/delegation_protocol.py:289-367 | an honest request validates at its target within all windows, under the key of its data |
| HonestPath.HonestRequestIsGranted | src/agent_delegation_network.py:310-384 | a worker whose policy and handlers allow it is granted the request when the ledger has no live row for it |
| HonestPath.HonestResultIsChecked | src/result_verifier.py:56-124 | the signed reply of a handler that returned passes every check of the coordinator |
| RoundTrip.HonestJobStarts | src/agent_delegation_network.py:310-393 | a worker that admits an honest request without a live row starts exactly its job, with an authentic row and no other new row |
| RoundTrip.HonestJobReplies | src/agent_delegation_network.py:412-491 | executing that job, whatever happened on the ledger since, gives the signed result of the handler if the row verifies |
| RoundTrip.HonestReplyIsAccepted | src/result_verifier.py:117-125 | the reply passes the checks, and with a new nonce and no live row the ledger accepts it |
| RoundTrip.HonestRoundTrip | src/result_verifier.py:56-125 | admission, execution and verification between honest parties return Ok with the handler's value under result, no error, and the status COMPLETED |
| RoundTrip.HonestResultIsAcceptedExactlyOnce | src/result_verifier.py:37-125 | an honest result passes the checks at every instant in time, and over any run of processes on a ledger without a row for it is accepted exactly once if it is presented |
| RoundTrip.SuccessIsPossible | src/result_verifier.py:37-125 | there is a delegation that meets all of this, and a run in which its result is accepted |
| HonestWorld.DigestInjective | src/terminal3_agent_auth_adapter.py:20-34 | there is a digest that no two documents share |
| HonestWorld.HonestIsPossible | src/tee_authorization.py:56-96 | at every instant there are honest parties, keys and an authorization for a delegation made then, for which everything assumed of signatures and digests holds together |
| HonestWorld.SealIsPossible | src/replay_ledger.py:102-130 | there is a MAC that no two records share |
| CanonicalJson.QuoteJsonString | scripts/verify_release.py:43-62 | the loop writes the escaped form of every character between quotes |
| CanonicalJson.CanonicalText | scripts/verify_release.py:65-85 | the printer writes the canonical text of every value |
| CanonicalJson.IntegerShape | scripts/verify_release.py:65-73 | integers are printed without leading zeros, and with a sign only when negative |
| CanonicalJson.CanonicalArray | scripts/verify_release.py:74-75 | list items in order, separated by commas |
| CanonicalJson.CanonicalObject | scripts/verify_release.py:76-84 | one pass over the sorted keys gives the members in code-point order |
| JsonParser.QuotedBack | scripts/verify_release.py:43-62 | unquoting inverts quoting on every string and in front of any text |
| JsonParser.CanonicalRoundTrip | scripts/verify_release.py:65-85 | parsing the canonical text gives the value back, with its objects in key order |
| JsonEquality.CanonicalDecidesSame | scripts/verify_release.py:65-85 | two values have one text if and only if they are equal up to the order of object entries |
| KeyOrder.StrictTotalOrder | t3n-bridge/src/release_proof.ts:17-26 | the key order is irreflexive, transitive and total |
| TsCanonical.CompareJsonKeys | t3n-bridge/src/release_proof.ts:17-26 | the comparator's sign is the code-point order, and it is zero if and only if the keys are equal |
| TsCanonical.StringifyIsQuote | t3n-bridge/src/release_proof.ts:32-34 | `JSON.stringify` on a well-formed string writes the Python text in UTF-16 |
| TsCanonical.UnitsEscapedExactly | t3n-bridge/src/release_proof.ts:32-34 | which code units are escaped, lone surrogates included |
| TsCanonical.PrintersAgree | t3n-bridge/src/release_proof.ts:28-51 | on every value both sides can hold the TypeScript printer writes the Python text; undefined entries count as absent |
| GatewayCanonical.TextsAgreeExactly | t3n-bridge/src/gateway_executor.ts:42-56 | the executor's text of a value is Python's `json.dumps` text if and only if no string in it goes beyond `~` and every integer is printed as it was written |
| GatewayCanonical.SafeTextsAgreeExactly | t3n-bridge/src/gateway_executor.ts:42-56 | with safe integers only the strings decide |
| GatewayCanonical.IndistinctNumbersDisagree | t3n-bridge/src/gateway_executor.ts:42-56 | of two integers that JavaScript prints alike at least one gets another text than Python's |
| GatewayCanonical.RequestHashesAgreeExactly | src/tee_authorization.py:18-28 | worker and executor compute one request hash if and only if target, action and parameters are such text with such integers and the parameters are not false, 0, "" or [] |
| GatewayCanonical.FalsyParametersDisagree | t3n-bridge/src/gateway_executor.ts:280-289 | for those four the hashed texts differ, whatever else is in the request |
| LineFraming.LinesContinue | t3n-bridge/src/gateway_executor.ts:310-318 | the complete lines of a stream are those of its beginning followed by those of the rest |
| GatewayExecutor.Executor.OnData | t3n-bridge/src/gateway_executor.ts:310-347 | after any chunk the connection is in the state the whole stream so far determines |
| GatewayExecutor.ServeConnection | t3n-bridge/src/gateway_executor.ts:306-347 | replies and dispatches are the same for every way of cutting the stream |
| GatewayExecutor.ConnectionReplies | t3n-bridge/src/gateway_executor.ts:314-347 | one reply for each non-blank line up to and including the first bad token, only authorized requests dispatched, nothing after |
| GatewayExecutor.LineServed | t3n-bridge/src/gateway_executor.ts:319-344 | what one line does to the connection in each case |
| GatewayClient.Client.OnSocketData | t3n-bridge/src/gateway_client.ts:234-257 | after any chunk the table is that of the lines received so far |
| GatewayClient.Client.Rpc | t3n-bridge/src/gateway_client.ts:282-292 | a request gets the next number and becomes pending |
| GatewayClient.PendingExactly | t3n-bridge/src/gateway_client.ts:234-292 | a number is pending if and only if it was issued and no line since carried it |
| GatewayClient.EachSettledOnce | t3n-bridge/src/gateway_client.ts:234-292 | every number issued is pending or settled, never both, and settled once |
| GatewayClient.SettledByItsReply | t3n-bridge/src/gateway_client.ts:234-257 | a request is settled by a later line that carries its number, with the reply on that line |
| GatewayClient.LineHandled | t3n-bridge/src/gateway_client.ts:234-257 | a line settles the pending request whose number it carries, and any other line does nothing |
| SimpleHash.SimpleHash | contract/src/lib.rs:1062-1069 | the loop computes the fold of the 64-bit steps over the bytes |
| SimpleHash.StepExactly | contract/src/lib.rs:1062-1069 | a step turns over the byte's bits in the state and multiplies by the 64-bit FNV prime |
| SimpleHash.StepIsBijective | contract/src/lib.rs:1062-1069 | for each byte a step is a bijection on the states, with its inverse given |
| SimpleHash.SuffixIsIrrelevant | contract/src/lib.rs:1062-1069 | two strings collide if and only if they collide with a common suffix appended |
| SimpleHash.OneByteNeverCollides | contract/src/lib.rs:1062-1069 | strings of one length that differ in one byte never collide |
| Hex.HexLower | contract/src/crypto.rs:71-77 | writes two lower-case digits for each byte |
| Hex.ParseAddrHex | contract/src/lib.rs:163-171 | twenty bytes from forty digits after an optional prefix, else nothing |
| Hex.DigitsExactly | contract/src/lib.rs:163-171 | the digits are those of either case and nothing else |
| Hex.AddressRoundTrip | contract/src/lib.rs:163-171 | parsing inverts printing, with and without the prefix |
| Hex.HexInjective | contract/src/crypto.rs:71-77 | different bytes print differently |
| DelegateContract.CanonicalRequestInjective | contract/src/lib.rs:252-259 | the signed request text determines target and action |
| DelegateContract.PreimageDetermines | contract/src/crypto.rs:21-28 | with the 16-byte credential id and nonce that are checked for, the signed preimage determines credential id, nonce and request hash |
| DelegateContract.PreimageNeedsLengths | contract/src/crypto.rs:21-28 | without those lengths bytes can be moved from one part to the next |
| DelegateContract.AcceptedIsInvoked | contract/src/lib.rs:240-273 | the agent the credential names made every accepted call, under its credential id and nonce and for its target and action, unless two request texts collide |
| DelegateContract.AcceptedExactly | contract/src/lib.rs:187-315 | a call is accepted with an answer if and only if credential, invocation and issuer hold of its decoded parts, condition by condition, and the answer is theirs |
| DelegateContract.DelegationIdBinds | contract/src/lib.rs:252-308 | two accepted calls with one delegation id agree on credential id, nonce, target and action, or show a collision of the truncated hash |
| DelegateContract.AcceptanceTimesAreClose | contract/src/lib.rs:219-297 | all times at which calls under one credential are accepted lie within its policy's TTL, itself between 1 and the global maximum |
| DelegateContract.SkewDecidesNothing | contract/src/lib.rs:227-235 | acceptance does not depend on the skew allowance as long as adding it does not wrap |
| DelegateContract.AcceptedIsIssued | contract/src/lib.rs:271-293 | only what the pinned issuer signed is accepted: a delegation credential for this contract and function, of the tenant when one is pinned, whose policy names this target and action; the answer is ROUTED to the target, with the issuer and the end of the credential |
| ContractWorld.AcceptedIsPossible | contract/src/lib.rs:219-308 | there are primitives and an agent for which all that is assumed holds and a call is accepted |
| ContractWorld.CollisionFreeIsPossible | scripts/verify_release.py:102-119 | there is a hashing of release proofs without collisions |
| ProofArchive.DigestDecidesFiles | scripts/verify_release.py:102-119 | two sets of proof inputs have one digest if and only if they agree on every file |
| ProofArchive.ConstantsFit | scripts/verify_release.py:24-31 | the file names are distinct and none carries the archive prefix |
| ProofExtraction.ExtractIntoDirectory | scripts/verify_release_asset.py:156-192 | succeeds if and only if the names written are a permutation of the files and none existed; on failure the members before the bad one are written |
| ProofExtraction.TargetExactly | scripts/verify_release_asset.py:156-192 | which file a member goes to, said of its name |
| ProofExtraction.ExpectedExactly | scripts/verify_release_remote.py:182-194 | which members the remote extractor expects, said of their names |
| ProofExtraction.ExtractIntoMemory | scripts/verify_release_remote.py:169-206 | succeeds if and only if every member is expected and every file readable; the result has exactly the files, the last member of each |
| ProofExtraction.Materialize | scripts/verify_release_remote.py:209-221 | writes every file if and only if none exists, keeps the rest of the directory, and otherwise leaves exactly the files before the first existing one written |
| ProofExtraction.MaterializedDigest | scripts/verify_release_remote.py:154-166 | the directory so written has the digest computed from memory |
| ProofExtraction.ExtractorsAgree | scripts/verify_release_asset.py:156-192 | a prefixed tar that can be taken into an empty directory can be taken into memory with the same digest |
| ProofExtraction.VerifyArchiveContents | scripts/verify_release_remote.py:224-234 | compares every file's digest and the digest of all |
| ProofExtraction.MatchesExactly | scripts/verify_release_remote.py:224-234 | an archive passes if and only if the directory has every file, byte for byte the archive's, and the attested digest |

## Left out

- Real cryptography: SHA-256, HMAC, Ed25519, secp256k1, Keccak and base64 are uninterpreted, and so are serde's parsing and the RFC 3339 and ISO formats.
- SQLite, its connection retries, file permissions and the derivation and files of integrity keys: a transaction is one step on a map, and a secret that is not hex does not occur.
- Clock readings between the checks of one call: each call is at one instant.
- The thread that wakes every 60 seconds: its attempts may come at any instants, and `LedgerGuarantees.RenewingHolderIsNeverDisplaced` asks only that they come within the lease.
- DelegationWorker.Worker.Execute: the heartbeat thread and other parties come between the phases and not inside a phase, because each phase is one method; `WorkerRuns` lets them come between the handler call and its finalize.
- Python's equality of True and 1 and of False and 0, also between nonces.
- The wording of the errors in failed replies, apart from the ledger's reasons, and which of several failing checks is reported.
- Numbers in documents other than multiples of a millionth.
- CanonicalJson.CanonicalText: floats are not values of the model, because how they are printed is library code.
- Lone surrogates in TypeScript strings other than in `TsCanonical.StringifyUnits`, and UTF-8 at chunk borders.
- GatewayCanonical.TextsAgreeExactly: undefined entries do not occur, because the executor's values come from parsed JSON and complete results; fractions are not values of the model, and 1.0 is one that the two print differently.
- The executor's methods other than their dispatch: `sign_receipt` builds the body of `Receipts.NewBody` field for field, and only its hashing differs.
- Reconnecting and socket errors of the gateway client.
- The zip layer around the remote tar, tar and zip parsing, and file-system errors.
- Release manifests, their schema and signature, the release-asset manifest, and the checks against GitHub: independent check lists.
- Changes to policies and handlers while a run goes on, apart from each site having its own.
- The delegation log, execution receipts for audit, and mock mode.
- The contract's feature patterns (auction, reputation, personalization, KYC, vault, votes, bonds) and its data processing: they would only add easy members.
- Addresses with characters outside ASCII, where the source's byte slices would panic.
