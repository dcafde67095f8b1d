# KufiChain: verified models of its protocols

This project models the state machines and protocols on which the correctness of KufiChain and its
e-wallet services rests, and proves what they keep over every run, every interleaving and every
input. `dafny verify dfyconfig.toml` checks all of it.

Code that changes stored state step by step is written as classes and methods; each method is proved
to do exactly what a specification function says, and the theorems are about those functions and
about runs of them. Protocols whose steps interleave on several machines are transition systems.
Clocks, random draws, the network, hashing, X.509 and the results of external commands are parameters,
so every theorem holds for whatever they return.

## What is modelled

- **Join voting by gossip** (`JoinRequests`, `JoinNode`, `JoinNetwork`, `JoinSafety`, `JoinFlows`,
  `JoinConvergence`). Every node keeps its own copy of a join request, casts one vote, merges votes
  that arrive late, twice or out of order, and decides by majority. The network is a set of sent
  packets that may be lost, repeated and reordered. An orderer node then runs an approval flow on a
  copy of the request, and writes that copy back when the flow fails. Every read and every write of a
  node's store may fail, and a save may be done and still report failure. Approval safety holds
  whatever fails; agreement on votes and forward-moving status need held requests to be readable; one
  flow per request and the safety of a node's own vote also need its approvals to be saved, which the
  code does not ensure (`FlowsStayIff`, `UnsavedApprovalStartsTwoFlows`). Assumed: request ids are
  fresh, submitted requests are pending without votes, and there is one node per MSP.
- **Canonical receipts** (`JsonText`, `JsonReader`, `JsonRoundTrip`, `Utf8`, `CanonicalJson`,
  `CanonicalJsonExact`, `CanonicalJsonTies`, `Sorting`, `ReceiptIntegrity`). The sorted-key printer, the
  escaping of strings, and the integrity block signed over the UTF-8 bytes of the printed text. What is
  printed is read back by a reader made from the grammar alone (sections 2 to 7 of RFC 8259), and the
  bytes by a decoder made from section 3 of RFC 3629. A finite number is named by its printed form,
  any number of the JSON grammar. The key comparator is any total preorder. It may put
  different keys level, as `localeCompare` does with canonically equivalent strings; a value prints
  alike in every key order exactly when no object in it has such a pair of keys
  (`OrderForgottenIffUntied`).
- **Rate limiting, TTL stores and admission** (`RateLimiting`, `TtlStores`, `Admission`). The lists
  and maps that are pruned in place are proved to answer like append-only logs of everything ever
  written. Admission reads the clock four times, in nanoseconds, and rounds to milliseconds where the
  gateway does.
- **The transactional outbox** (`Outbox`, `OutboxTable`, `OutboxSafety`). Claim, lease, publish, save, retry and give
  up, with any number of dispatchers over one table. Publishing and each save may fail, a save may be
  written and still report failure, a dispatcher may crash at any point, and time passes between any
  two steps. The safety theorems hold for a single dispatcher without any timing condition, and for
  several when each finishes its batch strictly before its lease ends; `OverrunUndoesPublished` shows
  that the condition is needed. A save that hides its success makes the catch branch rewrite a
  PUBLISHED row; `FinalForeverIff` says exactly which final rows can still change, whatever the timing.
- **Governance on the ledger** (`Governance`, `GovernanceSafety`). Transaction ids are used once. A call that returns an error
  commits nothing, so the EXPIRED status that the contract writes before returning its error never
  lands: an expired request stays PENDING and keeps blocking its MSP (`ExpiredBlocks`). Votes are taken
  up to the nanosecond at which the policy's hours end, unless their product overflows 64 bits
  (`HoursHonouredIff`). With no
  organisations counted the rejection test overrides the approval, and the requester is registered
  although its request ends REJECTED; `RegistersIffApproved` says exactly when that happens.
- **Chaincode lifecycle** (`Lifecycle`, `LifecycleRest`, `OrPolicy`). Any number of organisations and processes read the
  committed definition, approve and commit at the same time. Queries may fail, and a command may
  report failure after it took effect. The channel accepts a commit only for the next sequence.
  Each process carries the policy it was given, so an organisation may change its mind, and stale
  processes may still be under way. Commits come to rest once everyone wants the policy in force,
  provided that policy queries answer once a sequence has been read: a failed query reads as "another
  policy", and a majority that reads another policy commits again, as it does when its wording differs
  from the printed one (`MajorityCommitsAgain`, both directions).
- **Receipts** (`Receipts`, `EndorsementPolicy`, `ReceiptVerification`, `PaymentLedger`,
  `CommitmentTrail`). Building, the wire form and back, verification, rebuilding from the ledger, and
  the commitment that the payment chaincode stores. A rebuilt receipt passes the hash check exactly
  when the fields restored after hashing equal the hashed ones, so one that is rebuilt in a later
  millisecond does not pass (`RebuiltLaterFails`). A submission may commit without the gateway learning
  of it, so an error answer does not mean that nothing was written (`NothingWrittenIff`).
- **Submission with retries** (`SubmitRetry`). The semaphore, the attempt bound and the waits, for one
  call and for any interleaving of calls. The multiplier is a real number.

## Model

| member | source | states |
|---|---|---|
| JoinRequests.CountApprovals | chain/internal/nodemgr/types.go:143-156 | the counting loop returns the number of MSPs with a vote that approves, the orderer's left out unless TotalPeers is 0, when no MSP votes twice; in general the number of such votes |
| JoinRequests.FindVoter | chain/internal/nodemgr/types.go:164-171 | found exactly when the list holds a vote of that MSP |
| JoinRequests.CountIsCardinality | chain/internal/nodemgr/types.go:143-156 | without repeated voters the count is the number of distinct approving organisations |
| JoinRequests.MajorityMeans | chain/internal/nodemgr/types.go:135-161 | the majority rule holds exactly when TotalPeers/2+1 distinct MSPs other than the orderer approve, or one when TotalPeers is 0 |
| JoinRequests.ApproversGrow | chain/internal/nodemgr/types.go:135-161 | more votes never take a majority away |
| JoinRequests.SameVotesSameOutcome | chain/internal/nodemgr/types.go:143-161 | two lists of the same votes in any order give the same count and the same vote map |
| JoinNode.UpsertKeepsOnePerMsp | chain/internal/nodemgr/store.go:96-111 | one peer entry per MSP stays one per MSP; the new entry is in, the others stay, the number grows exactly for a new MSP |
| JoinNode.Manager.AddPeer | chain/internal/nodemgr/store.go:96-111 | the loop that replaces in place or appends leaves exactly the updated list; a list that cannot be read is started afresh, and a write that fails changes nothing |
| JoinNode.Manager.UpdatePeerLastSeen | chain/internal/nodemgr/store.go:114-128 | only the first entry of that MSP gets a new time, and only if the list can be read and written |
| JoinNode.Manager.CollectTargets | chain/internal/nodemgr/gossip.go:42-67 | all peer addresses in order, and the orderer's once if it is known and not among them |
| JoinNode.Manager.SendToAll | chain/internal/nodemgr/gossip.go:70-97 | one packet to every target, nothing else changes |
| JoinNode.Manager.SubmitJoinRequest | chain/internal/nodemgr/manager.go:58-86 | id, status and time filled in when missing, TotalPeers set to the number of peers, or 0 if they cannot be read; broadcast only if the save reports success, else an error |
| JoinNode.Manager.CheckMajority | chain/internal/nodemgr/manager.go:182-210 | a pending request with a majority becomes approved, and an orderer or bootstrap node starts one approval flow on a copy, whether the approval is saved or not |
| JoinNode.Manager.ReceiveGossipedRequest | chain/internal/nodemgr/manager.go:89-116 | an unknown or unreadable request is stored as it came; a known one takes over the votes of unheard MSPs and is checked only if there were any; every write may fail |
| JoinNode.Manager.CastVote | chain/internal/nodemgr/manager.go:119-156 | the four errors, or one own vote stored, broadcast and checked; after a save that fails or only reports failure nothing is sent |
| JoinNode.Manager.ReceiveGossipedVote | chain/internal/nodemgr/manager.go:159-179 | ignored for an unknown or unreadable request or a heard MSP; otherwise appended, saved if the write is done, and checked |
| JoinNode.Manager.FailApproval | chain/internal/nodemgr/manager.go:216-231 | the flow's own copy overwrites the stored request as rejected, if the write is done |
| JoinNode.Manager.CompleteApproval | chain/internal/nodemgr/manager.go:214-364 | the applicant becomes a peer, the others and the applicant are told, the stored request is not touched |
| JoinNetwork.StepKeeps | chain/internal/nodemgr/manager.go:58-231 | every enabled step of every node keeps the network invariant, whatever reads and writes fail |
| JoinNetwork.RunKeeps | chain/internal/nodemgr/manager.go:58-231 | the invariant holds after every run, whatever is lost, repeated, reordered, unreadable or unsaved |
| JoinSafety.VoteAgreement | chain/internal/nodemgr/manager.go:89-179 | in every run no list holds two votes of an MSP and every vote in it was cast; as long as held requests can be read, any two nodes holding a vote of one MSP on one request hold the same vote |
| JoinSafety.UnreadableRequestIsReset | chain/internal/nodemgr/manager.go:91-111 | a held request that cannot be read when it arrives again is stored afresh, pending and without votes, and its node may vote again |
| JoinSafety.LoggedVotesWereCast | chain/internal/nodemgr/manager.go:119-156 | such a vote was cast by that MSP's own node in an earlier step of the run |
| JoinSafety.ApprovalSafety | chain/internal/nodemgr/types.go:135-161 | in every run, whatever fails: for a request that any node holds as approved or rejected, at least TotalPeers/2+1 distinct MSPs other than the orderer cast a vote that approves, or somebody did when TotalPeers is 0; TotalPeers is the same on all nodes |
| JoinFlows.StatusStep | chain/internal/nodemgr/manager.go:182-231 | with the flows in order, one step moves a status only from pending to approved or from approved to rejected |
| JoinSafety.StatusNeverMovesBack | chain/internal/nodemgr/manager.go:119-231 | whatever writes fail, over a run no request is forgotten, its status never moves back, and flows are only added |
| JoinFlows.OneFlowPerRequest | chain/internal/nodemgr/manager.go:182-231 | if the node's approvals are saved: at most one flow per request, and only a failed flow rejects one; exactly a failed flow if failed flows also save their copies |
| JoinFlows.FlowsStayIff | chain/internal/nodemgr/manager.go:194-209 | the exact condition, step by step: the flows stay in order if and only if no flow is started without its approval being saved |
| JoinFlows.UnsavedApprovalStartsTwoFlows | chain/internal/nodemgr/manager.go:194-231 | for every orderer that has not voted: an unsaved approval leads to two running flows for one request, and the failure of the first loses the own vote and rejects the request while the second runs |
| JoinFlows.OwnVoteKept | chain/internal/nodemgr/manager.go:119-231 | if the node's approvals are saved, its own vote is never lost from the store or from a flow's copy, not even when a failing flow writes its old copy back |
| JoinConvergence.HandlersDeliver | chain/internal/nodemgr/manager.go:89-179 | with their writes done, the two receiving handlers change the stored request by one delivery and nothing else |
| JoinConvergence.OrderIsIrrelevant | chain/internal/nodemgr/manager.go:89-179 | deliveries with the same votes, in any order, grouping and number, leave the same vote map and status |
| JoinConvergence.RedeliveryIsHarmless | chain/internal/nodemgr/manager.go:89-179 | a delivery that brings nothing new changes nothing |
| JoinConvergence.ListIsWhatWasTakenIn | chain/internal/nodemgr/manager.go:89-179 | on every node, orderers included, the stored votes of a request that is not rejected are exactly those taken in, whatever writes fail |
| JoinConvergence.Convergence | chain/internal/nodemgr/manager.go:159-210 | two nodes, orderers included, that took in the same votes and have not rejected the request hold the same vote map; if both save their approvals, also the same status, approved exactly on a majority |
| JoinConvergence.EnoughApprovalsDecide | chain/internal/nodemgr/types.go:135-161 | the converse: on a node that saves its approvals, a request whose list has approving votes of TotalPeers/2+1 MSPs other than the orderer is not pending, nor with one approving vote when TotalPeers is 0 |
| JsonRoundTrip.QuoteUnique | e-wallet/chain-service/src/chain/chain.adapter.service.ts:628-653 | a quoted string can be read off the front of any text in one way only |
| JsonRoundTrip.TextReads | e-wallet/chain-service/src/chain/chain.adapter.service.ts:526-526 | the text that is published is JSON: a reader written from the grammar alone gets every value back |
| JsonRoundTrip.OrdinaryTextStays | e-wallet/chain-service/src/chain/chain.adapter.service.ts:639-639 | text without quotation marks, reverse solidi, controls and surrogates is printed as it is |
| JsonRoundTrip.EscapedUnit | e-wallet/chain-service/src/chain/chain.adapter.service.ts:639-639 | what must be escaped takes its two-unit form if it has one, and lower-case hexadecimal digits otherwise |
| CanonicalJsonExact.CanonicalTextSpells | e-wallet/chain-service/src/chain/chain.adapter.service.ts:628-653 | the recursive printer spells out the value with keys sorted at every depth |
| CanonicalJsonExact.CanonicalTextReads | e-wallet/chain-service/src/chain/chain.adapter.service.ts:628-653 | the canonical text is JSON: the grammar's reader gets from it the value with keys sorted at every depth |
| CanonicalJsonExact.CanonKeysAscend | e-wallet/chain-service/src/chain/chain.adapter.service.ts:644-650 | in that value every object has its own keys, ascending |
| CanonicalJsonExact.CanonicalTextIsUnambiguous | e-wallet/chain-service/src/chain/chain.adapter.service.ts:628-653 | equal texts come from values that are equal up to key order, whatever the comparator |
| CanonicalJsonExact.CanonicalPrintingIsExact | e-wallet/chain-service/src/chain/chain.adapter.service.ts:628-653 | a value in which no object has level keys prints like another value if and only if the two are equal up to the order of keys at every depth |
| CanonicalJsonTies.OrderForgottenIffUntied | e-wallet/chain-service/src/chain/chain.adapter.service.ts:644-650 | value by value: every key order of it prints alike if and only if no object in it has two different keys that the comparator puts level |
| CanonicalJsonTies.TiedKeysKeepTheirOrder | e-wallet/chain-service/src/chain/chain.adapter.service.ts:644-650 | two level keys print in insertion order, so equal objects get different texts |
| CanonicalJsonExact.CanonicalTextEncodesLosslessly | e-wallet/chain-service/src/chain/chain.adapter.service.ts:491-492 | canonical texts with the same UTF-8 bytes are the same text |
| Utf8.DecodesBack | e-wallet/chain-service/src/chain/chain.adapter.service.ts:492-492 | the bytes are UTF-8: a decoder written from the definition of the encoding gives back every text without lone surrogates |
| Utf8.EncodeUnique | e-wallet/chain-service/src/chain/chain.adapter.service.ts:492-492 | so texts without lone surrogates have different bytes |
| ReceiptIntegrity.ReceiptSigner.Enrich | e-wallet/chain-service/src/chain/chain.adapter.service.ts:463-531 | the receipt text is replaced by the enriched receipt exactly when signing is on, a key is there, the text parses and neither hashing, signing nor timestamping throws |
| ReceiptIntegrity.PublishedTextVerifies | e-wallet/chain-service/src/chain/chain.adapter.service.ts:485-526 | from the text that signing leaves behind, read by any reader that keeps values up to key order, deleting the block gives the text that was hashed and signed, and the block holds its hashes and signature |
| ReceiptIntegrity.BlockHolds | e-wallet/chain-service/src/chain/chain.adapter.service.ts:493-524 | the block names both hashes of the signed bytes, the hash that combines them, the key, its signature of those bytes and the attestation |
| ReceiptIntegrity.GrammarReadsBack | e-wallet/chain-service/src/chain/chain.adapter.service.ts:526-526 | the grammar's reader is such a reader |
| ReceiptIntegrity.SignatureSurvivesReordering | e-wallet/chain-service/src/chain/chain.adapter.service.ts:485-504 | re-ordering keys anywhere in a receipt without level keys does not change what was signed |
| ReceiptIntegrity.HashIdentifiesThePayload | e-wallet/chain-service/src/chain/chain.adapter.service.ts:485-498 | under a hash without collisions on bytes, and for a receipt without level keys, equal hashes mean equality up to key order outside the block |
| RateLimiting.Prune | chain/internal/api/middleware.go:147-153 | the filter loop keeps exactly the times after the cutoff, in order |
| RateLimiting.RateLimiter.Admit | chain/internal/api/middleware.go:137-177 | refused exactly when `limit` accepted requests of the full log lie in the window that ends now |
| RateLimiting.CountIs | chain/internal/api/middleware.go:147-153 | what is counted is the number of accepted requests in the half-open interval |
| RateLimiting.NoWindowOverLimit | chain/internal/api/middleware.go:137-177 | no half-open interval of the window's length, wherever it starts, holds more than `limit` accepted requests |
| RateLimiting.RateLimiter.NoClientOverLimit | chain/internal/api/middleware.go:118-177 | the same for every client of a limiter in any state it can reach |
| RateLimiting.AbbreviatesLater | chain/internal/api/middleware.go:143-153 | a list that stands for the full log at one cutoff stands for it at every later one |
| TtlStores.LatestIsTheLastEntry | chain/internal/api/store_persistent.go:310-336 | the answer read from a log is its last entry for the key |
| TtlStores.UsedIff | chain/internal/api/store_persistent.go:326-336 | a nonce is used exactly while less than the window has passed since it was last added |
| TtlStores.ServedIff | chain/internal/api/store_persistent.go:208-222 | a key is served the last receipt stored for it exactly up to and including its expiry |
| TtlStores.NonceStore.Add | chain/internal/api/store_persistent.go:310-323 | the entry is overwritten with the new time, and logged |
| TtlStores.NonceStore.Exists | chain/internal/api/store_persistent.go:326-336 | answers as the append-only log does, whatever was cleaned up before |
| TtlStores.NonceStore.Cleanup | chain/internal/api/store_persistent.go:339-354 | the loop deletes exactly the entries older than the window; no later answer changes |
| TtlStores.IdempotencyStore.Store | chain/internal/api/store_persistent.go:186-205 | the receipt is kept until now plus the TTL, and logged |
| TtlStores.IdempotencyStore.Get | chain/internal/api/store_persistent.go:208-222 | answers as the append-only log does |
| TtlStores.IdempotencyStore.Cleanup | chain/internal/api/store_persistent.go:225-240 | deletes exactly the expired entries; no later answer changes |
| Admission.Gateway.Admit | chain/internal/api/handlers.go:212-246 | the decision is the one read off the full logs: validation, cached receipt, used nonce, timestamp window, in this order; only an admission leaves a trace |
| Admission.DecisionMeans | chain/internal/api/handlers.go:212-246 | each answer if and only if: malformed (amount, parties, reference, key, nonce length); served; nonce spent; timestamp in the future or older than the window; admitted |
| Admission.Gateway.Complete | chain/internal/api/handlers.go:427-429 | a finished transfer's receipt is kept under its idempotency key |
| Admission.Gateway.CleanUp | chain/internal/api/store_persistent.go:225-240 | cleaning both stores changes neither log |
| Admission.ReplayOnlyAtTheEdge | chain/internal/api/handlers.go:231-246 | two admissions with one nonce and timestamp: the first is handled in that millisecond, the second exactly NonceWindow later |
| Admission.EdgeIsReal | chain/internal/api/handlers.go:231-246 | that repetition does get in, exactly when the window admits anything at all |
| Admission.NeverThreeTimes | chain/internal/api/handlers.go:231-246 | with a window of a millisecond or more, never a third time |
| Admission.AdmittedOnlyAfterExpiry | chain/internal/api/handlers.go:218-229 | when a request is admitted, every earlier result under its idempotency key has expired |
| Outbox.BackoffInRange | e-wallet/transaction-service/src/events/transaction-outbox.service.ts:190-196 | the delay lies between the capped delay and a fifth more, and the capped delay never shrinks |
| Outbox.DelayDoubles | e-wallet/transaction-service/src/events/transaction-outbox.service.ts:190-196 | the first capped delay is the lesser of initial and maximum, each next one the lesser of twice the last and the maximum |
| Outbox.BatchMeans | e-wallet/transaction-service/src/events/transaction-outbox.service.ts:124-143 | the claiming query returns only pending, due, unleased rows, and leaves such a row out only for a full batch of rows at least as early |
| Outbox.LeaseAll | e-wallet/transaction-service/src/events/transaction-outbox.service.ts:145-150 | the loop sets the lease on exactly the claimed rows |
| Outbox.Chunks | e-wallet/transaction-service/src/events/transaction-outbox.service.ts:102-113 | the claimed events are handed out once each, in order, at most as many at a time as there are workers |
| OutboxTable.TransactionOutbox.Enqueue | e-wallet/transaction-service/src/events/transaction-outbox.service.ts:81-93 | a new event is pending, without attempts, and due at once |
| OutboxTable.TransactionOutbox.ClaimDueEvents | e-wallet/transaction-service/src/events/transaction-outbox.service.ts:122-160 | exactly the rows of the query are leased, and then none of them is due any more |
| OutboxTable.TransactionOutbox.PublishClaimedEvent | e-wallet/transaction-service/src/events/transaction-outbox.service.ts:162-188 | what is written for each result of the broker call and the two saves, a save that is written but reports failure included; after a failure that leaves retries, the row is pending and due after the doubling delay and at most a fifth more |
| OutboxTable.RetryInRange | e-wallet/transaction-service/src/events/transaction-outbox.service.ts:190-196 | the wait after the k-th failure lies between d and 6d/5, where d starts at the lesser of initial and maximum and doubles up to the maximum |
| OutboxTable.StepsDoTheWork | e-wallet/transaction-service/src/events/transaction-outbox.service.ts:162-188 | the interleaved system's steps for one event, with only time between them, write what the method writes |
| OutboxSafety.StepKeeps | e-wallet/transaction-service/src/events/transaction-outbox.service.ts:81-188 | every step keeps the invariant: one dispatcher per event, its row pending under that dispatcher's lease |
| OutboxSafety.RunKeeps | e-wallet/transaction-service/src/events/transaction-outbox.service.ts:95-188 | after every run without overruns: attempts at most maxRetries+1, FAILED exactly at maxRetries+1, PUBLISHED only if really sent |
| OutboxSafety.FinalStaysFinal | e-wallet/transaction-service/src/events/transaction-outbox.service.ts:162-188 | a PUBLISHED or FAILED row that no dispatcher has outstanding never changes again, over any run |
| OutboxSafety.FinalForeverIff | e-wallet/transaction-service/src/events/transaction-outbox.service.ts:162-188 | the exact condition, in any state and with any overruns: a PUBLISHED or FAILED row keeps its contents over every run if and only if no dispatcher holds an object for it that differs |
| OutboxSafety.FinalStaysIff | e-wallet/transaction-service/src/events/transaction-outbox.service.ts:169-187 | without overruns that is the same as no dispatcher having it outstanding, and one step shows the difference |
| OutboxSafety.FailedIsLeftAlone | e-wallet/transaction-service/src/events/transaction-outbox.service.ts:176-187 | a FAILED row is never outstanding, so it is always final |
| OutboxSafety.HonestRun | e-wallet/transaction-service/src/events/transaction-outbox.service.ts:169-187 | when no save is written while reporting failure, no PUBLISHED row is outstanding either |
| OutboxSafety.NeverPendingAgain | e-wallet/transaction-service/src/events/transaction-outbox.service.ts:162-188 | whatever saves report, a PUBLISHED or FAILED row is never PENDING again |
| OutboxSafety.HiddenSaveRewritesPublished | e-wallet/transaction-service/src/events/transaction-outbox.service.ts:169-187 | a single dispatcher whose save of PUBLISHED is written but reports failure writes the row again, as FAILED when no retries are left |
| OutboxSafety.AttemptsStep | e-wallet/transaction-service/src/events/transaction-outbox.service.ts:169-187 | no event is lost or altered, and attempts go up by at most one a step |
| OutboxSafety.SoloNeverOverruns | e-wallet/transaction-service/src/events/transaction-outbox.service.ts:95-120 | a single dispatcher never overruns, however slow it is, because of its `running` flag |
| OutboxSafety.InTimeNeverOverruns | e-wallet/transaction-service/src/events/transaction-outbox.service.ts:122-160 | several never do when each finishes before its lease ends |
| OutboxSafety.Safety | e-wallet/transaction-service/src/events/transaction-outbox.service.ts:95-188 | both ways of running, from an empty table: attempts, FAILED and PUBLISHED are as they should be, no two dispatchers share an event, and final rows stay, exactly as they were if FAILED, not outstanding, or saved truthfully |
| OutboxSafety.OverrunUndoesPublished | e-wallet/transaction-service/src/events/transaction-outbox.service.ts:162-188 | without the timing condition a PUBLISHED row goes back to PENDING, or to FAILED when no retries are allowed |
| Governance.GovernanceContract.InitialisePolicy | chain/chaincode/governance/governance.go:84-104 | the default policy, MAJORITY with 168 hours, is written once and never over an existing one |
| Governance.GovernanceContract.ChangePolicy | chain/chaincode/governance/governance.go:381-408 | an invalid type, threshold or expiry changes nothing; otherwise the policy is replaced |
| Governance.GovernanceContract.FindPending | chain/chaincode/governance/governance.go:126-140 | found exactly when some request of that MSP is pending |
| Governance.GovernanceContract.CountExistingOrgs | chain/chaincode/governance/governance.go:471-483 | the number of registered organisations, or 0 when the query fails |
| Governance.GovernanceContract.SubmitJoin | chain/chaincode/governance/governance.go:110-182 | each error with nothing committed, or a new pending request with the majority of the counted organisations |
| Governance.GovernanceContract.CastJoinVote | chain/chaincode/governance/governance.go:202-302 | each error with nothing committed, the expiry write included, or the vote, its record, the outcome by the counts and the registration; refused as expired exactly after the policy's hours |
| Governance.GovernanceContract.RegisterOrgs | chain/chaincode/governance/governance.go:422-439 | every entry of the list is registered, a later one of the same MSP winning |
| Governance.Majority | chain/chaincode/governance/governance.go:144-147 | the least number above half of the organisations |
| GovernanceSafety.StepKeeps | chain/chaincode/governance/governance.go:83-302 | every call keeps the ledger invariant: outcome by counts, vote records matching exactly the votes, one pending request per MSP |
| GovernanceSafety.RunKeeps | chain/chaincode/governance/governance.go:83-302 | the invariant over every run |
| GovernanceSafety.ListRegisters | chain/chaincode/governance/governance.go:422-439 | the bootstrap list registers its MSPs and no others, the last entry of each winning |
| GovernanceSafety.VoteDecides | chain/chaincode/governance/governance.go:275-287 | a vote on a pending request leads to exactly one outcome by the counts: pending below both thresholds, approved at RequiredAck, rejected at TotalOrgs-RequiredAck+1 |
| GovernanceSafety.VotersDisjoint | chain/chaincode/governance/governance.go:237-272 | approvals and rejections share no voter and never hold the requester |
| GovernanceSafety.VoteInTime | chain/chaincode/governance/governance.go:221-235 | a new vote of another organisation on a pending request is committed if and only if the transaction time is at most the creation time plus the policy's hours (168 without a policy), and otherwise refused as expired |
| GovernanceSafety.HoursHonouredIff | chain/chaincode/governance/governance.go:520-526 | a policy's hours are kept to the nanosecond if and only if there are at most 2562047 of them; beyond that the 64-bit product wraps |
| GovernanceSafety.RegistersIffApproved | chain/chaincode/governance/governance.go:276-287 | a vote registers the requester exactly when the request ends approved, if organisations were counted or it rejects; otherwise it registers a rejected one |
| GovernanceSafety.NoOrgsApprovalOverwritten | chain/chaincode/governance/governance.go:276-287 | the concrete run in which a rejected request is registered |
| GovernanceSafety.VotingEnds | chain/chaincode/governance/governance.go:267-287 | a request takes at most TotalOrgs votes (one when none were counted) over any run, and is resolved when it has taken them |
| GovernanceSafety.ResolvedIsFinal | chain/chaincode/governance/governance.go:221-223 | a resolved request never changes again |
| GovernanceSafety.ExpiredBlocks | chain/chaincode/governance/governance.go:225-235 | as long as each vote on it comes after its expiry under the policy then in force, a request stays pending over any run and refuses every further request of its MSP |
| GovernanceSafety.OnlyMajorityRegisters | chain/chaincode/governance/governance.go:276-281 | an organisation enters the registry only by the bootstrap list or by a majority of approvals on its own request |
| OrPolicy.IsORPolicyRule | chain/internal/fabricops/chaincode.go:861-887 | accepts exactly the 1-of-n rules whose parts are a permutation of the n positions |
| OrPolicy.AcceptedMeansAnyIdentity | chain/internal/fabricops/chaincode.go:861-887 | an accepted rule is satisfied exactly when some listed identity signs |
| OrPolicy.SignatureEnvelopeToPolicy | chain/internal/fabricops/chaincode.go:831-859 | prints exactly the plain ORs over peer roles; the first principal that does not fit decides the error |
| OrPolicy.PrintedIsExact | chain/internal/fabricops/chaincode.go:853-858 | the printed policy depends only on the multiset of MSP ids, and for ids without a quote determines it |
| OrPolicy.PrintedLists | chain/internal/fabricops/chaincode.go:853-858 | the text is OR( ) around the MSP ids in ascending order |
| OrPolicy.PartsGrow | chain/internal/fabricops/chaincode.go:853-858 | each id quoted as its peer role, commas between them |
| OrPolicy.LexMeans | chain/internal/fabricops/chaincode.go:853-858 | that order is the dictionary's: first difference, prefixes first |
| Lifecycle.CommitReady | chain/internal/fabricops/chaincode.go:769-777 | the counting loop answers yes exactly on a strict majority of the table |
| Lifecycle.TableCounts | chain/internal/fabricops/chaincode.go:443-462 | that majority of the table is a strict majority of the channel's organisations |
| Lifecycle.CommitIsOneStep | chain/internal/fabricops/chaincode.go:466-514 | the committed sequence changes only by a submission, by one, to its target and its organisation's policy |
| Lifecycle.EachSequenceOnce | chain/internal/fabricops/chaincode.go:464-514 | over any run each sequence is committed once, in order, without a gap |
| Lifecycle.SuccessMeansCommitted | chain/internal/fabricops/chaincode.go:720-780 | a process that reports success has its target committed; retries stay within 24 and 12 attempts |
| Lifecycle.CommitNeedsMajority | chain/internal/fabricops/chaincode.go:669-687 | every commit is preceded by a moment at which more than half of the channel's organisations had approved exactly that definition |
| Lifecycle.ApprovalsAreOwn | chain/internal/fabricops/chaincode.go:347-391 | over any run, every approval was there at the start or was given by a process of its own organisation that wanted that policy at that sequence |
| Lifecycle.ApprovalTakenIff | chain/internal/fabricops/chaincode.go:267-391 | an approval is taken if and only if it is for the next sequence or repeats the committed definition; one that is already there is found |
| Lifecycle.TwelveCommits | chain/internal/fabricops/chaincode.go:466-514 | a commit that fails transiently is tried again, exactly twelve times in all, whatever other processes do |
| Lifecycle.TwentyFourApprovals | chain/internal/fabricops/chaincode.go:347-391 | an approval that fails transiently is tried exactly twenty-four times in all |
| LifecycleRest.AgreementEndsAllCommits | chain/internal/fabricops/chaincode.go:581-597 | whatever was wanted before, once every process under way wants the policy in force or is after a taken sequence, and every later one wants that policy, nothing is committed any more, if policy queries answer |
| LifecycleRest.MajorityCommitsAgain | chain/internal/fabricops/chaincode.go:720-779 | a strict majority that wants one policy commits it when nothing is committed yet, and over the one in force exactly when it wants one and reads that one as different: a change of mind, a wording that is not the printed one, or a failed query |
| EndorsementPolicy.VerifyPolicy | chain/internal/receipt/verify.go:266-305 | accepts all, some or more than half of the required MSPs, by kind; enough valid ones for MIN; any for unknown and missing policies |
| EndorsementPolicy.VerifyEndorsementPolicy | chain/internal/fabric/endorsement.go:157-206 | the same decision for AND, OR and MAJORITY; unknown kinds are refused; AND names the first missing MSP |
| EndorsementPolicy.MetAtMostAll | chain/internal/receipt/verify.go:274-280 | all positions are met exactly when every required MSP is valid, repeated names and the empty list included |
| EndorsementPolicy.Monotone | chain/internal/receipt/verify.go:266-305 | more valid MSPs never turn an accepted policy into a refused one |
| EndorsementPolicy.MetAsOrganisations | chain/internal/receipt/verify.go:290-297 | without repeated names the positions met are the organisations met |
| Receipts.Build | chain/internal/receipt/receipt.go:245-315 | every field of the receipt by the input and the clock, the endorsements' fingerprints and times included, with a hash that fits |
| Receipts.HashCovers | chain/internal/receipt/receipt.go:116-156 | under an injective hash, another receipt with this one's hash passes the check if and only if it agrees on the fifteen covered fields |
| Receipts.ToDTO | chain/internal/api/handlers.go:630-690 | the wire form, from which the receipt comes back without its signature |
| Receipts.FromDTO | chain/internal/api/handlers.go:782-842 | the unsigned receipt whose wire form is the given one |
| Receipts.RoundTrip | chain/internal/api/handlers.go:630-842 | there and back loses the signature only and keeps the outcome of both checks; back and there loses nothing |
| Receipts.RebuildReceiptFromLedger | chain/internal/api/handlers.go:721-772 | nothing, an error, or the rebuilt receipt with signature, algorithm, observation and orderer time restored |
| Receipts.RebuiltKeeps | chain/internal/api/handlers.go:721-772 | the rebuilt receipt keeps the stored identity, commitment, block, policy and non-zero times, and takes the ledger's endorsements as unchecked |
| Receipts.RebuiltPassesIff | chain/internal/api/handlers.go:758-771 | under an injective hash, the rebuilt receipt passes the hash check if and only if the stored algorithm, observation and orderer time are what building makes |
| Receipts.RebuiltLaterFails | chain/internal/api/handlers.go:758-771 | a built receipt that is rebuilt passes the hash check exactly in the same millisecond; its opening stays good |
| ReceiptVerification.CanTrustLedgerValidationFallback | chain/internal/receipt/verify.go:307-332 | allowed exactly for a valid transaction with endorsements of which none counts and none carries any proof |
| ReceiptVerification.CountsIffBelieved | chain/internal/receipt/verify.go:187-263 | for every endorsement: it counts if and only if its signature is recorded as valid and, without a certificate, its chain is too; with one, that decodes and parses, is in date, has the recorded fingerprint, and chains to its organisation's roots (an hour into its validity if expired ones are allowed) or, without roots, is recorded as chaining |
| ReceiptVerification.JudgeEndorsements | chain/internal/receipt/verify.go:150-159 | one result per endorsement, which counts exactly when the endorsement is to be believed, and the set of MSPs with one to be believed |
| ReceiptVerification.VerifyReceipt | chain/internal/receipt/verify.go:108-184 | valid exactly when no error is listed, which is exactly when hash, commitment, opening and validation code are right, there are endorsements, and the policy accepts the MSPs with an endorsement to be believed or the fallback applies; errors, warnings, flags and endorsement results as the checks find them |
| ReceiptVerification.WireKeepsVerdict | chain/internal/api/handlers.go:630-842 | the trip over the wire never changes the outcome of verification |
| PaymentLedger.PaymentContract.CreateTransferIntent | chain/chaincode/payment/payment.go:85-154 | refused for an existing id or bad private data with nothing committed, or a new pending intent |
| PaymentLedger.PaymentContract.SettleTransfer | chain/chaincode/payment/payment.go:231-291 | the three refusals, or the pending intent of the caller settled now |
| PaymentLedger.PaymentContract.CancelTransfer | chain/chaincode/payment/payment.go:294-355 | the three refusals, or the pending intent of the caller cancelled now |
| PaymentLedger.IntentEndures | chain/chaincode/payment/payment.go:231-355 | over any run an intent keeps its terms, and once settled or cancelled everything |
| PaymentLedger.ClosedOnce | chain/chaincode/payment/payment.go:249-341 | over any run a transfer is settled or cancelled at most once |
| PaymentLedger.OnlyItsCreatorCloses | chain/chaincode/payment/payment.go:231-355 | over any run, a transfer that is no longer pending was settled or cancelled by a call of the organisation that created it, at the time it shows |
| CommitmentTrail.CompleteTransfer | chain/internal/api/handlers.go:262-442 | submits until a success is learned of; then the receipt names that intent, opens the commitment as this very transfer and passes both checks. Either way every intent written on the way carries this commitment |
| CommitmentTrail.NewIntentsCarryTheCommitment | chain/internal/fabric/client.go:310-372 | whatever became of the tries, every new intent is one of theirs and carries the commitment |
| CommitmentTrail.NothingWrittenIff | chain/internal/fabric/client.go:345-353 | nothing is written exactly when no try landed: one that landed without being acknowledged stays |
| CommitmentTrail.VouchesForever | chain/chaincode/payment/payment.go:478-489 | after any later calls and over the wire the receipt still passes, and the ledger confirms its commitment and no other |
| CommitmentTrail.GatewayReceiptVerifies | chain/internal/receipt/verify.go:108-184 | a gateway receipt verifies against the on-chain commitment exactly when the transaction is valid, someone endorsed it, and the policy accepts or no endorsement carries any proof |
| SubmitRetry.Client.SubmitWithRetry | chain/internal/fabric/client.go:375-443 | every way out gives the semaphore back; exactly max(1, MaxAttempts) submissions when all fail transiently, never more; which waits, and which outcome, for every behaviour of the network |
| SubmitRetry.WaitsFollow | chain/internal/fabric/client.go:393-439 | the first wait and how each next one follows, with the defaults for unset values |
| SubmitRetry.GrownIs | chain/internal/fabric/client.go:435-439 | the last wait times the multiplier, rounded down, or the maximum once that is reached |
| SubmitRetry.WaitsCapped | chain/internal/fabric/client.go:435-439 | every wait after the first is at most the maximum |
| SubmitRetry.WaitsGrow | chain/internal/fabric/client.go:397-439 | waits never shrink for a multiplier of at least one and a first wait within the maximum |
| SubmitRetry.WaitsAreGeometric | chain/internal/fabric/client.go:397-439 | for a whole multiplier they are the geometric sequence cut off at the maximum |
| SubmitRetry.StepKeeps | chain/internal/fabric/client.go:376-443 | the semaphore counts exactly the calls in progress |
| SubmitRetry.NeverOverCapacity | chain/internal/fabric/client.go:43-54 | at most the configured number of calls is in progress at any moment of any run |
| SubmitRetry.RoomIsUsed | chain/internal/fabric/client.go:376-420 | in any run a waiting call starts exactly while fewer than the configured number are in progress, and a failed one is retried exactly while tries are left |
| SubmitRetry.TriesBounded | chain/internal/fabric/client.go:393-420 | whatever the interleaving, one call makes at most max(1, MaxAttempts) submissions |

## Left out

- HTTP, gRPC, Kafka, Docker, the `peer` command line and the file formats: only success or failure is modelled, as a choice of the environment. A join request file that a write leaves cut short counts as one that keeps failing to be read until it is written again.
- Races between two handlers of one node, and concurrent transfer requests at one gateway: each handler is one step, because the code gives no atomicity there to prove anything from.
- Building a joining peer's addresses from its host and port (`peerInfoFromJoinRequest`): the address is a parameter of the approval flow's last step.
- Peer lists and node configurations that cannot be read while gossip targets are collected: fewer packets are sent, which the loss of packets covers.
- JoinNode.Manager.CompleteApproval: does not model the collection of signatures, the channel update and the addresses, peers and bundles in the notification; a flow succeeds or fails as a whole, because these stages are foreign commands.
- A submission that commits only after the gateway has answered: it is a later call on the ledger.
- `localeCompare` itself: the comparator is any total preorder, with or without level keys.
- The choice of a number's digits: a number is named by its printed form, any number of the JSON grammar.
- A receipt that parses as an array: it is printed again unchanged, because a property set on an array is not serialised.
- The files of the nonce, idempotency and receipt stores: the gateway answers from memory, and writes them on the side.
- The saturation of Go durations at 64 bits in the TTL stores and waits; the wrap-around of the expiry product in the governance contract is modelled.
- Fields of a transfer request that the JSON binding rejects before validation starts.
- The length of a nonce in bytes: it is counted in characters.
- Creating, updating and reading outbox columns that no rule depends on (aggregate type and id, event type, update time).
- Creation times of governance requests that are not valid timestamps, which never expire, and MSP ids that cannot be composite keys.
- The lifecycle commands as methods of one process: with several organisations each command is a separate step, so the process is a state machine; only its counting loop is a method.
- Building images, installing packages, starting containers and notifying peers: they can only make a process stop or wait.
- Signature policies that are not role principals or plain ORs, beyond their refusal.
- The difference between a missing and an empty list of endorsements in the JSON that is hashed.
- Certificates, signatures, hashes, PEM and hexadecimal encoding: functions that are given. Revocation checking always answers "not revoked" and has no part in the result.
- Error texts of a verification result, and its time of verification.
- Choosing collections and endorsing organisations, private data contents, and ledger queries.
- Floating-point rounding of the retry wait: the multiplier is a real number, and infinities are not modelled.
- Which error texts are retryable: each attempt is transient or not.
