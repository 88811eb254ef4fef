# Verification of the trade ledger and its authority protocol

The repository lets a trading system take risk only through an append-only ledger. This project models that ledger,
everything that is computed from it, and six smaller programs beside it, and proves what they promise.

**The ledger and the protocol on it.** A log is a value (`Ledger.dfy`): nothing, or one more event after what was
there before. `TradeLedger.dfy` adds the hash chain, the reload with its two passes, and the class whose events, key
index, unresolved set and file are updated in place. `Firewall.dfy`, `Envelope.dfy`, `Execution.dfy`, `Trace.dfy`,
`Pipeline.dfy` and `Replay.dfy` specify the capital firewall, authorization envelopes, order submission and broker
recovery, trace ingestion, the authority pipeline, replay and restart as functions of the log; `Services.dfy` holds
the classes and methods that update the ledger step by step, each proved against its function. `Lawful.dfy` states
what each type of event may assume of the log before it; `Protocol.dfy` shows that every operation respects that, and
proves the safety results over all runs, with crashes, restarts and an arbitrary broker. `Grants.dfy` says exactly
when the firewall grants, `Effects.dfy` what a caller can rely on afterwards and `Retries.dfy` what repeated requests
do, `Admission.dfy` exactly which envelopes verify and which orders are sent, `FreshAuthority.dfy` that a new request
is granted in six events, `Releases.dfy` exactly when a release is recorded and what it frees, `Recovery.dfy` which
observations settle a submitted order, `Resume.dfy` what becomes of a batch that a crash cut short. `Liveness.dfy`
shows that the global risk block always has a way out. `OutOfOrder.dfy` and `Reachable.dfy` hold runs from the empty
ledger: one that breaks the cap, one that reaches the broker, and those that end in an outcome nobody wants.

**The backtests.** `Backtest.dfy` is the canonical execution simulator, `RegimeSwitch.dfy` the day-by-day one.

**The smaller programs.** `Record.dfy` is the authorization record with its printer and parser, on the decimal
numerals of `Decimals.dfy`; `RecordCases.dfy` holds records that its reader refuses. `Quota.dfy` is the selection of
evidence files under a quota, `Ticks.dfy` and `Quantile.dfy` the tick sampler and its weighted quantile,
`IniLines.dfy`, `IniFile.dfy` and `IniEditor.dfy` the INI editor. `Options.dfy` and `Texts.dfy` are shared.

Times are integers, risks and prices are reals, the event hash is a parameter of which nothing is assumed, the broker
is any response, malformed answer or exception, and the tick feed is any function.

## Where the code and its own promises differ

- The cap on authorized risk is checked only at the instant of issue. Issued out of order, authorizations can exceed
  it: `OutOfOrder.OutOfOrderIssueBreaksCap` is a run, `Lawful.IssueKeepsCapExactly` and `Lawful.CapAlwaysKeptExactly`
  are the exact conditions.
- Trace ingestion is all-or-nothing only for batches in which every record has a nonempty key and event id and none
  repeats a known key with the event id of another event: `Trace.CommitCompletesExactly` is the exact condition,
  `Reachable.HalfABatchIsReached` and `Reachable.EmptyIdLeavesHalfABatch` are runs into half a batch.
- A batch that was recorded completely is not always accepted again. It is refused if it holds an outcome observation,
  or a record whose event id by now belongs to another key: `Resume.IngestTwice` is the exact condition,
  `Reachable.CompletedObservationIsRefused` and `Reachable.CompletedBatchIsRefusedForAnId` are runs. The same holds of
  a batch that a crash cut short (`Resume.ResumedIngestExactly`).
- The adapter says that any doubt about the broker's answer demands reconciliation. A malformed or unusable answer
  leaves the order submitted but nothing unresolved, so new risk is not blocked:
  `Reachable.UnusableAnswerBlocksNothing` is a run, `Liveness.SubmitBlocksExactly` the exact condition. The same holds
  of a crash between the call and the journal (`Liveness.CrashBlocksNothing`,
  `Reachable.CrashAfterCallBlocksNothing`).
- A submission known only from a trace cannot be settled by an observation that names its symbol:
  `Reachable.TracedSubmissionNeverSettles` is a run, `Recovery.RecoverySettlesExactly` the exact condition. Traces and
  reconciliation still settle it.
- A reservation that was released can be released again under a new key; the release is recorded and frees nothing:
  `Releases.SecondReleaseFreesNothing` and `Releases.SecondReleasePreFreesNothing` say when,
  `Reachable.SecondReleaseIsRecorded` and `Reachable.SecondCancellationIsRecorded` are runs.
- The record printer accepts fields with line break characters other than line feed and carriage return; the parser
  refuses such a line. A record can also be built within its expiry second, when the parser already refuses it, or
  with a risk so small that it is printed as zero: `Record.RoundTripExactly` is the exact condition,
  `RecordCases.LineBreakIsRefused`, `RecordCases.ExpirySecondIsRefused` and `RecordCases.TinyRiskIsRefused` are
  records.
- A file that a workflow profile names is accepted without the size checks: `Quota.OversizedExactly` is the exact
  condition, `Quota.OversizedFileIsSelected` a file.

## Model

| member | source | states |
|---|---|---|
| Ledger.AppendExactly | tools/trade_ledger_v1.py:158-230 | an append is recorded exactly when the longer log is again well formed; every other answer leaves the log as it was |
| Ledger.RetryExactly | tools/trade_ledger_v1.py:181-197 | a request whose idempotency key is known never changes the log, and is answered with the recorded event exactly when it repeats its meaning and does not carry the id of another event |
| Ledger.AllowedExactly | tools/trade_ledger_v1.py:35-49 | the table raises the rank of a trade by one, except that an open trade may close unmanaged, a managed one may be managed again, and a rejected one can only be reconciled |
| Ledger.NeverBack | tools/trade_ledger_v1.py:35-49 | along every extension of a sound log a trade keeps its state or moves to one of higher rank |
| Ledger.EnteredOnce | tools/trade_ledger_v1.py:35-49 | a trade enters no state twice, except `Managed` |
| Ledger.RejectedIsUnresolved | tools/trade_ledger_v1.py:226-230 | a rejected trade is in the unresolved set until it is reconciled |
| TradeLedgers.ReloadRestores | tools/trade_ledger_v1.py:299-366 | the file written for a sound log is accepted on reload and gives back the same events |
| TradeLedgers.ChainedExactly | tools/trade_ledger_v1.py:339-354 | a file passes the sequence, link and hash checks exactly when it is the hash chain of its own events |
| TradeLedgers.RebuiltExactly | tools/trade_ledger_v1.py:158-230 | of the chained files, exactly the accepted ones with nonempty identities can be rebuilt event by event with append |
| TradeLedgers.FinalHashBindsHistory | tools/trade_ledger_v1.py:89-91 | for any event hash, two nonempty chained files with the same final hash are the same file, or two of their records show a collision of the hash |
| TradeLedgers.TradeLedger.LoadAndVerify | tools/trade_ledger_v1.py:299-366 | the loader, with its two passes, succeeds exactly on accepted files and then holds their events, key index and unresolved set |
| TradeLedgers.TradeLedger.ReadChain | tools/trade_ledger_v1.py:299-354 | the first pass fails only on files that are not accepted, and otherwise leaves a chained file with distinct keys and ids |
| TradeLedgers.TradeLedger.Append | tools/trade_ledger_v1.py:158-230 | the method on events, index, unresolved set and file gives the answer of the specification and keeps all four in step |
| TradeLedgers.TradeLedger.Reconcile | tools/trade_ledger_v1.py:232-289 | only a closed or rejected trade is touched: it becomes `Reconciled` exactly with equal snapshots under new names, and unequal ones are journaled, leave its state and put it on the unresolved set |
| TradeLedgers.ReconciliationIsRight | tools/trade_ledger_v1.py:232-289 | the same on every log, for known names too, with every other trade left as it was |
| TradeLedgers.TradeLedger.StateOf | tools/trade_ledger_v1.py:151-156 | the loop returns the last state recorded for the trade |
| TradeLedgers.TradeLedger.StateOfBefore | tools/trade_ledger_v1.py:368-375 | the loop returns the state before the event with the given number, for numbers outside the ledger too |
| TradeLedgers.TradeLedger.AssertNoUnresolvedReconciliation | tools/trade_ledger_v1.py:144-149 | new risk is let through exactly when nothing is unresolved |
| Lawful.TotalIsPlainSum | tools/capital_firewall_v1.py:92-128 | on every log the protocol can reach the total is never refused as ambiguous: it is the plain sum over unrevoked issues in their window |
| Lawful.RiskMoves | tools/capital_firewall_v1.py:92-128 | an issue adds its risk from its instant to its expiry, a revocation takes it away from its own instant to that expiry, and no other event moves the authorized risk of any instant |
| Lawful.PeakAtIssueInstant | tools/capital_firewall_v1.py:92-128 | the load at any instant is reached or exceeded at an earlier issue instant |
| Lawful.IssueKeepsCapExactly | tools/capital_firewall_v1.py:276-293 | the cap, checked at the instant of issue only, is kept at every instant exactly when the new authorization also fits at the later issue instants inside its window |
| Lawful.CapAtEveryInstant | tools/capital_firewall_v1.py:92-128 | authorizations recorded in the order of their issue instants keep the cap at every instant |
| Lawful.CapAlwaysKeptExactly | tools/capital_firewall_v1.py:276-293 | over a whole history in any order the cap was kept throughout exactly when every authorization fitted when it was issued |
| OutOfOrder.OutOfOrderIssueBreaksCap | tools/capital_firewall_v1.py:276-293 | a run of eight operations, for any cap, that issues out of order and authorizes twice the cap at one instant |
| Lawful.IssuedOnceRevokedOnce | tools/capital_firewall_v1.py:168-191 | an authorization is issued at most once per trade and revoked at most once, only after its issue |
| Lawful.ReservedOnce | tools/capital_firewall_v1.py:392-446 | a reservation id is created at most once per trade |
| Lawful.HeldAfter | tools/capital_firewall_v1.py:203-214 | the capital held under an authorization changes only by a reservation and by the first release of one, by the amount reserved; a second release frees nothing |
| Lawful.ReservedWithinAuthorization | tools/capital_firewall_v1.py:392-446 | active reservations lie between zero and the authorized risk, which lies within the cap |
| Lawful.HeldFromSubmissionToClose | tools/capital_firewall_v1.py:472-595 | from submission until the trade is closed the capital held under each of its authorizations does not change |
| Services.CapitalFirewall.TotalAuthorizedRiskAt | tools/capital_firewall_v1.py:92-128 | the accumulation over issued pairs in any order, with its refusals, equals the sum over the log, or refuses exactly the ambiguous logs |
| Services.CapitalFirewall.IssueAuthorization | tools/capital_firewall_v1.py:216-293 | the method leaves the ledger and the error of the specification, which `Protocol.IssueLawful` shows to keep the log lawful |
| Services.CapitalFirewall.AuthorizeTrade | tools/capital_firewall_v1.py:295-329 | the checks, made one by one on the events, leave the log and the error of the specification; after success the trade is authorized, or was before on a retry |
| Services.CapitalFirewall.RevokeAuthorization | tools/capital_firewall_v1.py:331-390 | the checks, made one by one on the events, leave the log and the error of the specification; after success the authorization is on record as revoked |
| Services.CapitalFirewall.Reserve | tools/capital_firewall_v1.py:392-446 | the checks, with the active sum taken from the dictionary of created and the set of released reservations, leave the log and the error of the specification; a new reservation is active with its amount and expiry and raises the active sum by exactly its amount |
| Services.CapitalFirewall.ActiveReservedAmount | tools/capital_firewall_v1.py:203-214 | the sum over the dictionary of created amounts without the released ids, in any order, is the capital held according to the log |
| Services.CapitalFirewall.ReleasePreExecution | tools/capital_firewall_v1.py:472-534 | the method releases before execution as specified: only after revocation, of a trade still authorized |
| Services.CapitalFirewall.Release | tools/capital_firewall_v1.py:536-595 | the method releases after close as specified: only of closed or reconciled trades |
| Protocol.IssueLawful | tools/capital_firewall_v1.py:216-293 | issuing on a lawful log only extends it, and keeps it lawful |
| Protocol.ReserveLawful | tools/capital_firewall_v1.py:392-446 | reserving on a lawful log only extends it, and keeps it lawful |
| Protocol.RevokeLawful | tools/capital_firewall_v1.py:331-390 | revoking on a lawful log only extends it, and keeps it lawful |
| Protocol.ReleaseLawful | tools/capital_firewall_v1.py:536-595 | releasing after close on a lawful log only extends it, and keeps it lawful |
| Protocol.ReleasePreLawful | tools/capital_firewall_v1.py:472-534 | releasing before execution on a lawful log only extends it, and keeps it lawful |
| Grants.IssueExactly | tools/capital_firewall_v1.py:216-293 | an authorization is issued exactly when its terms are in order, it fits under the cap at its instant beside what is authorized then, nothing is unresolved, the trade is risk-reserved, it was never issued, and the key and id are new; one event with its terms is then added |
| Grants.AuthorizeExactly | tools/capital_firewall_v1.py:295-329 | a trade is authorized exactly when its authorization was issued, is neither revoked nor expired, nothing is unresolved, the trade is risk-reserved, and the key and id are new |
| Grants.ReserveExactly | tools/capital_firewall_v1.py:392-446 | capital is reserved exactly when the authorization is good, the amount is positive and fits beside what is held, the reservation id is new, nothing is unresolved, the trade is authorized, and the key and id are new |
| Grants.RevokeExactly | tools/capital_firewall_v1.py:331-390 | an authorization is revoked exactly when it was issued by then and not revoked, a reason is given, nothing is unresolved, the trade is authorized, submitted or accepted, and the key and id are new |
| Retries.IssueRepeated | tools/capital_firewall_v1.py:216-293 | an issue on record is answered without error and writes nothing when it is asked for again, under any event id |
| Retries.AuthorizeRepeated | tools/capital_firewall_v1.py:295-329 | the same of an authorization of the trade, at any time |
| Retries.ReserveRepeated | tools/capital_firewall_v1.py:392-446 | the same of a reservation, at any time and under any key |
| Retries.RevokeRepeated | tools/capital_firewall_v1.py:331-390 | the same of a revocation |
| Retries.ReleaseRepeated | tools/capital_firewall_v1.py:536-595 | the same of a release after close, while nothing is unresolved |
| Effects.IssueSucceeds | tools/capital_firewall_v1.py:216-293 | after an issue without error the authorization is on record with the terms asked for, and a new one is active |
| Effects.ReserveSucceeds | tools/capital_firewall_v1.py:392-446 | after a reservation without error it is on record exactly once; a new one is active and adds exactly its amount to the active sum |
| Effects.RevokeSucceeds | tools/capital_firewall_v1.py:331-390 | after a revocation without error exactly one revocation is on record, with this reason and instant |
| Effects.AuthorizeSucceeds | tools/capital_firewall_v1.py:295-329 | after an authorization without error the trade is authorized, coming from risk reserved, or was authorized before |
| Releases.ReleaseExactly | tools/capital_firewall_v1.py:536-595 | a release after close is recorded exactly when the reservation is on record, nothing is unresolved, the trade is closed or reconciled and the key and id are new; it frees the amount reserved, or nothing if the reservation was released before |
| Releases.ReleasePreExactly | tools/capital_firewall_v1.py:472-534 | a release before execution is recorded exactly when moreover a reason is given, the authorization is revoked and the trade is still authorized; it frees the amount reserved, or nothing if the reservation was released before |
| Releases.SecondReleaseFreesNothing | tools/capital_firewall_v1.py:536-595 | a reservation released before is released again under exactly the same conditions, and the held capital does not change |
| Releases.SecondReleasePreFreesNothing | tools/capital_firewall_v1.py:472-534 | the same before execution: a reservation released before is released again under exactly the same conditions, and the held capital does not change |
| Reachable.SecondReleaseIsRecorded | tools/capital_firewall_v1.py:536-595 | a run from the empty ledger that releases one reservation twice after close: both releases are on the log, the second frees nothing |
| Reachable.SecondCancellationIsRecorded | tools/capital_firewall_v1.py:472-534 | a run from the empty ledger that releases one reservation twice before execution, after a revocation |
| Envelopes.BuiltVerifiesExactly | tools/runtime_authorization_envelope_v1.py:56-92 | an envelope built on a ledger verifies on every later ledger and at every time exactly while it has not expired, was not spent and nothing is unresolved |
| Envelopes.IssueTerms | tools/capital_firewall_v1.py:216-293 | every authorization on record was issued within the cap, for at most a day, with a proof that names it and its expiry |
| Envelopes.SpentForever | tools/runtime_authorization_envelope_v1.py:169-203 | once the log holds a revocation, a release of its reservation or a submission of its trade, an envelope fails on every extension, at every time |
| Admission.VerifiesExactly | tools/runtime_authorization_envelope_v1.py:95-203 | an envelope verifies exactly when it is sealed, the ledger records one issue and one reservation with its terms, it is not expired, revoked or released, its trade is authorized and nothing is unresolved |
| Admission.OverTheCapNeverVerifies | tools/runtime_authorization_envelope_v1.py:134-149 | no ledger makes an envelope for more than 0.6 percent good, nor one that reserves more than it was given |
| Admission.BuildsExactly | tools/runtime_authorization_envelope_v1.py:56-92 | an envelope is built exactly when some capital is asked for, the reservation named holds it, and authorization, trade and ledger are in order |
| Admission.SentExactly | tools/execution_admission_v1.py:36-102 | an order is sent exactly when it is authentic, its envelope verifies, its symbol, timeframe, side, contract, levels and risk keep to the authorization on record, and the key and id are new |
| Execution.CallMeansNewIntent | tools/mt5_execution_adapter_v1.py:143-174 | the broker is called only after a submission that is new on the ledger and says what was ordered, for a trade never submitted before, with symbol, timeframe and risk of the authorization on record |
| Protocol.EveryOpLawful | tools/capital_firewall_v1.py:72-595 | every operation of the control plane, firewall, adapter, recovery, trace bridge and reconciliation extends the log lawfully |
| Protocol.RunSafe | tools/mt5_execution_adapter_v1.py:116-203 | over every run with crashes, restarts and any broker the log stays lawful and every broker call stays justified |
| Protocol.SubmittedAtMostOnce | tools/mt5_execution_adapter_v1.py:125-203 | in every run no trade reaches the broker twice, and each call follows its durable intent, which says what was ordered, on a ledger that had nothing unresolved and whose authorization fixes the symbol, timeframe, contract and risk of the order |
| Reachable.BrokerIsReached | tools/mt5_execution_adapter_v1.py:125-182 | for every cap and any broker a run from the empty ledger ends in exactly one broker call |
| Protocol.RunKeepsCap | tools/capital_firewall_v1.py:92-128 | in every run that issues in order the cap holds at every instant and the total is the plain sum |
| Services.MT5ExecutionAdapter.Submit | tools/mt5_execution_adapter_v1.py:116-395 | the submission around the broker call leaves the specified ledger, calls the gateway at most once, after the intent is on the ledger, and its answer tells where the trade is and whether it is unresolved |
| Liveness.SubmitBlocksExactly | tools/mt5_execution_adapter_v1.py:176-385 | after a call new risk is blocked exactly when the behaviour is journaled as trouble and the key and id of the journal entry were new before the call; a malformed or unusable answer blocks nothing |
| Liveness.SubmitOutcomesExactly | tools/mt5_execution_adapter_v1.py:205-385 | after a call the order is accepted exactly when the answer shows a complete fill of this order, rejected exactly when it shows a refusal with nothing filled, and the key and id of the journal entry were new before the call; otherwise it stays submitted |
| Liveness.ClassifiedExactly | tools/mt5_execution_adapter_v1.py:205-351 | the four usable answers are a complete fill, a refusal, a partial fill and a resting order of this very order, each with its identifiers and volumes |
| Liveness.OutcomeSays | tools/mt5_execution_adapter_v1.py:183-385 | the journal entry repeats the submission of the intent and the identifiers, volumes and reason of the answer |
| Reachable.UnusableAnswerBlocksNothing | tools/mt5_execution_adapter_v1.py:205-215 | a run from the empty ledger in which a malformed answer, or one without a status, leaves the order submitted and new risk allowed |
| Liveness.CrashBlocksNothing | tools/mt5_execution_adapter_v1.py:161-203 | a crash between the durable intent and the journal leaves the order submitted and new risk allowed |
| Reachable.CrashAfterCallBlocksNothing | tools/mt5_execution_adapter_v1.py:176-203 | a run from the empty ledger with one broker call and a crash after it, which leaves the order submitted and new risk allowed |
| Liveness.UnresolvedIsAtTheBroker | tools/trade_ledger_v1.py:226-230 | every unresolved trade lies between submission and close or is rejected |
| Liveness.CanSettle | tools/broker_outcome_recovery_v1.py:47-126 | from there finitely many trace and reconciliation steps, none refused by the global block, reconcile the trade and take it off the unresolved set |
| Liveness.NeverPermanentlyBlocked | tools/trade_ledger_v1.py:226-268 | from every reachable system settling steps alone clear the whole unresolved set |
| Recovery.RecoverySettlesExactly | tools/broker_outcome_recovery_v1.py:38-134 | on every sound ledger a final observation settles a submitted trade exactly when it is about the one submission on record, names its deal as its status demands and comes under a new key and id; else the trade stays submitted |
| Recovery.OneSubmission | tools/broker_outcome_recovery_v1.py:51-58 | a submitted trade has exactly one submission on record, so recovery never refuses it as not unique |
| Recovery.RecoveryWritesExactly | tools/broker_outcome_recovery_v1.py:47-126 | whatever the observation says, recovery writes exactly when the trade is submitted, the status is one of the five, the observation is about the submission, a final one names its deal as it must, and the key and id are new |
| Recovery.RecoveryRecords | tools/broker_outcome_recovery_v1.py:86-126 | what it writes repeats the identity of the submission and what the broker said |
| Recovery.UnresolvedObservation | tools/broker_outcome_recovery_v1.py:113-126 | an observation that is not final leaves the trade submitted and, once recorded, unresolved |
| Reachable.TracedSubmissionNeverSettles | tools/broker_outcome_recovery_v1.py:67-100 | a run from the empty ledger that submits a trade by a trace alone, after which no final observation that names a symbol settles it |
| Services.ResolveBrokerOutcome | tools/broker_outcome_recovery_v1.py:38-134 | the checks, made one by one on the events, leave the specified ledger; the answer reports the state and block as they then are, and a final observation settles the trade exactly when it is about the submission on record |
| Pipeline.CrashedPipelineResumes | tools/control_plane_service_v1.py:657-742 | cut after any number of its ledger steps, reloaded and run again before expiry, the authority pipeline ends with the log of the uninterrupted run up to timestamps, without duplicates, and with the same envelope |
| Pipeline.StepStays | tools/control_plane_service_v1.py:657-724 | a finished step, repeated on any lawful extension made of the pipeline's own later events, changes nothing and succeeds |
| Pipeline.ResumedStepsAlike | tools/control_plane_service_v1.py:657-724 | the resumed run and the whole run agree after every number of steps |
| FreshAuthority.FreshRequestIsGranted | tools/control_plane_service_v1.py:657-742 | on every lawful, unblocked ledger that knows neither the trade nor the six names, a request whose terms are in order and fit under the cap is granted: the ledger grows by exactly its six events, and the envelope carries its terms |
| FreshAuthority.BlockedIsRefused | tools/control_plane_service_v1.py:658-659 | while anything is unresolved a request is refused and leaves no trace |
| Services.Produce | tools/control_plane_service_v1.py:657-742 | the method that drives the steps leaves the specified ledger and envelope, which for an unknown and grantable request are the six events and an envelope with its terms |
| Trace.CommitCompletesExactly | tools/runtime_trace_bridge_v1.py:205-295 | a rehearsed batch is recorded completely exactly when every record has a nonempty key and event id and none carries the event id of another key, and then leaves the rehearsed ledger |
| Trace.StaleIdLeavesHalfABatch | tools/runtime_trace_bridge_v1.py:228-252 | a family of batches that pass the rehearsal and are left half recorded, because the rehearsal skips the id check for known keys |
| Reachable.HalfABatchIsReached | tools/runtime_trace_bridge_v1.py:228-295 | a run from the empty ledger after which a batch of one new record and a repeat of an old one under the id of another is refused with its first record written |
| Reachable.EmptyIdLeavesHalfABatch | tools/runtime_trace_bridge_v1.py:228-295 | a run from the empty ledger after which a batch of one new record and one without an event id is refused with its first record written |
| Resume.IngestTwice | tools/runtime_trace_bridge_v1.py:185-306 | ingesting a completed batch again never changes the ledger; the rehearsal accepts it again exactly when it holds no outcome observation, and the ingestion completes again exactly when moreover no record carries an id that by now belongs to another key |
| Reachable.CompletedBatchIsRefusedForAnId | tools/trade_ledger_v1.py:181-183 | a run from the empty ledger and a batch without outcome observations that is recorded completely and refused the second time for an id |
| Reachable.CompletedObservationIsRefused | tools/runtime_trace_bridge_v1.py:228-242 | a run from the empty ledger and a batch of one outcome observation that is recorded completely and refused the second time |
| Resume.ResumedIngestExactly | tools/runtime_trace_bridge_v1.py:185-306 | a batch cut short by a crash and ingested again from the start completes exactly when no record already written is an outcome observation or carries an id that now belongs to another key, and then leaves the ledger of the uninterrupted ingestion |
| Trace.RehearseRecorded | tools/runtime_trace_bridge_v1.py:235-250 | a batch that is on record already is accepted exactly when it holds no outcome observation, which is recorded without the state it carries |
| Trace.NormalExactly | tools/runtime_trace_bridge_v1.py:87-182 | a record is taken exactly when it is a trace of the known schema and source, observes a trade at the broker, carries all fields of its kind and no foreign one, and its broker time less its offset is the stated time |
| Trace.IngestGrantsNothing | tools/runtime_trace_bridge_v1.py:123-306 | whatever batch is ingested, it issues, revokes, reserves and releases nothing |
| Trace.TraceIsKept | tools/runtime_trace_bridge_v1.py:277-292 | the event recorded keeps every field of the record, its names, trade, type and time |
| Services.Preflight | tools/runtime_trace_bridge_v1.py:205-275 | the first pass over simulated states and staged events accepts exactly the batches of the specification |
| Services.IngestTraceFile | tools/runtime_trace_bridge_v1.py:185-306 | validation, rehearsal and commit leave the specified ledger |
| Replay.ReplayIsStateOf | tools/replay_kernel_v1.py:83-112 | the fold of one trade's events is the ledger's own state of that trade, and a sound ledger never leaves the transition table |
| Replay.ReplayNeverFails | tools/replay_kernel_v1.py:90-112 | replay of an accepted file never reaches its errors |
| Replay.ReplaySucceedsExactly | tools/replay_kernel_v1.py:90-112 | on any list of records, trusted or not, replay succeeds exactly when every state change was legal where it stands |
| Replay.GroupsPartition | tools/replay_kernel_v1.py:80-88 | the groups partition the ledger, with multiplicity |
| Replay.ReplayLedger | tools/replay_kernel_v1.py:76-131 | the nested loops build the fold of every trade, or fail exactly when one leaves the table |
| Replay.RecoverFromLedger | tools/recovery_contract_v1.py:74-126 | a restart passes exactly when every trade on the ledger is reconciled and nothing is unresolved; the report lists exactly the trades for which that fails, and one item for every trade with its state, posture and action |
| Backtest.RunCanonicalBacktest | research/optimization/canonical_backtest_v1.py:50-200 | the loop over its running variables reports exactly the figures of the simulated trades, each told by its bars and no signal missed, and refuses exactly the invalid parameters |
| Backtest.TradesAreExplained | research/optimization/canonical_backtest_v1.py:107-177 | every trade follows a signal bar, leaves on the first bar that closes it, and earns minus one, the reward ratio or the move between the two opens, net of both costs |
| Backtest.TradesAreTold | research/optimization/canonical_backtest_v1.py:107-162 | in prices alone: a trade fills at the open after its signal, worse by the cost, has its stop one multiple of the range away and its target at the reward ratio, ends on the first bar that touches either, turns the signal or reaches the expiry, and earns what that bar says |
| Backtest.SignalsAreTaken | research/optimization/canonical_backtest_v1.py:107-126 | every bar with a direction, a positive range and a time not too early starts a trade, unless another one is still on |
| Backtest.FiguresOfTrades | research/optimization/canonical_backtest_v1.py:159-162 | the returns and holding times of a report are those of its trades, in order |
| Backtest.TradesAreDisjoint | research/optimization/canonical_backtest_v1.py:107-157 | trades are disjoint with a bar between them, and each is held for one bar to the expiry |
| Backtest.NoLookAhead | research/optimization/canonical_backtest_v1.py:107-177 | the returns on a series are a prefix of the returns on any longer series that starts with it |
| Backtest.StopFirstIsConservative | research/optimization/canonical_backtest_v1.py:137-145 | resolving an ambiguous bar for the target instead changes no trade and lowers no return |
| Backtest.WinsAndLosses | research/optimization/canonical_backtest_v1.py:163-172 | wins and losses add up to the number of returns, gross profit less gross loss to their sum |
| Backtest.WinsExactly | research/optimization/canonical_backtest_v1.py:163-172 | the wins are the positive returns, and gross profit and gross loss add up to the returns without their signs |
| Backtest.EquityMoves | research/optimization/canonical_backtest_v1.py:174-174 | equity starts at ten thousand, and each return moves it by that return times the risk fraction of it |
| Backtest.PeakIsHighest | research/optimization/canonical_backtest_v1.py:174-175 | the peak is the highest equity over all prefixes of the returns |
| Backtest.DrawdownIsLargest | research/optimization/canonical_backtest_v1.py:174-176 | the reported drawdown is the largest over all prefixes |
| Backtest.DrawdownIsLargestFall | research/optimization/canonical_backtest_v1.py:175-176 | no equity that is not negative lies further below an earlier positive one, relative to that, than the drawdown says |
| Backtest.DrawdownIsAFall | research/optimization/canonical_backtest_v1.py:175-176 | and some equity lies exactly that far below an earlier one |
| Backtest.ProfitFactorExactly | research/optimization/canonical_backtest_v1.py:180-180 | the profit factor times the gross loss is the gross profit; without losses it is 3, or 0 without trades |
| RegimeSwitch.Bt | research/optimization/cost_aware_adaptive_regime_switch_v25.py:72-183 | for any parameters the backtest raises exactly when the stop multiple is not positive and some day has a signal that is taken; otherwise every entry has its exit and the metrics are those of the returns of all days |
| RegimeSwitch.DayIsFlatByClose | research/optimization/cost_aware_adaptive_regime_switch_v25.py:76-176 | the trades of a day follow one another, are held for one to thirty bars and are over by its last bar |
| RegimeSwitch.DayTradesExplained | research/optimization/cost_aware_adaptive_regime_switch_v25.py:86-176 | every trade of a day follows a taken signal, leaves on the first bar that closes it or at the close, and a stopped one loses its risk and one side of the cost |
| RegimeSwitch.DayTradesAreTold | research/optimization/cost_aware_adaptive_regime_switch_v25.py:76-176 | in prices alone: a trade follows a breakout with the trend or a return from the edge of a range, has its levels around the next open, ends on the first bar that touches one, after thirty bars, at the middle of a range or at the close, and earns what that price says |
| RegimeSwitch.SignalsAreTaken | research/optimization/cost_aware_adaptive_regime_switch_v25.py:86-126 | every signal of a day whose target lies ahead starts a trade, unless another one is still on |
| RegimeSwitch.RunDay | research/optimization/cost_aware_adaptive_regime_switch_v25.py:76-176 | the loop over one day gives the returns of its trades, as many as entries, or fails exactly for want of a risk unit |
| RegimeSwitch.MakeMetrics | research/optimization/cost_aware_adaptive_regime_switch_v25.py:42-69 | the metrics are the sums, profit factor, equity and drawdown of the returns |
| Record.RoundTripExactly | tools/runtime_authorization_record_v1.py:272-330 | a built record is printed, and parsing gives it back exactly when no field holds a further line break character, the reserved risk is above half a unit of the twelfth decimal, and the reader is within ten seconds and before the expiry second |
| RecordCases.LineBreakIsRefused | tools/runtime_authorization_record_v1.py:61-66 | a grant whose symbol holds any of the eight line breaks the printer lets through: it is built and printed, and its line is refused at any time |
| RecordCases.ExpirySecondIsRefused | tools/runtime_authorization_record_v1.py:149-151 | a grant that expires within the second of issue: it is built and printed, and refused at once |
| RecordCases.TinyRiskIsRefused | tools/runtime_authorization_record_v1.py:158-159 | a grant of half a unit of the twelfth decimal: it is built and printed as zero, and refused |
| Record.AcceptedReprints | tools/runtime_authorization_record_v1.py:180-187 | every accepted text is the canonical line up to the case of its hash; printing gives the canonical line, which is accepted again |
| Record.AcceptedExactly | tools/runtime_authorization_record_v1.py:272-330 | a text is accepted exactly when its one line is the fields of a record, safe and acceptable at that time, with the hash of its entries up to case |
| Record.BuiltExactly | tools/runtime_authorization_record_v1.py:103-183 | a record is built exactly from a verified grant with ordered risks within the cap, matching expiry, authorization and contract, time left, and safe fields |
| Record.BuiltCarries | tools/runtime_authorization_record_v1.py:152-183 | a built record carries every field of its grant, the rounded risks, the epochs of its times, and the hash of its entries |
| Record.HashBindsEntries | tools/runtime_authorization_record_v1.py:81-86 | two records with the same hash are the same, or show a collision |
| Record.RoundingKeepsOrder | tools/runtime_authorization_record_v1.py:158-159 | twelve-decimal rounding keeps reserved within authorized within the cap, and is positive exactly above half a unit |
| Decimals.UnitsReadBack | tools/runtime_authorization_record_v1.py:158-159 | a risk printed with twelve decimals means the same number of units again |
| Decimals.IntReadsBack | tools/runtime_authorization_record_v1.py:161-163 | a printed epoch means the same integer again |
| Record.FieldsOfJoin | tools/runtime_authorization_record_v1.py:81-82 | fields without separators are found again in the joined line |
| Record.TheLineExactly | tools/runtime_authorization_record_v1.py:278-280 | a printed line is read as one line exactly when it holds no other line break |
| Record.TheLineHowever | tools/runtime_authorization_record_v1.py:278-280 | a single line may end in a line feed, a carriage return, both, or not at all |
| Record.BuiltEntries | tools/runtime_authorization_record_v1.py:292-326 | what the reader checks of the entries of a built record comes down to the expected trade, the rounded risk and the two times |
| Quota.SelectFiles | tools/dropbox_free_tier_policy_v2.py:181-272 | a selection keeps the cap and every accepted critical file, partitions the input, and leaves out only what is rejected or would still not fit; each error is raised exactly under its condition |
| Quota.OverrunExactly | tools/dropbox_free_tier_policy_v2.py:237-252 | the critical-evidence error is raised exactly when the accepted critical files alone exceed the cap |
| Quota.DroppedDoesNotFit | tools/dropbox_free_tier_policy_v2.py:237-266 | a dropped file is not critical and would not fit beside the final selection |
| Quota.DroppedForBetterOnly | tools/dropbox_free_tier_policy_v2.py:237-266 | the selected files ranked at or before a dropped file already exceed the cap less its size |
| Quota.NothingLost | tools/dropbox_free_tier_policy_v2.py:237-266 | every considered file is selected or dropped, with multiplicity |
| Quota.NothingSelectedExactly | tools/dropbox_free_tier_policy_v2.py:268-270 | nothing is selected exactly when no file is critical and none fits alone |
| Quota.EmptyOnlyByOverrides | tools/dropbox_free_tier_policy_v2.py:205-219 | under a loaded policy the selection comes out empty only if every accepted file came in through the workflow override |
| Quota.AcceptsExactly | tools/dropbox_free_tier_policy_v2.py:104-226 | a file is accepted exactly when its workflow allows its family and name and either nothing about it is denied, its name is like evidence, its sizes are kept and a binary is named as a release, or it is only unlike evidence and the workflow names it |
| Quota.ReasonIsTrue | tools/dropbox_free_tier_policy_v2.py:104-178 | every exclusion is for a reason that holds |
| Quota.PriorityExactly | tools/dropbox_free_tier_policy_v2.py:131-139 | critical names come first, standard ones second, the rest last |
| Quota.OrderedExactly | tools/dropbox_free_tier_policy_v2.py:233-239 | what is considered earlier is of higher priority, or else larger, or else first by path |
| Quota.OversizedExactly | tools/dropbox_free_tier_policy_v2.py:205-219 | a file above a size cap is accepted exactly when the workflow names it and its own checks let it pass |
| Quota.OversizedFileIsSelected | tools/dropbox_free_tier_policy_v2.py:199-266 | under a loaded policy a concrete file above the per-file cap is selected |
| Quota.ListingOrderIsIrrelevant | tools/dropbox_free_tier_policy_v2.py:191-235 | files with different paths are considered in one order only, whatever order they are listed in |
| Quota.Classify | tools/dropbox_free_tier_policy_v2.py:199-226 | the classification loop splits the listed files into accepted ones and exclusions with their reason |
| Ticks.ExactlyOneSegment | tools/mt5_xauusd_tick_spread_history_probe.py:318-354 | the rounded-up half-open bounds put each millisecond of the period in exactly one segment, and no other one in any |
| Ticks.ValidExactly | tools/mt5_xauusd_tick_spread_history_probe.py:257-273 | the valid quotes are exactly the ticks with two finite prices, a positive bid not above the ask, in the half-open period |
| Ticks.EachQuoteOnce | tools/mt5_xauusd_tick_spread_history_probe.py:318-362 | with a terminal that serves its history, every valid quote of the period is counted exactly once |
| Ticks.SampleIncreases | tools/mt5_xauusd_tick_spread_history_probe.py:366-371 | the sampled positions strictly increase |
| Ticks.SampleSpans | tools/mt5_xauusd_tick_spread_history_probe.py:366-371 | the first and the last quote are sampled and every position exists |
| Ticks.SampleIndices | tools/mt5_xauusd_tick_spread_history_probe.py:366-371 | so the positions of a segment increase from its first quote to its last, each less than one quote before its place on an even spread |
| Ticks.Collect | tools/mt5_xauusd_tick_spread_history_probe.py:318-419 | the segment loop ends, counts every valid quote and every failed request, the weights of the samples stand for all quotes, and every sample has the spread in points of a quote that one of the weekly requests returned |
| Ticks.CollectSegment | tools/mt5_xauusd_tick_spread_history_probe.py:355-383 | one segment gives at most 12000 samples of its valid quotes, with their spread in points, whose weights add up to the number of all of them |
| Quantile.WeightedQuantile | tools/mt5_xauusd_tick_spread_history_probe.py:56-69 | for any weights there is no answer exactly without items or weight; else it is the first value in order whose running weight reaches the share; for weights that are not negative and a probability of at most one that is the least value whose weight from below reaches the share of the total |
| Quantile.QuantileIsMonotone | tools/mt5_xauusd_tick_spread_history_probe.py:56-69 | weighted quantiles are unique and grow with the probability |
| IniEditor.AssistantIni.DisableInternalMcp | tools/disable_mt5_internal_mcp_v1.py:152-154 | after both sections were edited every block of each sets `Enable`, all to 0, so the check that follows cannot fail |
| IniEditor.AssistantIni.SetEnableZero | tools/disable_mt5_internal_mcp_v1.py:78-98 | the backward edit by index ranges, with its insertions, is the forward edit of the specification |
| IniEditor.AssistantIni.SectionRanges | tools/disable_mt5_internal_mcp_v1.py:63-75 | the ranges are the blocks of the section, in order, and miss none |
| IniEditor.AssistantIni.AssertDisabled | tools/disable_mt5_internal_mcp_v1.py:101-113 | the check accepts exactly the files in which the section exists and each of its blocks is off |
| IniEditor.OffIsDisabled | tools/disable_mt5_internal_mcp_v1.py:101-113 | what the edit leaves behind is off block by block |
| IniFile.SecondRunChangesNothing | tools/disable_mt5_internal_mcp_v1.py:152-154 | running the editor again changes nothing |
| IniFile.SetZeroChangesExactly | tools/disable_mt5_internal_mcp_v1.py:78-98 | the edit changes a file exactly when the section was not off |
| IniFile.OtherStaysOff | tools/disable_mt5_internal_mcp_v1.py:152-153 | editing one section leaves another one off |
| IniFile.OthersSurvive | tools/disable_mt5_internal_mcp_v1.py:78-98 | every line that is not an `Enable` line of the section survives, in order |
| IniFile.OthersSurviveBoth | tools/disable_mt5_internal_mcp_v1.py:152-153 | editing both sections keeps every line that is not an `Enable` line of either, in order; behind them come only the titles of missing sections |
| IniFile.SetZeroReadsBack | tools/disable_mt5_internal_mcp_v1.py:175-177 | the edited lines read back as they are |
| IniLines.RewriteIsStable | tools/disable_mt5_internal_mcp_v1.py:90-96 | a rewritten line keeps its prefix and comment, gives the value 0, and stays as it is when rewritten again |
| IniLines.KeyExactly | tools/disable_mt5_internal_mcp_v1.py:25-25 | a line sets `Enable` exactly when it is white space, the word in any case, white space, the sign, white space and a rest |
| IniLines.ValueExactly | tools/disable_mt5_internal_mcp_v1.py:26-26 | its value is the longest text there without white space and comment markers |
| IniLines.CommentExactly | tools/disable_mt5_internal_mcp_v1.py:93-94 | the comment that is kept is the rest of the line from the first place where white space leads to a marker |
| IniLines.RewriteExactly | tools/disable_mt5_internal_mcp_v1.py:90-96 | the rewritten line is the text before the value, a zero and that comment |
| IniLines.HeaderIsSplit | tools/disable_mt5_internal_mcp_v1.py:24-24 | a header is white space, a bracketed name without closing bracket and white space, and its name is trimmed and in lower case |
| IniLines.HeaderIsFound | tools/disable_mt5_internal_mcp_v1.py:63-75 | and every line of that form is a header of that name |

## Left out

- Record.RoundTripExactly: the hash, upper-casing and the reading of timestamps are parameters; the readers of numbers are parameters that read decimal numerals by their exact value, and risks are printed from reals, not from floating point values.
- Services.MT5ExecutionAdapter.Submit: the adapter's many error codes are merged into five answers.
- Ticks.SampleIndices: positions are computed exactly, not in floating point.
- Signatures and message authentication of envelopes and admission requests: one boolean says whether they check out.
- JSON encoding, file locking, fsync, temporary files, hard links, reading of keys, command lines: plumbing without a property of its own. A record read back is the record written.
- Timestamps as strings: instants are integers, and malformed timestamps are refused before the model starts, except in the authorization record.
- Error codes: several codes of one check are merged into one error.
- Trace records whose event types are not in upper case, and numbers in text form in trace payloads.
- The admission schema, attestations, demo evidence and the constitution: long field-by-field checks.
- The check in the authority producer that its output file does not exist yet.
- The order of trade ids in reports.
- Floating-point rounding in risks, prices, returns and metrics, and the rounding of reported figures; only the record's twelve decimals are modelled.
- Indicators and signal generation: signals, ATR and the other indicators are inputs of the backtests.
- Lower-casing of file names and tokens in the quota policy: the model takes them lower-cased.
- The encoding, byte order mark and newline style of the INI file, and white space and case folding beyond ASCII.
- The unweighted statistics and the list of the twenty largest spreads of the tick sampler.
- The terminal gateway, several processes writing one ledger, network clients, agent tooling and rankings.
