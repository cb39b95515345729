# Discord-nexus: verified models of its protocols

This project models the parts of the repository whose correctness is a matter of state, order and failure, and
proves what they promise. `dafny verify dfyconfig.toml` checks all of it.

- **The phase controller** (`Controller.dfy`, `Ledger.dfy`): a 19-phase run that keeps its state in a hash-chained
  ledger and in a phase file, changes catalogs, agents and units outside, and cleans up after a failure at any point.
  Every external command may succeed, raise without its effect, raise after its effect, or crash the controller; in a
  calm environment, where none fails, each command is proved to succeed, and if nothing fails but the transition out of
  one phase, to be undone. A catalog sync replaces the catalog or raises. The helper's event log names every unit that
  was ever started.
- **The global mutation lock** (`LockProtocol.dfy`, `RecoverAudit.dfy`): as file-system steps interleaved between any
  number of calls, each of which can fail or stop at any step; and, for `recover`, as a class with an audit file, short
  writes and explicit durability.
- **The managed job protocol** (`ExecutionLease.dfy`, `ExecutionContext.dfy`, `ExecutorBinding.dfy`, `Worker.dfy`,
  `Renewal.dfy`): the three envelopes of a claim, one processed job as a trace of provider calls and reports, and the
  renewal supervisor over a monotonic clock.
- **The session store** (`SessionStore.dfy`), checked against its full history of writes.
- **Text and roster cores**: path normalization (`WorktreePath.dfy`), agent reports and their shell quoting, section
  2.2 of the POSIX.1-2017 Shell Command Language (`AgentReport.dfy`, `ShellWords.dfy`), message chunking
  (`Chunker.dfy`), roster loading and parity (`RosterLoading.dfy`, `RosterParity.dfy`, `Labels.dfy`), and the
  canonical JSON printer, inverted by a reader after sections 3 to 7 of RFC 8259 (`CanonicalJson.dfy`,
  `StringOrder.dfy`).

`Prelude.dfy`, `PyText.dfy` and `Patterns.dfy` hold what these share: results that carry an exception, Python's string
methods, and the regular expressions of the envelopes (Python's `$` also matches before one final line break).

## Assumptions

SHA-256 is an arbitrary function on text, and injective wherever collision freedom matters. Library behaviour is a
parameter: Windows and UNC paths, timestamps, `json.loads`, `str.lower`, the `str()` of lists and tables, and Unicode
NFC, of which it is used only that it works segment by segment of a path, is idempotent and makes no control character
(`WorktreePath.LawfulNfc`). Text consists of Unicode scalar values: lone surrogates, which `json.loads` can yield and
which make `.encode("utf-8")` raise past the worker, are outside the model. JSON numbers are integers; a boolean token
counts as the integer it equals. A read of the phase file or the ledger raises or returns what is there, a record or
phase that has been cut short is no JSON, and nobody but the controller changes the lock it holds or its token file.
The lock protocol assumes that a generated token is carried by no other running call, and that no release or recover
carries the token of another running call; the second half is shown to be needed. A call that has died no longer runs,
so that the token it has left in owner.json may be recovered.

## What the proofs turned up

- **Mutual exclusion depends on tokens not being released twice at once.** The authority check and the unlink are
  separate steps, so a slower release of the same token takes down the next owner's lock (`OverlapBreaksExclusion`).
- **The lock is not always given back.** If the commit of the phase `done` raises after the file has been replaced, in
  its sync or its readback, or if the handler of a failure before activation raises ahead of its release, reading the
  phase or writing the evidence, the lock stays held in a phase in which it should be free. `Controller.CmdRun` proves
  that, a failing release and a crash apart, these are the only cases, and that both come about: where nothing but the
  one step fails, a run that starts properly ends with the lock held in `done`, or in `sealed`.
- **A short write is taken for a success**, in the ledger, the phase file and the token file alike. Once the last line of
  the ledger no longer parses, no append and no transition succeeds any more, the exception handler of the state machine
  cannot record the failure, and so nothing is cleaned up (`Controller.TransitionTo`, `Controller.CleanUpAfterFailure`).
  If the record of a transition is lost, the phase file is one ahead of the ledger, and visibly so. A transition notices
  that the phase file was cut short, but `prepare` and `cleanup` do not; after that no command changes anything any more
  (`Controller.AnyCommands`). With a token file cut short the run fails at `preflight-ok` at the latest and the lock
  stays held (`Controller.RunAndGiveBack`).
- **`cleanup` never succeeds.** It needs a phase between activation and `done`, and in every such phase that the
  commands can bring about, crashes included, the run's token file exists, and while it exists cleanup refuses to
  start (`Controller.AnyCommands`, `Controller.CmdCleanup`). `run` needs `sealed` and an unused authorization. So once a
  run has used its authorization, none of the three commands changes anything any more, wherever it has stopped; in
  particular a crash between activation and `done` is cleaned up by neither. What cleanup would do is proved too, for
  the state after somebody else has released the lock and removed the token file.
- **The workspace row and its host profile stay** after every run: no handler and no cleanup removes them.
- **A torn audit line spoils the next one.** The entry of a recovery is a line of its own exactly when the file was
  empty or ended in a line break (`EntryStandsAlone`); a recovery cut short by a failed write leaves it otherwise.
- **A job can be reported on after its lease is lost**: exactly if the provider was still running then and raises when
  it is cancelled, which is taken for its result and reported as `failed` (`LostLeaseReport`). An adapter does so whose
  cleanup finds that the processes of the provider survive (`FailedCleanupIsReported`).
- **A result is never reported if its session cannot be saved**: the sessions table is written ahead of the report, and
  its errors are not caught (`OneReport`).
- **A recovery that times out is reported as failed.** The text of a timeout starts like an error, so the recovery
  replaces it by its refusal to start again, and the timeout is lost (`ReportStatus`).
- **A legacy job without an id is reported under none**, or under `?`, although its context names it (`LegacyGate`).
- **A context may have `true` for its version**; nothing else but the number one passes (`ContextMeans`).
- **A lease can raise past the worker.** The first check of a lease raises an error that `_process_job` does not catch
  exactly if its path does not normalize at all, or is canonical while the host id, though parsed, is none
  (`HostIdErrorEscapes`); an ordinary lease with a host id of 65 characters does it (`LongHostIdRaises`).
- **Normalization is not idempotent**: a result is a fixed point exactly if it does not end in white space and Unicode
  has not lengthened it beyond the limit.
- **The parity check can raise**: exactly if the authority's `executor_definitions` cannot be iterated, its header being
  in order, or if the runtime's `agents` cannot, the authority having loaded; a number does it (`ExampleAuthorities`).
- **Two branches of the parity check are dead**: "canonical roster hash mismatch" and "unknown definition".
- The comment above `PHASES` speaks of 18 phases; there are 19, and the model has 19.

## Model

| member | source | states |
|---|---|---|
| LockProtocol.MutualExclusion | scripts/production-mutation-lock.py:773-847 | in every run of any number of calls, with failures and deaths at any step and recoveries of what the dead leave behind, at most one acquisition is between its mkdir and the removal of its directory, the directory exists exactly then, and an owner.json carries its token |
| LockProtocol.StepKeeps | scripts/production-mutation-lock.py:480-514 | every step of acquire, release and recover, failing or not, and the death of a call before any of them, keep the invariant behind mutual exclusion |
| LockProtocol.RunKeeps | scripts/production-mutation-lock.py:752-922 | the invariant holds after any run |
| LockProtocol.OnlyOwnRemoval | scripts/production-mutation-lock.py:829-842 | owner.json and the directory are only ever removed by the acquisition itself or by a call carrying its token, and then that acquisition's tenure ends |
| LockProtocol.AcquireReturnsHolding | scripts/production-mutation-lock.py:826-847 | an acquire that returns holds the lock with its own token in owner.json |
| LockProtocol.HeldUntilReleased | scripts/production-mutation-lock.py:881-905 | a held lock stays held through any run in which no release or recover with its token acts |
| LockProtocol.AcquireAlone | scripts/production-mutation-lock.py:752-847 | an undisturbed acquire of the free lock ends in exactly the held state |
| LockProtocol.ReleaseAlone | scripts/production-mutation-lock.py:870-921 | an undisturbed release with the right token frees the lock completely |
| LockProtocol.FailedAcquireCleansUp | scripts/production-mutation-lock.py:797-842 | from every reachable state, whatever the other calls are doing: an acquire that fails at its chown, create, write, replace or directory sync, and whose following steps succeed, leaves no directory, no owner.json, no temporary file and no tenure |
| LockProtocol.FailedAcquireAlone | scripts/production-mutation-lock.py:499-514 | the whole run of such an acquire of the free lock, for each of the four steps of writing owner.json |
| LockProtocol.FailedChownAlone | scripts/production-mutation-lock.py:797-812 | the same for a failing chown |
| LockProtocol.StuckTempStays | scripts/production-mutation-lock.py:828-842 | if the temporary file cannot be unlinked, owner.json and the directory stay as they are |
| LockProtocol.FailedRemovalStops | scripts/production-mutation-lock.py:870-922 | a release or recover ends at the first step that fails, and that step changes nothing |
| LockProtocol.OverlapBreaksExclusion | scripts/production-mutation-lock.py:882-906 | without the assumption on overlapping releases, a concrete run leaves two acquisitions holding the lock |
| LockProtocol.RecoverAlone | scripts/production-mutation-lock.py:1104-1193 | if owner.json is there without temporary files and no running call carries its token, an undisturbed recover frees the lock completely |
| LockProtocol.DeadOwnerIsRecovered | scripts/production-mutation-lock.py:499-514 | a concrete run: an acquire dies after putting owner.json in place, a recover with its token frees the lock, and the next acquire holds it |
| RecoverAudit.LockHost.Recover | scripts/production-mutation-lock.py:1104-1193 | owner.json goes away only if it held the given token and its complete audit line was durable at that moment; any earlier failure leaves the lock unchanged; nothing changes without root, confirmation and clean probes; if no call fails a held lock is recovered |
| RecoverAudit.LockHost.AuditAppend | scripts/production-mutation-lock.py:1195-1257 | despite short writes: on success the whole line is appended and durable with its directory entry, otherwise a beginning of it at most |
| RecoverAudit.LockHost.RemoveLock | scripts/production-mutation-lock.py:1176-1185 | the two removals, each of which may fail, in this order |
| RecoverAudit.LockHost.CheckAuthority | scripts/production-mutation-lock.py:569-735 | success means the directory and a well-formed owner.json are there |
| RecoverAudit.EntryStandsAlone | scripts/production-mutation-lock.py:1195-1199 | an appended entry is a line of its own if and only if the file was empty or ended in a line break |
| RecoverAudit.EntryNamesToken | scripts/production-mutation-lock.py:1153-1165 | an audit line determines the owner, its token included, the operator, the reason and the time |
| RecoverAudit.EntrySays | scripts/production-mutation-lock.py:1153-1165 | every fact is in the entry under its own name, the token by digest and first sixteen characters |
| Ledger.ValidateLedgerChain | scripts/p9_3c1_controller.py:397-426 | the checks of every record, one after another, accept exactly the valid chains |
| Ledger.TailCommits | scripts/p9_3c1_controller.py:314-333 | two valid ledgers with one last digest have one length and agree in every hashed field of every record, missing evidence counting as empty |
| Ledger.CheckpointCommits | scripts/p9_3c1_controller.py:397-426 | one digest in common fixes its position and the whole history before it |
| Ledger.DigestFixesRecord | scripts/p9_3c1_controller.py:314-333 | a record digest commits to every field it covers |
| Ledger.DigestCoversRecord | scripts/p9_3c1_controller.py:314-333 | the digest of a record as it is written is over the record without its own digest |
| Ledger.AppendKeepsChain | scripts/p9_3c1_controller.py:336-380 | appending to a valid chain gives a valid chain |
| Ledger.NewRecordFields | scripts/p9_3c1_controller.py:350-372 | what the appended record says, its digest being that of everything else in it |
| Controller.Controller.Append | scripts/p9_3c1_controller.py:336-380 | the ledger stays a valid chain and grows by the given record or, on a failure or a short write only, not at all; a short write passes for a success, and once the last line no longer parses every append raises |
| Controller.Controller.AppendEvent | scripts/p9_3c1_controller.py:336-380 | any other event leaves the recorded transitions alone |
| Controller.Controller.AppendTransition | scripts/p9_3c1_controller.py:490-495 | the recorded transitions grow by the next adjacent one, or the ledger stays as it is |
| Controller.Controller.Commit | scripts/p9_3c1_controller.py:490-496 | the two writes of a transition: afterwards ledger and phase file visibly agree if and only if the phase file is whole and as many transitions are on record as the phase says |
| Controller.Controller.WritePhase | scripts/p9_3c1_controller.py:444-478 | the phase only ever moves forward, and may have moved when the write raises; a short write passes for a success, and a file cut short is never written again |
| Controller.Controller.TransitionTo | scripts/p9_3c1_controller.py:481-498 | on success ledger and phase file agree one phase on; however it ends, a raising readback or a short write included, they are at most one phase apart, and if they are they visibly disagree; none succeeds that cuts the phase file short, and none once the ledger's last line no longer parses |
| Controller.PrefixAt | scripts/p9_3c1_controller.py:86-108 | the transitions on record are the first adjacent pairs of PHASES, in order |
| Controller.NextNameDiffers | scripts/p9_3c1_controller.py:86-108 | neighbouring phases have different names, so a half-made transition shows |
| Controller.Controller.constructor | scripts/p9_3c1_controller.py:807-820 | an unprepared run satisfies the invariants |
| Controller.Controller.CmdPrepare | scripts/p9_3c1_controller.py:807-911 | a fresh run becomes sealed, phase file first, though a short write may leave either file unreadable or the ledger empty, and does so if nothing fails; refused without any change once the run directory exists, even after a half-failed prepare, and while anybody holds the lock |
| Controller.Controller.RequireOwnedLock | scripts/p9_3c1_controller.py:2400-2416 | passes only while the lock is held with the given token, or else with the token on file |
| Controller.Controller.AcquireLock | scripts/p9_3c1_controller.py:2460-2514 | on success the lock is held and the token file has its token or, after a short write, a beginning of it; refused while either exists |
| Controller.Controller.ReleaseLock | scripts/p9_3c1_controller.py:2444-2457 | on success both are gone; only a lock whose token is on file is released, and otherwise nothing changes |
| Controller.Controller.SyncExecutor | scripts/p9_3c1_controller.py:1309-1335 | replaces the catalog or raises |
| Controller.Controller.SyncCapacity | scripts/p9_3c1_controller.py:1338-1355 | replaces the catalog or raises |
| Controller.Controller.BringOnline | scripts/p9_3c1_controller.py:1567-1589 | an agent that comes online has been registered |
| Controller.Controller.StartUnit | scripts/p9_3c1_controller.py:2086-2093 | whatever becomes active is in the helper's log |
| Controller.Controller.StopUnit | scripts/p9_3c1_controller.py:2095-2104 | a stop that returns has stopped the unit |
| Controller.Controller.Deactivate | scripts/p9_3c1_controller.py:1690-1696 | a deactivation that returns has taken the agent offline |
| Controller.Controller.FromPreflightOk | scripts/p9_3c1_controller.py:1513-1517 | keeps the invariant and, on success, is exactly one phase on |
| Controller.Controller.FromLockHeld | scripts/p9_3c1_controller.py:1520-1536 | as above |
| Controller.Controller.FromBaselineCaptured | scripts/p9_3c1_controller.py:1539-1561 | as above; adds the workspace row and then the host profile, which nothing removes |
| Controller.Controller.FromWorkspaceReady | scripts/p9_3c1_controller.py:1564-1590 | as above; on success both agents are online, and at no earlier phase any |
| Controller.Controller.SyncExecutorFrom | scripts/p9_3c1_controller.py:1593-1611 | as above; on success the executor catalog has the version of its phase |
| Controller.Controller.SyncCapacityFrom | scripts/p9_3c1_controller.py:1600-1604 | as above; on success the capacity catalog has the version of its phase |
| Controller.Controller.RunMatrix | scripts/p9_3c1_controller.py:2067-2325 | any sequence of unit starts and stops, ledger events and commands keeps the invariant |
| Controller.Controller.FromExecutorV2Enabled | scripts/p9_3c1_controller.py:1614-1618 | as for the other handlers |
| Controller.Controller.RecordFrom | scripts/p9_3c1_controller.py:1621-1632 | as for the other handlers; the event is recorded, under the phase it starts from |
| Controller.Controller.StopBoth | scripts/p9_3c1_controller.py:1638-1649 | on success no unit is active |
| Controller.Controller.FromIntakeFrozen | scripts/p9_3c1_controller.py:1635-1663 | as for the other handlers; the phase units-quiescent is committed only with no unit active, and after units.quiescent has been recorded |
| Controller.Controller.FromExecutorV4Empty | scripts/p9_3c1_controller.py:1687-1697 | as for the other handlers; on success no agent is online |
| Controller.Controller.FromCanonicalCompared | scripts/p9_3c1_controller.py:1838-1886 | commits `done` only with agents offline and both catalogs at their terminal version, and settles the lock |
| Controller.Controller.RunHandler | scripts/p9_3c1_controller.py:1221-1228 | every handler leaves the run directory at its own phase or the next |
| Controller.Controller.ForwardPhases | scripts/p9_3c1_controller.py:1364-1385 | the loop ends, at every handler boundary ledger and phase agree and the outside world is that of the phase, and the lock is settled however it ends |
| Controller.Controller.ExecuteStateMachine | scripts/p9_3c1_controller.py:1358-1394 | a failure from baseline-captured on is cleaned up after and raised again: if nothing fails but the transition out of one phase, the run ends in that phase before activation, and in `done` otherwise |
| Controller.Controller.CleanUpAfterFailure | scripts/p9_3c1_controller.py:1386-1392 | on success the phase is `done`, everything is compensated and the lock is free; before baseline-captured and after `done` it fails and leaves the lock alone; once the phase file or the ledger's last line no longer parses it raises and compensates nothing; it records the failure and then the cleanup, and after a success ledger and phase file agree on `done` |
| Controller.Controller.Compensate | scripts/p9_3c1_controller.py:1424-1481 | from every reachable state: on success no unit active, all agents offline, each catalog untouched or terminal; and the phase bounds what was changed throughout |
| Controller.Controller.StopRecorded | scripts/p9_3c1_controller.py:1424-1441 | on success no unit is active, since the log names every started one |
| Controller.Controller.EmptyCatalogs | scripts/p9_3c1_controller.py:1466-1469 | on success both catalogs are at their terminal version, and the executors are never emptied while a capacity is left, nor that before they are disabled |
| Controller.Controller.CleanupSuffix | scripts/p9_3c1_controller.py:1397-1510 | on success the phase is `done`, everything is compensated and the lock is free; refused before baseline-captured and after `done`; compensates nothing once the phase file or the ledger's last line no longer parses; after a success ledger and phase file agree on `done` unless a write was cut short |
| Controller.Controller.CmdRun | scripts/p9_3c1_controller.py:1144-1171 | once it holds the lock, however it ends short of a crash or a failing release: the lock is free exactly if the phase last written is one before activation or `done`, and held with its token otherwise, if and only if neither of two things failed; it succeeds exactly into `done` with no unit active, no agent online and both catalogs terminal, and does succeed if nothing fails, and if nothing fails but the transition out of one phase, whichever it is, it raises with the lock free, in that phase before activation and otherwise compensated with `done` in ledger and phase file, while in two environments where nothing but one step fails the lock is kept by each of the two failures; refused without any change unless visibly sealed and not yet authorized |
| Controller.Controller.RunAndGiveBack | scripts/p9_3c1_controller.py:1157-1171 | the same, for the part under the lock; with a token file cut short it fails at preflight-ok at the latest and the lock stays held |
| Controller.Controller.GiveBack | scripts/p9_3c1_controller.py:1161-1170 | releases the lock unless reading the phase, writing the evidence or the release itself fails |
| Controller.Controller.CmdCleanup | scripts/p9_3c1_controller.py:1179-1198 | refuses without any change while the phase file is cut short, the token file exists, the lock is taken or the phase is out of range, and hence in every state the commands can bring about; in any other state a success means compensated, `done` and free, and it succeeds if nothing fails, and that ledger and phase file agree |
| Controller.Controller.AnyCommands | scripts/p9_3c1_controller.py:2886-2909 | in any sequence of prepare, run and cleanup, crashes included, no cleanup ever succeeds, and once a run has used its authorization, or the phase file is cut short, nothing changes any more |
| Renewal.RenewalSupervisor | multinexus/agentd/worker.py:558-651 | produces exactly the specified events, and has marked the lease lost if and only if it ended by itself |
| Renewal.EveryEventOk | multinexus/agentd/worker.py:594-615 | across any number of renewals no sleep starts at or past the deadline or lasts beyond it, each lasts for the renewal interval otherwise, and each request is for this lease and no later than the deadline plus its timer's lateness |
| Renewal.RequestsBeforeExpiry | multinexus/agentd/worker.py:579-590 | if stamp delay plus lateness stays within the margin, every request is issued no later than the expiry on the server |
| Renewal.MarginIsTight | multinexus/agentd/worker.py:45-46 | with exact timers and a long interval the request meets the expiry if and only if the delay is at most the margin |
| Renewal.EndsMarkTheLeaseLost | multinexus/agentd/worker.py:594-651 | every end but a cancellation marks the lease lost, and nothing follows it |
| Renewal.LostExactlyIf | multinexus/agentd/worker.py:582-651 | the lease is marked lost if and only if there is a first round that is not renewed in time: it starts at or past the deadline in force, hears of the loss in its sleep, or gets no renewal |
| Renewal.RenewsForever | multinexus/agentd/worker.py:582-651 | if every round is renewed in time there is one sleep and one request per round, at the times and deadlines the answers before them set, and nothing is lost |
| ExecutionLease.ParseMeans | multinexus/agentd/execution_lease.py:353-436 | parsing yields a lease exactly for the envelopes that carry it, if it is well formed |
| Patterns.UuidMeans | multinexus/agentd/execution_lease.py:27-29 | five groups of lower-case hexadecimal digits between dashes, up to one final line break |
| Patterns.ShaMeans | multinexus/agentd/executor_binding.py:26 | 64 lower-case hexadecimal digits, up to one final line break |
| Patterns.LabelMeans | multinexus/agentd/execution_lease.py:31 | letters, digits and three marks, at least one, up to one final line break |
| Patterns.ScopeMeans | multinexus/agentd/execution_context.py:23 | the same with colon and slash |
| ExecutionLease.LeaseRoundTrip | multinexus/agentd/execution_lease.py:527-547 | parsing a serialized lease gives it back if and only if it is well formed |
| ExecutionLease.ValidMeans | multinexus/agentd/execution_lease.py:439-524 | a lease passes if and only if it is carried, well formed, canonical in path and key, and agrees with agent, job, token, context and binding |
| ExecutionLease.Recheck | multinexus/agentd/execution_lease.py:439-524 | checking a lease again gives the same lease or an error that is caught |
| ExecutionLease.ResourceKeyInjective | multinexus/agentd/execution_lease.py:197-207 | a resource key identifies host and path |
| ExecutionLease.ResourceSays | multinexus/agentd/execution_lease.py:197-207 | what is hashed names host and path as themselves |
| ExecutionLease.ResourceIdentity | multinexus/agentd/execution_lease.py:478-486 | two leases that pass have one key if and only if they name one host and one path |
| ExecutionLease.SoundPath | multinexus/agentd/execution_lease.py:472-476 | a POSIX path that passes is canonical, in Unicode normal form, and does not end in white space |
| ExecutionLease.HostIdErrorEscapes | multinexus/agentd/execution_lease.py:183-194 | the first check raises something other than a lease error if and only if the path does not normalize, or is canonical while the host id is none |
| ExecutionLease.LongHostIdRaises | multinexus/agentd/execution_lease.py:183-194 | a concrete lease with a host id of 65 characters that parses and then raises what is not caught |
| ExecutionLease.ExampleLeaseOk | multinexus/agentd/execution_lease.py:353-436 | ordinary leases are well formed, so what is said of such leases is said of something |
| ExecutionContext.ReadLegacyScopes | multinexus/agentd/execution_context.py:240-257 | accepts exactly lists of at most ten scopes, different from each other and from the primary, and keeps their order |
| ExecutionContext.ParseContext | multinexus/agentd/execution_context.py:206-311 | succeeds exactly for well-formed envelopes whose id is the digest of their own fields |
| ExecutionContext.ContextMeans | multinexus/agentd/execution_context.py:206-311 | the accepted envelopes are exactly what `to_dict` gives for well-formed contexts under their own digest, save that the version may be `true` |
| ExecutionContext.ContextRoundTrip | multinexus/agentd/execution_context.py:75-91 | a printed context reads back as itself, and is accepted if and only if it is well formed |
| ExecutionContext.TraversalRefused | multinexus/agentd/execution_context.py:111-131 | no path with a segment `.` or `..` is accepted, whichever slash stands on either side |
| ExecutionContext.AbsoluteStarts | multinexus/agentd/execution_context.py:107-108 | examples: a slash, a drive with either slash, and two backslashes make a path absolute, at its start only |
| ExecutionContext.ContextIdCommits | multinexus/agentd/execution_context.py:160-175 | equal context ids mean equal authority fields |
| ExecutionContext.ValidateClaim | multinexus/agentd/execution_context.py:314-377 | succeeds exactly when context, job and token agree, the job id being compared only if the job has one |
| ExecutionContext.ToDictLooksUp | multinexus/agentd/execution_context.py:75-91 | the fields the lease is checked against are the context's |
| ExecutorBinding.ParseBinding | multinexus/agentd/executor_binding.py:164-228 | succeeds exactly for well-formed snapshots whose id is the digest of the rest, and says what they say |
| ExecutorBinding.BindingRoundTrip | multinexus/agentd/executor_binding.py:164-228 | the snapshot of a binding is accepted if and only if the binding is well formed and carries its own digest |
| ExecutorBinding.BindingIsWritten | multinexus/agentd/executor_binding.py:164-228 | every accepted snapshot is that of some binding |
| ExecutorBinding.ValidateBinding | multinexus/agentd/executor_binding.py:231-269 | succeeds exactly for a null snapshot or one that binds this agent as instance and profile to its adapter |
| ExecutorBinding.BindingIdCommits | multinexus/agentd/executor_binding.py:143-161 | two valid snapshots with one id are equal |
| Labels.ValidateCapabilities | multinexus/agentd/executor_binding.py:103-120 | accepts exactly strictly increasing lists of at most 32 labels |
| Worker.Decide | multinexus/agentd/worker.py:197-400 | decides exactly which claims are admitted, dropped, raise, or else are refused, and under which identity |
| Worker.AdmittedJob | multinexus/agentd/worker.py:403-426 | an admitted claim runs the payload's prompt, in the scopes and the directory of its context |
| Worker.PayloadMeans | multinexus/agentd/worker.py:737-759 | where the payload of a job comes from, as one equivalence |
| Worker.RecoveryIsFirst | multinexus/agentd/worker.py:718-735 | the recovery id is the first of its four sources that names a session, stripped |
| Worker.LegacyGate | multinexus/agentd/worker.py:230-236 | a claim without a lease is reported under its own token, and under the context's job id if and only if the job has an id |
| Worker.LegacyClaimAdmitted | multinexus/agentd/worker.py:197-400 | every claim with a well-formed context for this agent, and neither lease nor binding, is admitted |
| Worker.ManagedClaimAdmitted | multinexus/agentd/worker.py:197-400 | so is every claim whose well-formed context, lease and binding agree |
| Worker.ExampleClaimsAdmitted | multinexus/agentd/worker.py:197-400 | claims of both kinds exist |
| Worker.CrossCheck | multinexus/agentd/worker.py:343-400 | the second and third lease check pass exactly when the lease agrees with context, token and binding |
| Worker.CrossCheckMeans | multinexus/agentd/worker.py:343-400 | which amounts to the three envelopes telling one story |
| Worker.ManagedGate | multinexus/agentd/worker.py:343-426 | for an admitted managed claim all three envelopes agree with the local identity, and the provider's directory is the lease's canonical path |
| Worker.UntrustedClaims | multinexus/agentd/worker.py:204-325 | an invalid lease field, or a binding without a lease, means neither provider nor report |
| Worker.SameResourceSameDirectory | multinexus/agentd/worker.py:409-417 | two managed jobs that reach a provider hold one resource key if and only if they run on one host in one directory |
| Worker.AgentdWorker.ProcessJob | multinexus/agentd/worker.py:197-556 | a provider is called for exactly the admitted claims, whatever the event loop does, unless the sessions database raises first; dropped and raising claims leave no trace; a refused one leaves one failed report; otherwise the trace is one provider run, followed by one report exactly if the race ends with a result whose session can be saved; every report carries the trusted identity; a finished session that is saved is the active row, with the job's directory |
| Worker.AgentdWorker.Race | multinexus/agentd/worker.py:440-520 | the end of the race is determined by the event loop and the provider's reply: the supervisor of a managed claim wins if it has finished, even if the provider has too, unless the provider had not and raises when it is cancelled |
| Worker.AgentdWorker.CallOrResume | multinexus/agentd/worker.py:761-857 | the provider run is exactly the one the sessions table and the recovery id call for; a sessions database that raises ends it with that error |
| Worker.AgentdWorker.ResumeOrFallBack | multinexus/agentd/worker.py:823-851 | one resume, and after an error one fresh call with the row no longer active, or none if it cannot be marked |
| Worker.AgentdWorker.ResumeRecoverable | multinexus/agentd/worker.py:859-884 | one resume, whose error becomes a refusal instead of a fresh call |
| Worker.AgentdWorker.MarkStale | multinexus/agentd/worker.py:843-846 | the row is no longer active |
| Worker.NoDuplicateFresh | multinexus/agentd/worker.py:761-884 | for every sessions table: a recovery id leads to no fresh call and to one resume, unless the database raises before; otherwise at most one fresh call, resumes only of active rows, of the same directory or none, and a fresh call after a resume only once that row is stale |
| Worker.RaisesAtTheEnd | multinexus/agentd/worker.py:787-850 | a run ends with an error if and only if its last step raised, nothing follows such a step, and a run in which the sessions database raises makes no fresh call |
| Worker.OneReport | multinexus/agentd/worker.py:457-550 | a report is made if and only if the race ends with a result and its session can be saved; there is one at most, last of all, with the status of that result |
| Worker.ReportStatus | multinexus/agentd/worker.py:914-918 | the status of every report, from the last step before it: `done` if and only if the provider answered without a timeout or an error, `timed_out` if and only if it answered with a timeout and this is not an error in a recovery, `failed` otherwise |
| Worker.LostLeaseReport | multinexus/agentd/worker.py:461-550 | once the lease is lost a job is reported on if and only if the provider was still running and raised when it was cancelled, and the report is then `failed`; otherwise the trace ends with the lost lease |
| Worker.FailedCleanupIsReported | multinexus/agentd/worker.py:461-508 | a concrete trace: the adapter cannot end its processes, raises when it is cancelled, and the job is reported as failed after its lease is lost |
| Sessions.SessionStore.Upsert | multinexus/sessions/store.py:146-177 | the table becomes the replay of the longer history, and no other row changes |
| Sessions.SessionStore.Get | multinexus/sessions/store.py:67-82 | returns the row exactly if it is active |
| Sessions.SessionStore.GetFirstActive | multinexus/sessions/store.py:84-91 | returns what the specification of the first active scope says |
| Sessions.FirstActiveMeans | multinexus/sessions/store.py:84-91 | which is the first scope with an active row, or none |
| Sessions.SessionStore.UpdateStatus | multinexus/sessions/store.py:203-227 | marks every matching row and counts them |
| Sessions.SessionStore.MarkStale | multinexus/sessions/store.py:179-180 | marks the one row stale and changes no other |
| Sessions.SessionStore.MarkArchived | multinexus/sessions/store.py:182-183 | marks the one row archived and changes no other |
| Sessions.SessionStore.MarkTaskStale | multinexus/sessions/store.py:185-192 | marks the rows of a task's scope, or of one agent in it, stale and changes no other |
| Sessions.SessionStore.MarkTaskArchived | multinexus/sessions/store.py:194-201 | the same, archived |
| Sessions.HistoryExplainsRows | multinexus/sessions/store.py:146-227 | after any history a key has a row exactly if it was ever upserted, and the row says what the writes to its key say |
| Sessions.ActiveSessionIsLastUpsert | multinexus/sessions/store.py:146-177 | a key is active exactly if its last write is an upsert, with that session and directory, and a turn count equal to the run of upserts of one session |
| Sessions.TrailingRunUnique | multinexus/sessions/store.py:165-170 | that turn count is determined |
| Sessions.OtherKeysUntouched | multinexus/sessions/store.py:203-227 | writes that do not concern a key never change its row |
| Sessions.TaskScopesDiffer | multinexus/sessions/scope.py:29-30 | different tasks have different scopes, unless a workspace id has a colon |
| WorktreePath.NormpathWalks | multinexus/agentd/execution_lease.py:122-180 | for one leading slash the library's component loop is the naive walk |
| WorktreePath.ControlMeans | multinexus/agentd/execution_lease.py:33 | which characters are refused in a path |
| WorktreePath.NormalizePosix | multinexus/agentd/execution_lease.py:122-180 | a POSIX path normalizes to the Unicode normal form of a slash and proper segments, which are those of the naive walk and never longer than the stripped input, and the normal form is canonical too; or it is rejected for length or control characters |
| WorktreePath.FixedEndsNoSpace | multinexus/agentd/execution_lease.py:122-180 | whatever Unicode does to the segments, a fixed point does not end in white space |
| WorktreePath.AcceptsExactlyFixedPoints | multinexus/agentd/execution_lease.py:472-476 | a path is its own normal form if and only if it is canonical, in Unicode normal form, short enough, free of control characters and does not end in white space |
| WorktreePath.ResultFixedUnlessTrailingSpace | multinexus/agentd/execution_lease.py:122-180 | a result is a fixed point if and only if it does not end in white space and is within the length limit |
| WorktreePath.TrailingSpaceIsNotFixed | multinexus/agentd/execution_lease.py:122-180 | a concrete path whose normal form is not its own normal form |
| AgentReport.ParseKeyValues | multinexus/handoff_handler.py:203-216 | computes the dictionary of the specification |
| AgentReport.WordKeys | multinexus/handoff_handler.py:203-216 | the dictionary has exactly the keys that words set, dashes read as underscores |
| AgentReport.LastWordWins | multinexus/handoff_handler.py:203-216 | the last word that sets a key determines its value: what follows its first equals sign, stripped |
| AgentReport.ReportRoundTrip | multinexus/handoff_handler.py:371-392 | reading a built report gives exactly its fields, values stripped, whatever quotes, spaces or equals signs they contain |
| AgentReport.SplitAgentReportLines | multinexus/handoff_handler.py:418-455 | separates the accepted report blocks from the lines left for display |
| AgentReport.BlockAt | multinexus/handoff_handler.py:436-443 | a block is a head line and the field lines right after it |
| AgentReport.BlockTaken | multinexus/handoff_handler.py:418-455 | a head line and its field lines are taken as a whole, as a report or for display, and the lines around them are untouched |
| AgentReport.HeadMeans | multinexus/handoff_handler.py:68-71 | a head line is white space, the header in any case, and then white space or nothing |
| AgentReport.FieldLineMeans | multinexus/handoff_handler.py:72-75 | a field line is white space, a name that does not start with a digit or dash, and an equals sign |
| AgentReport.FirstLine | multinexus/handoff_handler.py:418-430 | a line ends at its first line break, of which carriage return and line feed together are one |
| AgentReport.LineBreaksAre | multinexus/handoff_handler.py:418-430 | which characters break a line |
| AgentReport.AcceptsExactly | multinexus/handoff_handler.py:400-455 | a text of fields is a report if and only if its action or decision is one of the known ones, and an execution report if and only if it is one of those on work done |
| AgentReport.ReportOnLines | multinexus/handoff_handler.py:418-455 | a report with each field on its own line is found as a whole and means its fields, and the rest of the response is read as if it stood alone |
| AgentReport.ReportIsExtracted | multinexus/handoff_handler.py:418-455 | a report built from values without line breaks is found as the only block, with nothing left for display |
| AgentReport.ContainsExecutionAgentReport | multinexus/handoff_handler.py:400-415 | holds exactly if some block is an execution report |
| AgentReport.ReportAction | multinexus/handoff_handler.py:400-415 | a built report is an execution report exactly for blocker, done and progress |
| ShellWords.QuoteReadsBack | multinexus/handoff_handler.py:371-392 | a quoted value reads back as itself inside any line |
| ShellWords.SplitReadsFields | multinexus/handoff_handler.py:203-216 | splitting quoted fields, joined by blanks or line breaks, gives the fields |
| ShellWords.QuoteIsOneWord | multinexus/handoff_handler.py:371-392 | a quoted value on its own is one word, even if empty |
| ShellWords.DoubleQuotesReadBack | multinexus/handoff_handler.py:203-206 | text between double quotes reads back with quotes and backslashes escaped |
| ShellWords.BackslashStays | multinexus/handoff_handler.py:203-206 | and a backslash before any other character stays |
| ShellWords.BackslashesReadBack | multinexus/handoff_handler.py:203-206 | outside quotes a backslash takes any character into the word |
| ShellWords.UnclosedQuoteFails | multinexus/handoff_handler.py:203-206 | a quote that is never closed makes the text unreadable |
| Chunker.ChunkMessage | utils/chunker.py:12-47 | the loop ends; every chunk has at most 2000 characters, every chunk but the last balanced fences, and without the inserted fences the chunks are the text minus newlines at the cuts |
| Chunker.FindSplitPrefers | utils/chunker.py:50-72 | the split is at the last usable paragraph break, else line break, else blank, else at the limit |
| Chunker.CloserAddsOneFence | utils/chunker.py:75-77 | closing an open block makes the number of fences even |
| Chunker.CutStep | utils/chunker.py:25-47 | one round of the loop keeps the account of what was cut |
| CanonicalJson.PrintInjective | multinexus/registry_authority.py:192-193 | canonical JSON is injective |
| CanonicalJson.ReadsBack | multinexus/registry_authority.py:192-193 | a reader of JSON that insists on increasing names, given a printed value and whatever may follow it, returns the value and the rest |
| CanonicalJson.PrintRoundTrip | multinexus/registry_authority.py:192-193 | reading a printed value gives it back |
| CanonicalJson.EscapesOnlyControls | multinexus/registry_authority.py:192-193 | only quotes, backslashes and control characters are escaped |
| CanonicalJson.IntegersEqual | multinexus/agentd/execution_context.py:224-225 | `True` equals one and `False` zero, and nothing else equals an integer |
| StringOrder.LessAtFirstDifference | multinexus/registry_authority.py:192-193 | strings are ordered by their first difference |
| CanonicalJson.DigestCommits | multinexus/registry_authority.py:192-206 | an injective digest of it commits to the value |
| CanonicalJson.PrintOneLine | scripts/production-mutation-lock.py:1196-1199 | a printed value contains no line break |
| RosterParity.DiffRosters | multinexus/registry_authority.py:518-542 | computes the diff of the specification |
| RosterParity.DiffMeans | multinexus/registry_authority.py:518-542 | removed is what only the runtime has, added what only the authority has, changed what both have with exactly the fields that differ |
| RosterParity.DiffIsSorted | multinexus/registry_authority.py:525-541 | the changes are in the order of their ids, at most one for each |
| RosterParity.CanonicalSays | multinexus/registry_authority.py:196-203 | every field is hashed under its own name |
| RosterParity.EmptyDiffIsSameRoster | multinexus/registry_authority.py:518-542 | the diff is empty exactly if both rosters show the same entries under the same ids |
| RosterParity.SortByIdSorts | multinexus/registry_authority.py:204-206 | sorting by unique ids gives a strictly increasing list of the same entries |
| RosterParity.SortedListsAgree | multinexus/registry_authority.py:196-206 | sorted lists are the same list exactly for the same roster |
| RosterParity.DiffAgreesWithHash | multinexus/registry_authority.py:591-599 | for unique ids, in whatever order, the diff is empty if and only if the canonical hashes are equal |
| RosterLoading.LoadAuthority | multinexus/registry_authority.py:244-445 | succeeds exactly for authorities in order, with unique ids and Discord ids, and with a binding to a known definition for exactly the entries with an executor; raises something other than an AuthorityError exactly if the header is in order and the definitions cannot be iterated |
| RosterLoading.CheckHeader | multinexus/registry_authority.py:257-276 | accepts exactly the headers in order |
| RosterLoading.ReadAgentMeans | multinexus/registry_authority.py:316-430 | a row is read as an entry and its binding if and only if it says so, with a positive Discord id as text, no unknown field, and an executor only for a managed agent that is its own profile |
| RosterLoading.DiscordIdMeans | multinexus/registry_authority.py:131-142 | a Discord id is a positive decimal number |
| RosterLoading.ExampleAuthorities | multinexus/registry_authority.py:280-282 | a minimal authority is in order; with a number for its definitions, or for the agents of the runtime, the check raises |
| RosterLoading.LoadRows | multinexus/registry_authority.py:316-430 | accepts exactly the rows that read and do not collide, in order |
| RosterLoading.LoadDefinitions | multinexus/registry_authority.py:278-312 | accepts exactly the well-formed definitions with distinct ids |
| RosterLoading.ReadDefinition | multinexus/registry_authority.py:281-311 | accepts exactly the well-formed definition |
| RosterLoading.ProjectRuntimeRoster | multinexus/registry_authority.py:448-515 | always yields unique ids, and reports no error exactly if every row reads and none collide |
| RosterLoading.ProjectRow | multinexus/registry_authority.py:472-513 | one row is accepted exactly if it reads and its ids are new |
| RosterLoading.ReadRuntimeMeans | multinexus/registry_authority.py:472-513 | a runtime row is read as an entry if and only if it says so |
| RosterLoading.RuntimeAdapters | multinexus/registry_authority.py:545-559 | the last row filed under an id determines its adapter |
| RosterLoading.AdapterRowMeans | multinexus/registry_authority.py:552-558 | a row files its stripped adapter under its stripped id, if both are there |
| RosterLoading.AdapterIsLast | multinexus/registry_authority.py:552-558 | the adapter of an id is that of the last row filed under it |
| RosterLoading.CheckBinding | multinexus/registry_authority.py:602-623 | passes exactly if the runtime adapter is that of the bound definition |
| RosterLoading.CheckBindings | multinexus/registry_authority.py:602-623 | no error exactly if every binding passes, and never an unknown definition |
| RosterLoading.BindingsAgree | multinexus/registry_authority.py:601-623 | checking the bindings is checking every entry with an executor |
| RosterLoading.VerifyParity | multinexus/registry_authority.py:562-627 | raises exactly if one of two loops cannot start; otherwise ok exactly if the authority loads, the runtime has no error, both show the same roster and all adapters agree; the reported diff is that of the two rosters; the hash mismatch and the unknown definition never occur |
| RosterLoading.ExampleInParity | multinexus/registry_authority.py:562-627 | a concrete authority and runtime are in parity |

## Left out

- Windows drive and UNC paths, the Unicode tables and timestamps are library functions given as parameters.
- Controller.Controller.RunMatrix: the five-job script is any sequence of starts, stops, events and commands, because its checks are conjunctions over fixed data.
- Controller.Controller.CleanupSuffix: the check of submitted jobs and leases, the projection comparison and the database health gate are commands that may raise.
- Controller.Controller.CmdRun: the read-only preflight and status commands, and the validation of the authorization file, are single steps that may raise.
- RecoverAudit.LockHost.CheckAuthority: file types, owners, modes and links are one nondeterministic check; the receipt digest that recover returns is not modelled.
- RecoverAudit.LockHost.AuditAppend: the text is written character by character, which for these ASCII lines is byte by byte.
- LockProtocol: the status command reads only and is not modelled; steps that only read have no effect on the state.
- Worker.AgentdWorker.ProcessJob: progress reports to Coordinate, log lines and the content of the result are not part of the trace; a report that raises has the same trace.
- Worker.AgentdWorker.Race: asyncio is reduced to which task has finished when the wait returns, and a cancellation of the worker that is swallowed while it awaits a cancelled task counts as none; an adapter is an arbitrary reply after any number of progress updates.
- Renewal.RenewalSupervisor: the run is given by a finite list of rounds and counts as cancelled when it is over.
- RosterLoading.LoadAuthority: error texts and the executor catalog hash are not modelled; TOML dates and floats do not occur, and no integer is too long for `str`.
- RosterLoading.ProjectRuntimeRoster: errors are counted, not worded, and those of the sections come first.
- The worker's polling loop, the session listing queries, the handoff parser and the prompts around reports: they would only add easier members.
- Discord and KOOK gateways, adapters, the washer, the wiki and security filters: user interface, network or regular expressions without a hard invariant.
