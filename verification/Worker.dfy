/** multinexus/agentd/worker.py: one claimed job, from the claim response to
    the report, as a trace of what the worker does to the outside. */
module Worker {
  import opened Prelude
  import opened PyText
  import opened CanonicalJson
  import opened Sessions
  import L = ExecutionLease
  import B = ExecutorBinding
  import C = ExecutionContext
  import P = Patterns
  import N = WorktreePath

  /** `timeout` is the metadata entry of that name. */
  datatype AdapterResult = AdapterResult(text: string, sessionId: string, resumed: bool, timeout: Json)

  /** How an awaited call ends; a cancelled one may have done anything before. */
  datatype Reply = Answer(result: AdapterResult) | Raised(message: string) | Cancelled

  /** What the worker does, in order. A call of the provider records the
      sessions table it was started with and how it ended. `StoreFailed` is a
      call of the sessions database that raises. */
  datatype Action =
    | Called(prompt: Json, workDir: string, rows: map<Key, Row>, reply: Reply)
    | Resumed(sessionId: string, prompt: Json, workDir: string, rows: map<Key, Row>, reply: Reply)
    | MarkedStale(scope: string)
    | StoreFailed
    | LeaseLost
    | Reported(jobId: Json, token: int, leaseId: Option<string>, status: string)
  {
    predicate Provider() {
      Called? || Resumed?
    }
  }

  predicate StartsWith(text: string, start: string) {
    start <= text
  }

  const ERROR_PREFIXES: seq<string> := [
    "Agent error:", "OpenCode CLI failed", "OpenCode timed out", "OpenCode returned no text", "Codex CLI failed",
    "Codex timed out", "Codex stopped responding", "Codex resume failed", "Hermes CLI failed", "Hermes timed out",
    "Claude CLI failed", "Claude error:", "Claude timeout", "omp CLI failed", "omp timed out"]

  predicate IsError(text: string) {
    exists i :: 0 <= i < |ERROR_PREFIXES| && StartsWith(text, ERROR_PREFIXES[i])
  }

  /** `_status_for_result` */
  function StatusFor(r: AdapterResult): string {
    if Truthy(r.timeout) || StartsWith(r.text, "Claude timeout:") then "timed_out"
    else if IsError(r.text) then "failed"
    else "done"
  }

  const DUPLICATE_REFUSED :=
    "Agent error: " + "recoverable session resume failed; not starting duplicate fresh execution"

  /** What a recovery resume returns: an error never leads to a fresh call. */
  function Recovered(sessionId: string, reply: Reply): Reply {
    if reply.Answer? && IsError(reply.result.text) then
      Answer(AdapterResult(DUPLICATE_REFUSED, sessionId, true, Null))
    else reply
  }

  /** An existing row of another directory is not to be resumed. */
  predicate Conflicts(row: Row, workDir: string) {
    workDir != "" && row.workDir.Some? && row.workDir.value != "" && row.workDir.value != workDir
  }

  /** The parameters of one provider run. */
  datatype Job = Job(prompt: Json, scope: string, legacyScopes: seq<string>, workDir: string, recovery: string)

  function Existing(rows: map<Key, Row>, agentId: string, j: Job): Option<(string, Row)> {
    if j.scope == "" then None else FirstActive(rows, [j.scope] + j.legacyScopes, agentId)
  }

  /** The whole of a provider run, given the sessions table at its start:
      - a recovery id is resumed once and nothing else is started;
      - otherwise the first active row is resumed, unless it is of another
        directory, and only an error then leads to one fresh call, with that row
        stale by the time it starts;
      - otherwise there is one fresh call.
      A row of another directory is marked stale first. A sessions database that
      raises ends the run with that error. */
  ghost predicate IsRun(actions: seq<Action>, rows: map<Key, Row>, agentId: string, j: Job, reply: Reply) {
    if actions == [StoreFailed] then j.scope != "" && reply.Raised?
    else RunsProvider(actions, rows, agentId, j, reply)
  }

  ghost predicate RunsProvider(actions: seq<Action>, rows: map<Key, Row>, agentId: string, j: Job, reply: Reply) {
    var existing := Existing(rows, agentId, j);
    var conflict := existing.Some? && Conflicts(existing.value.1, j.workDir);
    var stale := if conflict then [MarkedStale(existing.value.0)] else [];
    if j.recovery != "" then
      && |actions| == |stale| + 1 && stale <= actions
      && IsResume(actions[|stale|], j.recovery, j)
      && reply == Recovered(j.recovery, actions[|stale|].reply)
    else if existing.Some? && !conflict then
      && IsActive(rows, (existing.value.0, agentId))
      && ResumesOrFallsBack(actions, rows, agentId, existing.value.0, existing.value.1.sessionId, j, reply)
    else
      && |actions| == |stale| + 1 && stale <= actions
      && IsFresh(actions[|stale|], j)
      && (conflict ==> !IsActive(actions[|stale|].rows, (existing.value.0, agentId)))
      && reply == actions[|stale|].reply
  }

  ghost predicate ResumesOrFallsBack(actions: seq<Action>, rows: map<Key, Row>, agentId: string, scope: string,
                                     sessionId: string, j: Job, reply: Reply) {
    && actions != [] && IsResume(actions[0], sessionId, j) && actions[0].rows == rows
    && if actions[0].reply.Answer? && IsError(actions[0].reply.result.text) then
         if |actions| == 2 then actions[1] == StoreFailed && reply.Raised?
         else
           && |actions| == 3 && actions[1] == MarkedStale(scope) && IsFresh(actions[2], j)
           && !IsActive(actions[2].rows, (scope, agentId))
           && reply == actions[2].reply
       else
         |actions| == 1 && reply == actions[0].reply
  }

  predicate IsResume(a: Action, sessionId: string, j: Job) {
    a.Resumed? && a.sessionId == sessionId && a.prompt == j.prompt && a.workDir == j.workDir
  }

  predicate IsFresh(a: Action, j: Job) {
    a.Called? && a.prompt == j.prompt && a.workDir == j.workDir
  }

  // ----- what a claim says -----

  /** The worker's own identity, and the library functions it relies on: the
      digest, paths and timestamps, and `json.loads`. */
  datatype Local = Local(
    id: string,
    adapter: string,
    sha: string -> string,
    lib: L.LeaseLibrary,
    loads: string -> Option<Json>)

  /** The identity a report is made under. */
  datatype Authority = Authority(jobId: Json, token: Option<int>, leaseId: Option<string>)

  /** `claim_result.get("job") or {}` */
  function RawJob(claim: Dict): Json {
    if Truthy(Get(claim, "job")) then Get(claim, "job") else Obj(map[])
  }

  /** `_extract_payload` */
  function ExtractPayload(loads: string -> Option<Json>, job: Dict): Result<Dict> {
    var payload, text := Get(job, "payload"), Get(job, "payload_json");
    if payload.Obj? then Success(payload.fields)
    else if !payload.Null? then Failure
    else if text.Null? || text == Str("") then Success(map[])
    else if text.Obj? then Success(text.fields)
    else if !text.Str? || loads(text.s).None? || !loads(text.s).value.Obj? then Failure
    else Success(loads(text.s).value.fields)
  }

  function PayloadOf(me: Local, claim: Dict): Result<Dict> {
    if RawJob(claim).Obj? then ExtractPayload(me.loads, RawJob(claim).fields) else Failure
  }

  /** The first check of the lease field, if there is one. */
  function LeaseOf(me: Local, claim: Dict): Option<L.LeaseCheck> {
    if "execution_lease" !in claim then None
    else Some(L.ValidateLease(me.sha, me.lib, claim["execution_lease"], me.id, None, None, None, None))
  }

  function AuthorityOf(me: Local, claim: Dict): Authority {
    var lease, job := LeaseOf(me, claim), RawJob(claim);
    if lease.Some? && lease.value.Valid? then
      var l := lease.value.lease.id;
      Authority(Str(l.jobId), Some(l.attemptToken), Some(l.leaseId))
    else
      Authority(if job.Obj? && "id" in job.fields then job.fields["id"] else Str("?"),
                if IsInt(Get(claim, "attempt_token")) then Some(IntValue(Get(claim, "attempt_token"))) else None,
                None)
  }

  function Prompt(payload: Dict): Json {
    if "prompt" in payload then payload["prompt"] else Str("")
  }

  /** `len(prompt)` is defined. */
  predicate Sized(prompt: Json) {
    prompt.Str? || prompt.Arr? || prompt.Obj?
  }

  function Fields(v: Json): Dict {
    if v.Obj? then v.fields else map[]
  }

  function Candidate(v: Json): string {
    if v.Str? then Strip(v.s) else ""
  }

  /** `_recovery_session_id` */
  function RecoverySessionId(job: Dict): string {
    var result := Fields(Get(job, "result"));
    var terminal := Candidate(Get(job, "terminal_session_id"));
    var progress := Candidate(Get(Fields(Get(job, "progress")), "session_id"));
    var timeout := Candidate(Get(Fields(Get(result, "timeout")), "session_id"));
    if terminal != "" then terminal
    else if progress != "" then progress
    else if timeout != "" then timeout
    else Candidate(Get(result, "session_id"))
  }

  function JobOf(me: Local, claim: Dict): Job {
    var payload := PayloadOf(me, claim);
    var context := C.SnapshotOf(Fields(Get(claim, "execution_context")));
    Job(if payload.Success? then Prompt(payload.value) else Null, context.sessionScopeId, context.legacyScopeIds,
        context.worktreePath, RecoverySessionId(Fields(Get(claim, "job"))))
  }

  /** The three envelopes of a managed claim tell one story. */
  ghost predicate Agree(l: L.Lease, agentId: string, context: Dict, token: int) {
    && l.id.agentId == agentId && l.id.runnerProfileId == agentId
    && Get(context, "job_id") == Str(l.id.jobId)
    && Get(context, "host_id") == Str(l.id.hostId)
    && Get(context, "worktree_path") == Str(l.id.normalizedPath)
    && token == l.id.attemptToken
  }

  /** The claims whose envelopes pass every check. */
  ghost predicate Trusted(me: Local, claim: Dict) {
    && PayloadOf(me, claim).Success?
    && C.ClaimOk(me.sha, claim, me.id)
    && var payload := PayloadOf(me, claim).value;
    match LeaseOf(me, claim)
    case None => "executor_binding" !in payload
    case Some(check) =>
      && check.Valid?
      && B.BindsTo(me.sha, Get(payload, "executor_binding"), me.id, me.adapter)
      && Agree(check.lease, me.id, Get(claim, "execution_context").fields, IntValue(Get(claim, "attempt_token")))
  }

  /** The claims for which a provider is started. */
  ghost predicate Admitted(me: Local, claim: Dict) {
    Trusted(me, claim) && Sized(Prompt(PayloadOf(me, claim).value))
  }

  /** The claims that make the worker raise before it has done anything: a lease
      whose path or host id raises what is not caught, a job that is no object,
      or a prompt without a length. */
  ghost predicate Raises(me: Local, claim: Dict) {
    var check := LeaseOf(me, claim);
    || (check.Some? && check.value.ResourceIdentityError?)
    || ((check.None? || check.value.Valid?)
        && (!RawJob(claim).Obj? || (Trusted(me, claim) && !Sized(Prompt(PayloadOf(me, claim).value)))))
  }

  /** The claims that are dropped: no provider and no report. */
  ghost predicate Dropped(me: Local, claim: Dict) {
    match LeaseOf(me, claim)
    case None =>
      RawJob(claim).Obj? && (
        || PayloadOf(me, claim).Failure? || "executor_binding" in PayloadOf(me, claim).value
        || (!C.ClaimOk(me.sha, claim, me.id) && !IsInt(Get(claim, "attempt_token"))))
    case Some(check) => check.LeaseError?
  }

  datatype Decision = Drop | Escape | Refuse(under: Authority) | Admit(under: Authority, job: Job)

  /** Everything up to the start of the provider. */
  method Decide(me: Local, claim: Dict) returns (d: Decision)
    ensures d.Admit? <==> Admitted(me, claim)
    ensures d.Drop? <==> Dropped(me, claim)
    ensures d.Escape? <==> Raises(me, claim)
    ensures d.Refuse? || d.Admit? ==> d.under == AuthorityOf(me, claim) && d.under.token.Some?
    ensures d.Admit? ==> d.job == JobOf(me, claim)
  {
    hide L.ValidateLease, L.AgreesWithContext, L.AgreesWithBinding, L.Sound, B.BindsTo, C.ClaimOk, C.Describes,
      C.ToDict, C.SnapshotOf, C.ContextId, Truthy, ExtractPayload, Sized, Agree, RecoverySessionId;
    var check := LeaseOf(me, claim);
    if check.Some? && !check.value.Valid? {
      return if check.value.LeaseError? then Drop else Escape;
    }
    if !RawJob(claim).Obj? {
      return Escape;
    }
    var under, payload := AuthorityOf(me, claim), PayloadOf(me, claim);
    if payload.Failure? {
      return if check.Some? then Refuse(under) else Drop;
    }
    if check.Some? {
      B.NullBindsNothing(me.sha, me.id, me.adapter);
      if "executor_binding" !in payload.value {
        return Refuse(under);
      }
      var binding := B.ValidateBinding(me.sha, payload.value["executor_binding"], me.id, me.adapter);
      if binding.Failure? || binding.value.None? {
        return Refuse(under);
      }
    } else if "executor_binding" in payload.value {
      return Drop;
    }
    var valid := C.ValidateClaim(me.sha, claim, me.id);
    if valid.Failure? {
      return if under.token.Some? then Refuse(under) else Drop;
    }
    C.ClaimOkMeans(me.sha, claim, me.id);
    if check.Some? {
      var binding := payload.value["executor_binding"];
      B.BindsToMeans(me.sha, binding, me.id, me.adapter);
      L.ValidForAgent(me.sha, me.lib, claim["execution_lease"], me.id);
      CrossCheckMeans(me, claim, check.value.lease, valid.value, binding);
      var agreed := CrossCheck(me, claim, check.value.lease, valid.value, binding);
      if !agreed {
        return Refuse(under);
      }
    }
    var prompt := Prompt(payload.value);
    if !Sized(prompt) {
      return Escape;
    }
    var context := valid.value.context.snapshot;
    return Admit(under, Job(prompt, context.sessionScopeId, context.legacyScopeIds, context.worktreePath,
                         RecoverySessionId(valid.value.job)));
  }

  /** The second and third check of the lease, against the context and then
      against the binding as well. */
  method CrossCheck(me: Local, claim: Dict, lease: L.Lease, valid: C.Claim, binding: Json) returns (agreed: bool)
    requires "execution_lease" in claim && binding.Obj?
    requires L.ValidateLease(me.sha, me.lib, claim["execution_lease"], me.id, None, None, None, None) == L.Valid(lease)
    ensures agreed <==>
      && lease.id.jobId == valid.context.snapshot.jobId && lease.id.attemptToken == valid.attemptToken
      && L.AgreesWithContext(lease, C.ToDict(valid.context)) && L.AgreesWithBinding(lease, binding.fields)
  {
    hide L.ValidateLease, L.AgreesWithContext, L.AgreesWithBinding, C.ToDict;
    var v, context := claim["execution_lease"], C.ToDict(valid.context);
    var jobId, token := valid.context.snapshot.jobId, valid.attemptToken;
    L.Recheck(me.sha, me.lib, v, me.id, lease, Some(jobId), Some(token), Some(context), None);
    var second := L.ValidateLease(me.sha, me.lib, v, me.id, Some(jobId), Some(token), Some(context), None);
    if !second.Valid? {
      return false;
    }
    L.Recheck(me.sha, me.lib, v, me.id, lease, Some(jobId), Some(token), Some(context), Some(binding.fields));
    var third := L.ValidateLease(me.sha, me.lib, v, me.id, Some(jobId), Some(token), Some(context),
                                 Some(binding.fields));
    return third.Valid?;
  }

  /** What the cross-checks amount to. */
  lemma CrossCheckMeans(me: Local, claim: Dict, lease: L.Lease, valid: C.Claim, binding: Json)
    requires lease.id.agentId == me.id
    requires Get(claim, "execution_context").Obj?
    requires C.Describes(valid.context, Get(claim, "execution_context").fields)
    requires Get(Get(claim, "execution_context").fields, "assigned_agent") == Str(me.id)
    requires binding.Obj? && Get(binding.fields, "executor_instance_id") == Str(me.id)
    requires Get(binding.fields, "runner_profile_id") == Str(me.id)
    ensures (&& lease.id.jobId == valid.context.snapshot.jobId && lease.id.attemptToken == valid.attemptToken
             && L.AgreesWithContext(lease, C.ToDict(valid.context)) && L.AgreesWithBinding(lease, binding.fields))
       <==> Agree(lease, me.id, Get(claim, "execution_context").fields, valid.attemptToken)
  {
    hide C.ToDict, Get, C.Listed;
    C.ToDictLooksUp(valid.context);
  }

  lemma ScopeIsSet(me: Local, claim: Dict)
    requires Admitted(me, claim)
    ensures JobOf(me, claim).scope != ""
  {
    hide LeaseOf, PayloadOf, C.ClaimOk, B.BindsTo, Agree, RecoverySessionId;
    C.ClaimOkMeans(me.sha, claim, me.id);
  }

  // ----- one processed job -----

  /** What happens around one run: the worker is cancelled before the provider
      starts, or later but ahead of the report; the supervisor has finished when
      the wait for the two tasks returns; the provider has; the sessions database
      raises when the session is saved. */
  datatype Loop = Loop(cancelledAtOnce: bool, cancelledLater: bool, renewalDone: bool, providerDone: bool,
                       saveRaises: bool)

  /** How the race ended: the lease was lost, the worker itself was cancelled, or
      there is a result to report. */
  datatype Ended = Lost | Interrupted | Finished(result: AdapterResult)

  datatype End = DroppedIt | RaisedEarly | Refused | Ran(ended: Ended)

  function ReportUnder(under: Authority, status: string): Action
    requires under.token.Some?
  {
    Reported(under.jobId, under.token.value, under.leaseId, status)
  }

  /** What a provider that raises is reported as. */
  function ErrorResult(message: string): AdapterResult {
    AdapterResult("Agent error: " + message, "", false, Null)
  }

  /** The end a race comes to. The supervisor of a managed claim wins if it has
      finished when the wait returns, even if the provider has too. A provider
      that has not is cancelled and awaited; if it then raises anything but the
      cancellation, this is taken for its result all the same. */
  function EndOf(reply: Reply, managed: bool, env: Loop): Ended {
    if env.cancelledLater then Interrupted
    else if managed && env.renewalDone && (env.providerDone || !reply.Raised?) then Lost
    else
      match reply
      case Answer(result) => Finished(result)
      case Raised(message) => Finished(ErrorResult(message))
      case Cancelled => Interrupted
  }

  /** A session worth saving is saved ahead of the report. */
  predicate Reaches(result: AdapterResult, env: Loop) {
    result.sessionId == "" || !env.saveRaises
  }

  /** The provider run of a race, and what the race makes of its reply. */
  ghost predicate RaceRun(run: seq<Action>, rows: map<Key, Row>, agentId: string, j: Job, managed: bool, env: Loop,
                          ended: Ended) {
    if env.cancelledAtOnce then run == [] && ended == Interrupted
    else exists reply :: IsRun(run, rows, agentId, j, reply) && ended == EndOf(reply, managed, env)
  }

  /** A run, followed by one report exactly if there is a result and its session
      could be saved. */
  ghost predicate Completes(actions: seq<Action>, rows: map<Key, Row>, agentId: string, j: Job, managed: bool,
                            env: Loop, ended: Ended, under: Authority)
    requires under.token.Some?
  {
    exists run :: Splits(actions, run, rows, agentId, j, managed, env, ended, under)
  }

  ghost predicate Splits(actions: seq<Action>, run: seq<Action>, rows: map<Key, Row>, agentId: string, j: Job,
                         managed: bool, env: Loop, ended: Ended, under: Authority)
    requires under.token.Some?
  {
    && RaceRun(run, rows, agentId, j, managed, env, ended)
    && match ended
       case Lost => actions == run + [LeaseLost]
       case Interrupted => actions == run
       case Finished(result) =>
         actions == run + [if Reaches(result, env) then ReportUnder(under, StatusFor(result)) else StoreFailed]
  }

  // ----- what follows for every job -----

  /** No duplicate fresh execution, for every sessions table: a recovery id is
      resumed exactly once, unless the database raises before, and nothing is
      started afresh; otherwise there is at most one fresh call, whatever is
      resumed is the session of an active row of this agent whose directory does
      not conflict, and a fresh call that follows a resume finds that row no
      longer active. */
  lemma NoDuplicateFresh(run: seq<Action>, rows: map<Key, Row>, agentId: string, j: Job, reply: Reply)
    requires IsRun(run, rows, agentId, j, reply)
    ensures forall a, b :: 0 <= a < b < |run| && run[a].Called? ==> !run[b].Provider()
    ensures forall a, b :: 0 <= a < b < |run| && run[a].Resumed? ==> !run[b].Resumed?
    ensures j.recovery != "" ==>
              && (run != [StoreFailed] ==> exists a :: 0 <= a < |run| && IsResume(run[a], j.recovery, j))
              && (forall a :: 0 <= a < |run| ==> !run[a].Called?)
    ensures j.recovery == "" ==> forall a :: 0 <= a < |run| && run[a].Resumed? ==>
              ResumesActiveRow(run[a], agentId, j)
    ensures forall a, b :: 0 <= a < b < |run| && run[a].Resumed? && run[b].Called? ==>
              FreshAfterStale(run[a], run[b], agentId, j)
    ensures forall a :: 0 <= a < |run| ==> !run[a].Reported? && !run[a].LeaseLost?
    ensures forall a :: 0 <= a < |run| && run[a].Provider() ==> run[a].workDir == j.workDir && run[a].prompt == j.prompt
  {
    hide IsError, Recovered, FirstActive;
    var existing := Existing(rows, agentId, j);
    FirstActiveMeans(rows, [j.scope] + j.legacyScopes, agentId);
    if run != [StoreFailed] && j.recovery == "" && existing.Some? && !Conflicts(existing.value.1, j.workDir) {
      var i :| FirstAt(rows, [j.scope] + j.legacyScopes, agentId, i, existing.value);
      assert ([j.scope] + j.legacyScopes)[i] == existing.value.0;
      NoConflict(existing.value.1, j.workDir);
      assert RowResumed(run[0], agentId, j, existing.value.0);
    }
  }

  lemma NoConflict(row: Row, workDir: string)
    requires !Conflicts(row, workDir)
    ensures row.workDir in {None, Some(""), Some(workDir)} || workDir == ""
  {
  }

  /** The session resumed is that of an active row under this scope. */
  ghost predicate RowResumed(a: Action, agentId: string, j: Job, scope: string)
    requires a.Resumed?
  {
    && scope in [j.scope] + j.legacyScopes && IsActive(a.rows, (scope, agentId))
    && a.rows[(scope, agentId)].sessionId == a.sessionId
    && (a.rows[(scope, agentId)].workDir in {None, Some(""), Some(j.workDir)} || j.workDir == "")
  }

  ghost predicate ResumesActiveRow(a: Action, agentId: string, j: Job)
    requires a.Resumed?
  {
    exists scope :: RowResumed(a, agentId, j, scope)
  }

  ghost predicate FreshAfterStale(earlier: Action, later: Action, agentId: string, j: Job)
    requires earlier.Resumed? && later.Called?
  {
    exists scope :: RowResumed(earlier, agentId, j, scope) && !IsActive(later.rows, (scope, agentId))
  }

  ghost predicate IsReported(actions: seq<Action>) {
    exists a :: 0 <= a < |actions| && actions[a].Reported?
  }

  /** Something in a run raises other than a cancellation: the provider or the
      sessions database. */
  predicate Raising(a: Action) {
    a.StoreFailed? || (a.Provider() && a.reply.Raised?)
  }

  ghost predicate SomethingRaised(run: seq<Action>) {
    exists a :: 0 <= a < |run| && Raising(run[a])
  }

  /** What raises in a run ends it with an error, and no fresh call is made in a
      run whose database raises. */
  lemma RaisesAtTheEnd(run: seq<Action>, rows: map<Key, Row>, agentId: string, j: Job, reply: Reply)
    requires IsRun(run, rows, agentId, j, reply)
    ensures run != [] && (reply.Raised? <==> Raising(run[|run| - 1]))
    ensures forall a :: 0 <= a < |run| && Raising(run[a]) ==> a == |run| - 1
    ensures StoreFailed in run ==> forall a :: 0 <= a < |run| ==> !run[a].Called?
  {
    hide IsError, FirstActive, Conflicts;
  }

  /** The reply of a run is that of its last provider call, unless the database
      raises; a recovery replaces an error by its refusal. */
  lemma ReplyOfRun(run: seq<Action>, rows: map<Key, Row>, agentId: string, j: Job, reply: Reply)
    requires IsRun(run, rows, agentId, j, reply)
    ensures run != []
    ensures var last := run[|run| - 1];
            && (last.StoreFailed? ==> reply.Raised?)
            && (!last.StoreFailed? ==> last.Provider())
            && (last.Provider() ==> reply == if j.recovery != "" then Recovered(j.recovery, last.reply) else last.reply)
  {
    hide IsError, FirstActive, Conflicts, Recovered;
  }

  predicate TimedOut(r: AdapterResult) {
    r.timeout !in {Null, Bool(false), Num(0), Str(""), Arr([]), Obj(map[])} || "Claude timeout:" <= r.text
  }

  predicate Erroneous(r: AdapterResult) {
    exists prefix :: prefix in ERROR_PREFIXES && prefix <= r.text
  }

  /** The status of every report, told from the last step before it. Errors of a
      recovery are refused as duplicates and `failed`, timeouts among them. */
  lemma ReportStatus(actions: seq<Action>, rows: map<Key, Row>, agentId: string, j: Job, managed: bool, env: Loop,
                     ended: Ended, under: Authority)
    requires under.token.Some? && Completes(actions, rows, agentId, j, managed, env, ended, under)
    requires IsReported(actions)
    ensures |actions| >= 2 && actions[|actions| - 1].Reported?
    ensures var last, status := actions[|actions| - 2], actions[|actions| - 1].status;
            var answered := last.Provider() && last.reply.Answer?;
            && (status == "done" <==> answered && !TimedOut(last.reply.result) && !Erroneous(last.reply.result))
            && (status == "timed_out" <==>
                  answered && TimedOut(last.reply.result) && !(j.recovery != "" && Erroneous(last.reply.result)))
            && status in {"done", "timed_out", "failed"}
  {
    hide IsRun, StatusFor, Recovered;
    OneReport(actions, rows, agentId, j, managed, env, ended, under);
    var run :| Splits(actions, run, rows, agentId, j, managed, env, ended, under);
    var reply :| IsRun(run, rows, agentId, j, reply) && ended == EndOf(reply, managed, env);
    ReplyOfRun(run, rows, agentId, j, reply);
    var last: Action := run[|run| - 1];
    assert actions[|actions| - 2] == last;
    RecoveredStays(j.recovery, last);
    if reply.Raised? {
      ErrorsFail(reply.message);
    } else {
      StatusMeans(j.recovery, last.reply.result);
    }
  }

  lemma RecoveredStays(recovery: string, last: Action)
    ensures last.Provider() && last.reply.Answer? ==>
      Recovered(recovery, last.reply).Answer?
    ensures last.Provider() && !last.reply.Answer? ==> Recovered(recovery, last.reply) == last.reply
  {
  }

  lemma ErroneousMeans(r: AdapterResult)
    ensures IsError(r.text) <==> Erroneous(r)
  {
    if IsError(r.text) {
      var i :| 0 <= i < |ERROR_PREFIXES| && StartsWith(r.text, ERROR_PREFIXES[i]);
      assert ERROR_PREFIXES[i] in ERROR_PREFIXES;
    }
    if Erroneous(r) {
      var prefix :| prefix in ERROR_PREFIXES && prefix <= r.text;
      var i :| 0 <= i < |ERROR_PREFIXES| && ERROR_PREFIXES[i] == prefix;
      assert StartsWith(r.text, ERROR_PREFIXES[i]);
    }
  }

  /** The status of one answer, as it is and as a recovery returns it. */
  lemma StatusMeans(recovery: string, r: AdapterResult)
    ensures StatusFor(r) == if TimedOut(r) then "timed_out" else if Erroneous(r) then "failed" else "done"
    ensures Recovered(recovery, Answer(r)).Answer?
    ensures StatusFor(Recovered(recovery, Answer(r)).result) == if Erroneous(r) then "failed" else StatusFor(r)
  {
    hide IsError, Erroneous;
    ErroneousMeans(r);
    FalsyValues(r.timeout);
    RefusalFails(recovery);
  }

  lemma RefusalFails(recovery: string)
    ensures StatusFor(AdapterResult(DUPLICATE_REFUSED, recovery, true, Null)) == "failed"
  {
    assert DUPLICATE_REFUSED[0] == 'A' && "Claude timeout:"[0] == 'C';
    assert StartsWith(DUPLICATE_REFUSED, ERROR_PREFIXES[0]);
  }

  /** Reporting discipline: one report if there is a result and its session could
      be saved, none otherwise, and it is the last thing that happens. */
  lemma OneReport(actions: seq<Action>, rows: map<Key, Row>, agentId: string, j: Job, managed: bool, env: Loop,
                  ended: Ended, under: Authority)
    requires under.token.Some? && Completes(actions, rows, agentId, j, managed, env, ended, under)
    ensures IsReported(actions) <==> ended.Finished? && Reaches(ended.result, env)
    ensures forall a :: 0 <= a < |actions| && actions[a].Reported? ==>
              && ended.Finished? && a == |actions| - 1
              && actions[a] == ReportUnder(under, StatusFor(ended.result))
    ensures forall a :: 0 <= a < |actions| && actions[a].Provider() ==>
              actions[a].workDir == j.workDir && actions[a].prompt == j.prompt
  {
    hide IsRun, StatusFor;
    var run :| Splits(actions, run, rows, agentId, j, managed, env, ended, under);
    if !env.cancelledAtOnce {
      var reply :| IsRun(run, rows, agentId, j, reply) && ended == EndOf(reply, managed, env);
      NoDuplicateFresh(run, rows, agentId, j, reply);
    }
    if ended.Finished? && Reaches(ended.result, env) {
      assert actions[|actions| - 1].Reported?;
    }
  }

  /** Once its lease is lost, a job is reported on exactly if the provider was
      still running and raised when it was cancelled; the report then says
      `failed`, under the authority that was lost. */
  lemma LostLeaseReport(actions: seq<Action>, rows: map<Key, Row>, agentId: string, j: Job, env: Loop, ended: Ended,
                        under: Authority)
    requires under.token.Some? && Completes(actions, rows, agentId, j, true, env, ended, under)
    requires env.renewalDone && !env.cancelledAtOnce && !env.cancelledLater
    ensures IsReported(actions) <==> !env.providerDone && SomethingRaised(actions)
    ensures IsReported(actions) <==> actions != [] && actions[|actions| - 1] == ReportUnder(under, "failed")
    ensures !IsReported(actions) <==> actions != [] && actions[|actions| - 1].LeaseLost?
  {
    hide IsRun, StatusFor;
    OneReport(actions, rows, agentId, j, true, env, ended, under);
    var run :| Splits(actions, run, rows, agentId, j, true, env, ended, under);
    var reply :| IsRun(run, rows, agentId, j, reply) && ended == EndOf(reply, true, env);
    RaisesAtTheEnd(run, rows, agentId, j, reply);
    if reply.Raised? {
      ErrorsFail(reply.message);
      assert Raising(actions[|run| - 1]);
    }
  }

  lemma ErrorsFail(message: string)
    ensures StatusFor(ErrorResult(message)) == "failed"
  {
    assert ErrorResult(message).text[0] == 'A' && "Claude timeout:"[0] == 'C';
    assert StartsWith(ErrorResult(message).text, ERROR_PREFIXES[0]);
  }

  /** An adapter whose cleanup raises on cancellation, because the processes of
      the provider survive: the job is reported as failed after its lease is
      lost. */
  lemma FailedCleanupIsReported(rows: map<Key, Row>, agentId: string, j: Job, under: Authority)
    requires under.token.Some? && j.recovery == "" && Existing(rows, agentId, j).None?
    ensures var message := "process group 7 survived SIGKILL";
            Completes([Called(j.prompt, j.workDir, rows, Raised(message)), ReportUnder(under, "failed")], rows, agentId,
                      j, true, Loop(false, false, true, false, false), Finished(ErrorResult(message)), under)
  {
    hide FirstActive, StatusFor;
    var message, env := "process group 7 survived SIGKILL", Loop(false, false, true, false, false);
    var ended := Finished(ErrorResult(message));
    var run := [Called(j.prompt, j.workDir, rows, Raised(message))];
    ErrorsFail(message);
    assert IsRun(run, rows, agentId, j, Raised(message));
    assert RaceRun(run, rows, agentId, j, true, env, ended);
    assert [run[0], ReportUnder(under, "failed")] == run + [ReportUnder(under, "failed")];
    assert Splits(run + [ReportUnder(under, "failed")], run, rows, agentId, j, true, env, ended, under);
  }

  predicate TextMeans(loads: string -> Option<Json>, text: Json, p: Dict) {
    || (text in {Null, Str("")} && p == map[])
    || text == Obj(p)
    || (text.Str? && text != Str("") && loads(text.s) == Some(Obj(p)))
  }

  /** Where the payload of a job comes from. */
  lemma PayloadMeans(loads: string -> Option<Json>, job: Dict, p: Dict)
    ensures ExtractPayload(loads, job) == Success(p) <==>
            || Get(job, "payload") == Obj(p)
            || (Get(job, "payload") == Null && TextMeans(loads, Get(job, "payload_json"), p))
  {
  }

  /** Where a recovery id may come from, in this order. */
  function RecoverySources(job: Dict): seq<Json> {
    var result := Fields(Get(job, "result"));
    [Get(job, "terminal_session_id"), Get(Fields(Get(job, "progress")), "session_id"),
     Get(Fields(Get(result, "timeout")), "session_id"), Get(result, "session_id")]
  }

  predicate NamesSession(v: Json) {
    v.Str? && Strip(v.s) != ""
  }

  /** It is the first of them that names a session, stripped. */
  lemma RecoveryIsFirst(job: Dict)
    ensures var id, sources := RecoverySessionId(job), RecoverySources(job);
            if id == "" then forall i :: 0 <= i < 4 ==> !NamesSession(sources[i])
            else exists i :: 0 <= i < 4 && NamesSession(sources[i]) && Strip(sources[i].s) == id
                             && forall k :: 0 <= k < i ==> !NamesSession(sources[k])
  {
    hide Strip, Get, Fields;
    var sources := RecoverySources(job);
    assert NamesSession(sources[0]) || NamesSession(sources[1]) || NamesSession(sources[2]) || NamesSession(sources[3])
           || RecoverySessionId(job) == "";
  }

  /** What an admitted claim runs: the payload's prompt, in the scope and
      directory of its context. */
  lemma AdmittedJob(me: Local, claim: Dict)
    requires Admitted(me, claim)
    ensures var j, payload, context := JobOf(me, claim), PayloadOf(me, claim).value,
                                       Get(claim, "execution_context").fields;
            && j.prompt == (if "prompt" in payload then payload["prompt"] else Str(""))
            && Get(context, "session_scope_id") == Str(j.scope) && Get(context, "worktree_path") == Str(j.workDir)
            && Get(context, "legacy_scope_ids") == C.Listed(j.legacyScopes)
            && j.recovery == RecoverySessionId(Get(claim, "job").fields)
  {
    hide LeaseOf, PayloadOf, B.BindsTo, Agree, RecoverySessionId, C.SnapshotOf, C.IsContext, C.ContextId, C.Listed,
      L.ValidateLease;
    C.ContextReads(me.sha, Get(claim, "execution_context"));
  }

  /** The identity an admitted claim without a lease reports under: the claimed
      token, and the id of the context's job - but only if the job has an id. */
  lemma LegacyGate(me: Local, claim: Dict)
    requires Admitted(me, claim) && "execution_lease" !in claim
    ensures var under, job := AuthorityOf(me, claim), Get(claim, "job").fields;
            && under.leaseId.None? && under.token == Some(IntValue(Get(claim, "attempt_token")))
            && under.jobId == (if Get(job, "id") != Null then Get(Get(claim, "execution_context").fields, "job_id")
                               else if "id" in job then Null else Str("?"))
  {
    hide PayloadOf, C.SnapshotOf, C.ContextId, C.IsContext;
    C.ContextReads(me.sha, Get(claim, "execution_context"));
    JobIsThere(claim);
  }

  lemma JobIsThere(claim: Dict)
    requires Get(claim, "job").Obj? && Get(claim, "job").fields != map[]
    ensures RawJob(claim) == Get(claim, "job")
  {
  }

  /** The provider gate of a managed claim: everything the three envelopes say
      agrees, and the provider's directory is the lease's canonical path. */
  lemma ManagedGate(me: Local, claim: Dict)
    requires Admitted(me, claim) && "execution_lease" in claim
    ensures LeaseOf(me, claim).Some? && LeaseOf(me, claim).value.Valid?
    ensures var l, under := LeaseOf(me, claim).value.lease, AuthorityOf(me, claim);
            && l.id.agentId == me.id && l.id.runnerProfileId == me.id
            && L.Sound(me.sha, me.lib, l) && JobOf(me, claim).workDir == l.id.normalizedPath
            && l.id.attemptToken == IntValue(Get(claim, "attempt_token")) >= 1
            && IntValue(Get(claim, "attempt_token")) == IntValue(Get(Get(claim, "job").fields, "attempt_count"))
            && B.BindsTo(me.sha, Get(PayloadOf(me, claim).value, "executor_binding"), me.id, me.adapter)
            && C.IsContext(me.sha, Get(claim, "execution_context"))
            && Get(Get(claim, "execution_context").fields, "job_id") == Str(l.id.jobId)
            && Get(Get(claim, "execution_context").fields, "host_id") == Str(l.id.hostId)
            && under == Authority(Str(l.id.jobId), Some(l.id.attemptToken), Some(l.id.leaseId))
  {
    hide L.ValidateLease, L.Sound, B.BindsTo, C.IsContext, Truthy, ExtractPayload, RecoverySessionId;
    C.ClaimOkMeans(me.sha, claim, me.id);
    L.ValidForAgent(me.sha, me.lib, claim["execution_lease"], me.id);
  }

  /** Any two managed jobs that reach a provider hold one resource key exactly
      when they run on one host in one directory. */
  lemma SameResourceSameDirectory(me: Local, a: Dict, you: Local, b: Dict)
    requires Injective(me.sha) && me.sha == you.sha && me.lib == you.lib
    requires Admitted(me, a) && "execution_lease" in a && Admitted(you, b) && "execution_lease" in b
    ensures LeaseOf(me, a).value.Valid? && LeaseOf(you, b).value.Valid?
    ensures LeaseOf(me, a).value.lease.id.resourceKey == LeaseOf(you, b).value.lease.id.resourceKey
       <==> LeaseOf(me, a).value.lease.id.hostId == LeaseOf(you, b).value.lease.id.hostId
            && JobOf(me, a).workDir == JobOf(you, b).workDir
  {
    hide *;
    ManagedGate(me, a);
    ManagedGate(you, b);
    L.ResourceIdentity(me.sha, me.lib, LeaseOf(me, a).value.lease, LeaseOf(you, b).value.lease);
  }

  /** A claim whose lease field is invalid, or that has a binding but no lease,
      is never reported on and never reaches a provider. */
  lemma UntrustedClaims(me: Local, claim: Dict)
    requires if "execution_lease" in claim then LeaseOf(me, claim).value.LeaseError?
             else PayloadOf(me, claim).Success? && "executor_binding" in PayloadOf(me, claim).value
    ensures Dropped(me, claim) && !Admitted(me, claim)
  {
    hide L.ValidateLease, B.BindsTo, C.ClaimOk, Agree, ExtractPayload, Truthy;
  }

  // ----- claims that are admitted -----

  /** A claim response as the server writes it. */
  function ClaimOf(me: Local, s: C.Snapshot, token: int, payload: Dict): Dict {
    map["claimed" := Bool(true),
        "attempt_token" := Num(token),
        "execution_context" := Obj(C.ToDict(C.Context(C.ContextId(me.sha, s), s))),
        "job" := Obj(map["id" := Str(s.jobId), "task_id" := C.Nullable(s.taskId), "attempt_count" := Num(token),
                         "payload" := Obj(payload)])]
  }

  function LegacyClaim(me: Local, s: C.Snapshot, token: int, prompt: string): Dict {
    ClaimOf(me, s, token, map["prompt" := Str(prompt)])
  }

  function ManagedClaim(me: Local, s: C.Snapshot, l: L.Lease, b: B.Binding, prompt: string): Dict {
    ClaimOf(me, s, l.id.attemptToken, map["prompt" := Str(prompt), "executor_binding" := Obj(B.BindingDict(b))])
      ["execution_lease" := Obj(L.LeaseToDict(l))]
  }

  /** A well-formed context for this agent. */
  ghost predicate ContextFor(me: Local, s: C.Snapshot) {
    C.SnapshotOk(s) && P.IsDigest(C.ContextId(me.sha, s)) && s.assignedAgent == me.id
  }

  /** A well-formed lease and binding that agree with it. */
  ghost predicate LeaseFor(me: Local, s: C.Snapshot, l: L.Lease) {
    && L.LeaseOk(me.lib, l) && L.Sound(me.sha, me.lib, l)
    && l.id.agentId == l.id.runnerProfileId == me.id
    && l.id.jobId == s.jobId && l.id.hostId == s.hostId && l.id.normalizedPath == s.worktreePath
  }

  ghost predicate BindingFor(me: Local, b: B.Binding) {
    && B.BindingOk(b) && P.IsDigest(b.bindingId) && b.bindingId == "sha256:" + me.sha(Print(Obj(B.Unsigned(b))))
    && b.executorInstanceId == b.runnerProfileId == me.id && b.adapter == me.adapter
  }

  lemma ClaimSays(me: Local, s: C.Snapshot, token: int, payload: Dict)
    ensures var claim := ClaimOf(me, s, token, payload);
            && Get(claim, "claimed") == Bool(true) && Get(claim, "attempt_token") == Num(token)
            && Get(claim, "execution_context") == Obj(C.ToDict(C.Context(C.ContextId(me.sha, s), s)))
            && Get(claim, "job").Obj?
    ensures var job := Get(ClaimOf(me, s, token, payload), "job").fields;
            && Get(job, "id") == Str(s.jobId) && Get(job, "task_id") == C.Nullable(s.taskId)
            && Get(job, "attempt_count") == Num(token) && Get(job, "payload") == Obj(payload)
            && Get(job, "workspace_id") == Null && Get(job, "assigned_agent") == Null
  {
    hide C.ContextId, C.ToDict, C.Nullable;
  }

  lemma ClaimIsOk(me: Local, s: C.Snapshot, token: int, payload: Dict)
    requires ContextFor(me, s) && token >= 1
    ensures var claim := ClaimOf(me, s, token, payload);
            C.ClaimOk(me.sha, claim, me.id) && PayloadOf(me, claim) == Success(payload)
  {
    hide C.IsContext, C.ContextId, C.SnapshotOk, C.ToDict, C.SnapshotOf, ClaimOf, Get;
    C.ContextRoundTrip(me.sha, s);
    ClaimSays(me, s, token, payload);
    C.ToDictSays(C.Context(C.ContextId(me.sha, s), s));
    HasPayload(me, ClaimOf(me, s, token, payload), payload);
  }

  lemma HasPayload(me: Local, claim: Dict, payload: Dict)
    requires Get(claim, "job").Obj? && Get(Get(claim, "job").fields, "payload") == Obj(payload)
    ensures PayloadOf(me, claim) == Success(payload)
  {
    assert Get(claim, "job").fields != map[];
  }

  /** Every legacy claim with a well-formed context for this agent is admitted. */
  lemma LegacyClaimAdmitted(me: Local, s: C.Snapshot, token: int, prompt: string)
    requires ContextFor(me, s) && token >= 1
    ensures Admitted(me, LegacyClaim(me, s, token, prompt))
  {
    hide C.ClaimOk, C.ContextId, PayloadOf, ContextFor, C.ToDict;
    ClaimIsOk(me, s, token, map["prompt" := Str(prompt)]);
  }

  /** And every managed claim whose lease and binding agree with it. */
  lemma ManagedClaimAdmitted(me: Local, s: C.Snapshot, l: L.Lease, b: B.Binding, prompt: string)
    requires ContextFor(me, s) && LeaseFor(me, s, l) && BindingFor(me, b)
    ensures Admitted(me, ManagedClaim(me, s, l, b, prompt))
  {
    hide C.ClaimOk, C.ContextId, PayloadOf, ContextFor, L.ValidateLease, L.LeaseToDict, L.LeaseOk, L.Sound, L.Carries,
      B.BindingDict, B.IsBinding, B.BindingOk, P.IsDigest, B.Unsigned, Print, C.ToDict;
    var payload := map["prompt" := Str(prompt), "executor_binding" := Obj(B.BindingDict(b))];
    var claim := ManagedClaim(me, s, l, b, prompt);
    LeaseIsPositive(me.lib, l);
    ClaimIsOk(me, s, l.id.attemptToken, payload);
    SameButLease(me, ClaimOf(me, s, l.id.attemptToken, payload), Obj(L.LeaseToDict(l)));
    L.LeaseToDictCarries(l);
    L.ValidMeans(me.sha, me.lib, Obj(L.LeaseToDict(l)), me.id, None, None, None, None, l);
    B.BindingRoundTrip(me.sha, b);
    B.BindingDictLooksUp(b);
    C.ToDictLooksUp(C.Context(C.ContextId(me.sha, s), s));
  }

  lemma LeaseIsPositive(lib: L.LeaseLibrary, l: L.Lease)
    requires L.LeaseOk(lib, l)
    ensures l.id.attemptToken >= 1
  {
  }

  /** A lease changes neither the claim nor its payload. */
  lemma SameButLease(me: Local, claim: Dict, lease: Json)
    ensures var leased := claim["execution_lease" := lease];
            && PayloadOf(me, leased) == PayloadOf(me, claim)
            && (C.ClaimOk(me.sha, leased, me.id) <==> C.ClaimOk(me.sha, claim, me.id))
            && Get(leased, "execution_context") == Get(claim, "execution_context")
            && Get(leased, "attempt_token") == Get(claim, "attempt_token")
  {
    hide C.IsContext, ExtractPayload, Truthy;
    var leased := claim["execution_lease" := lease];
    assert forall k :: k != "execution_lease" ==> Get(leased, k) == Get(claim, k);
  }

  /** A digest prints 64 hexadecimal digits, as SHA-256 does. */
  ghost predicate PrintsHex(sha: string -> string) {
    forall text {:trigger sha(text)} :: P.IsSha(sha(text))
  }

  function ExampleContext(me: Local): C.Snapshot {
    C.Snapshot("job", "w", None, me.id, "a", "/a", "/a", "/a", None, "s", [], C.LogHandle("job", None))
  }

  function ExampleLease(me: Local): L.Lease {
    var l := L.ExampleLease("a", me.id);
    l.(id := l.id.(resourceKey := L.ResourceKey(me.sha, "a", "/a")))
  }

  function ExampleBinding(me: Local): B.Binding {
    var b := B.Binding("", "a", 0, me.sha(""), "a", me.id, me.id, "a", me.adapter, []);
    b.(bindingId := "sha256:" + me.sha(Print(Obj(B.Unsigned(b)))))
  }

  lemma NotBlank(s: string)
    requires s != "" && !IsSpace(s[0])
    ensures Strip(s) != ""
  {
    assert LStrip(s) == s;
  }

  lemma DigestText(sha: string -> string, text: string)
    requires PrintsHex(sha)
    ensures P.IsDigest("sha256:" + sha(text)) && Strip("sha256:" + sha(text)) != ""
  {
    hide Strip, P.IsSha;
    assert ("sha256:" + sha(text))[7..] == sha(text);
    assert ("sha256:" + sha(text))[0] == 's';
    NotBlank("sha256:" + sha(text));
  }

  lemma ExampleContextOk(me: Local)
    requires PrintsHex(me.sha) && me.id != "" && !IsSpace(me.id[0])
    ensures ContextFor(me, ExampleContext(me))
  {
    hide Strip, PrintsHex, Print, C.SnapshotDict, P.IsDigest, C.IsAuthorityPath;
    NotBlank("job");
    NotBlank("w");
    NotBlank("a");
    NotBlank(me.id);
    SlashAIsAuthority();
    DigestText(me.sha, Print(Obj(C.SnapshotDict(ExampleContext(me)))));
  }

  lemma SlashAIsAuthority()
    ensures C.IsAuthorityPath("/a")
  {
    assert ReplaceChar("/a", '\\', '/') == "/a";
    SplitJoin(["", "a"], '/');
    assert Join(["", "a"], '/') == "/a";
  }

  lemma ExampleLeaseFits(me: Local)
    requires PrintsHex(me.sha) && 1 <= |me.id| <= 64 && forall c :: c in me.id ==> c == 'a'
    requires L.ReadsExampleTimes(me.lib) && N.LawfulNfc(me.lib.paths) && me.lib.paths.nfc("/a") == "/a"
    ensures LeaseFor(me, ExampleContext(me), ExampleLease(me))
  {
    hide Strip, PrintsHex, Print, P.IsDigest, P.IsUuid, L.IsLeaseLabel, L.IsAbsolute, L.TermOk, L.CapacityOk,
      N.Normalize, N.LawfulNfc, L.ReadsExampleTimes, L.Repeat, L.ResourceDict;
    L.ExampleLeaseOk(me.lib, "a", me.id);
    L.SlashAFixed(me.lib.paths);
    StripFixed("a");
    DigestText(me.sha, Print(Obj(L.ResourceDict("a", "/a"))));
  }

  lemma ExampleBindingFits(me: Local)
    requires PrintsHex(me.sha) && 1 <= |me.id| <= 64 && 1 <= |me.adapter| <= 64
    requires forall c :: c in me.id || c in me.adapter ==> c == 'a'
    ensures BindingFor(me, ExampleBinding(me))
  {
    hide Strip, Print, P.IsDigest, P.IsSha;
    var b := ExampleBinding(me);
    assert b.(bindingId := "") == B.Binding("", "a", 0, me.sha(""), "a", me.id, me.id, "a", me.adapter, []);
    assert B.Unsigned(b) == B.Unsigned(b.(bindingId := ""));
    DigestText(me.sha, Print(Obj(B.Unsigned(b))));
    StripFixed("a");
    assert me.id[0] in me.id && me.id[|me.id| - 1] in me.id;
    assert me.adapter[0] in me.adapter && me.adapter[|me.adapter| - 1] in me.adapter;
    StripFixed(me.id);
    StripFixed(me.adapter);
  }

  /** Such claims exist, of both kinds: what is said of admitted claims is said
      of something. */
  lemma ExampleClaimsAdmitted(me: Local)
    requires PrintsHex(me.sha) && 1 <= |me.id| <= 64 && 1 <= |me.adapter| <= 64
    requires forall c :: c in me.id || c in me.adapter ==> c == 'a'
    requires L.ReadsExampleTimes(me.lib) && N.LawfulNfc(me.lib.paths) && me.lib.paths.nfc("/a") == "/a"
    ensures Admitted(me, LegacyClaim(me, ExampleContext(me), 1, "p"))
    ensures Admitted(me, ManagedClaim(me, ExampleContext(me), ExampleLease(me), ExampleBinding(me), "p"))
  {
    hide Admitted, PrintsHex, ContextFor, LeaseFor, BindingFor, N.LawfulNfc, L.ReadsExampleTimes;
    assert me.id[0] in me.id;
    ExampleContextOk(me);
    ExampleLeaseFits(me);
    ExampleBindingFits(me);
    LegacyClaimAdmitted(me, ExampleContext(me), 1, "p");
    ManagedClaimAdmitted(me, ExampleContext(me), ExampleLease(me), ExampleBinding(me), "p");
  }

  class AgentdWorker {
    const me: Local
    const id: string := me.id
    const store: SessionStore
    var trace: seq<Action>

    constructor (me: Local, store: SessionStore)
      ensures this.me == me && this.store == store && trace == []
    {
      this.me, this.store, trace := me, store, [];
    }

    /** The progress callback while the provider runs: any number of updates,
        each recording the session it names under the primary scope. */
    method Progress(scope: string, workDir: string)
      requires store.Valid()
      modifies store
      ensures store.Valid()
    {
      var updates: int := *;
      while updates > 0
        invariant store.Valid()
      {
        updates := updates - 1;
        var sessionId: string := *;
        var now: real := *;
        if sessionId != "" && scope != "" {
          store.Upsert(scope, id, me.adapter, sessionId, Some(workDir), now);
        }
      }
    }

    method Call(j: Job) returns (reply: Reply)
      requires store.Valid()
      modifies store, `trace
      ensures store.Valid() && trace == old(trace) + [Called(j.prompt, j.workDir, old(store.rows), reply)]
    {
      var before := store.rows;
      Progress(j.scope, j.workDir);
      reply := *;
      trace := trace + [Called(j.prompt, j.workDir, before, reply)];
    }

    method Resume(sessionId: string, j: Job) returns (reply: Reply)
      requires store.Valid()
      modifies store, `trace
      ensures store.Valid() && trace == old(trace) + [Resumed(sessionId, j.prompt, j.workDir, old(store.rows), reply)]
    {
      var before := store.rows;
      Progress(j.scope, j.workDir);
      reply := *;
      trace := trace + [Resumed(sessionId, j.prompt, j.workDir, before, reply)];
    }

    method MarkStale(scope: string)
      requires store.Valid()
      modifies store, `trace
      ensures store.Valid() && trace == old(trace) + [MarkedStale(scope)]
      ensures !IsActive(store.rows, (scope, id))
    {
      var now: real := *;
      store.MarkStale(scope, id, now);
      trace := trace + [MarkedStale(scope)];
    }

    /** Whether the next call of the sessions database raises instead of having
        its effect, and with which message. */
    method StoreError() returns (error: Option<string>)
      modifies `trace
      ensures trace == old(trace) + if error.Some? then [StoreFailed] else []
    {
      error := *;
      if error.Some? {
        trace := trace + [StoreFailed];
      }
    }

    /** `_resume_recoverable_session` */
    method ResumeRecoverable(sessionId: string, j: Job) returns (reply: Reply)
      requires store.Valid()
      modifies store, `trace
      ensures store.Valid() && |trace| == |old(trace)| + 1 && old(trace) <= trace
      ensures IsResume(trace[|old(trace)|], sessionId, j) && reply == Recovered(sessionId, trace[|old(trace)|].reply)
    {
      hide IsError;
      reply := Resume(sessionId, j);
      reply := Recovered(sessionId, reply);
    }

    /** `_call_or_resume` */
    method CallOrResume(j: Job) returns (reply: Reply)
      requires store.Valid()
      modifies store, `trace
      ensures store.Valid() && old(trace) <= trace
      ensures IsRun(trace[|old(trace)|..], old(store.rows), id, j, reply)
    {
      hide IsError, Recovered, Conflicts, FirstActive, ResumesOrFallsBack;
      ghost var rows, start := store.rows, |trace|;
      if j.scope == "" {
        if j.recovery != "" {
          reply := ResumeRecoverable(j.recovery, j);
          return;
        }
        reply := Call(j);
        return;
      }
      var error := StoreError();
      if error.Some? {
        return Raised(error.value);
      }
      var existing := store.GetFirstActive([j.scope] + j.legacyScopes, id);
      ActiveRow(rows, [j.scope] + j.legacyScopes);
      if existing.Some? && Conflicts(existing.value.1, j.workDir) {
        error := StoreError();
        if error.Some? {
          return Raised(error.value);
        }
        MarkStale(existing.value.0);
        existing := None;
      }
      if j.recovery != "" {
        reply := ResumeRecoverable(j.recovery, j);
        return;
      }
      if existing.Some? {
        reply := ResumeOrFallBack(existing.value.0, existing.value.1.sessionId, j);
        return;
      }
      reply := Call(j);
    }

    /** The resume of an existing session, with a fresh call after an error. */
    method ResumeOrFallBack(scope: string, sessionId: string, j: Job) returns (reply: Reply)
      requires store.Valid()
      modifies store, `trace
      ensures store.Valid() && old(trace) < trace && trace[|old(trace)|].Resumed?
      ensures ResumesOrFallsBack(trace[|old(trace)|..], old(store.rows), id, scope, sessionId, j, reply)
    {
      hide IsError;
      reply := Resume(sessionId, j);
      if reply.Answer? && IsError(reply.result.text) {
        var error := StoreError();
        if error.Some? {
          return Raised(error.value);
        }
        MarkStale(scope);
        reply := Call(j);
      }
    }

    lemma ActiveRow(rows: map<Key, Row>, scopes: seq<string>)
      ensures var found := FirstActive(rows, scopes, id);
              found.Some? ==> IsActive(rows, (found.value.0, id)) && rows[(found.value.0, id)] == found.value.1
    {
      hide FirstActive;
      FirstActiveMeans(rows, scopes, id);
    }

    /** A report to Coordinate; it may raise, after or instead of its effect. */
    method Report(under: Authority, status: string)
      requires under.token.Some?
      modifies `trace
      ensures trace == old(trace) + [ReportUnder(under, status)]
    {
      trace := trace + [ReportUnder(under, status)];
    }

    /** The provider task raced against the renewal supervisor of a managed
        claim. The supervisor wins if it has finished, unless the provider, still
        running then, raises when it is cancelled. */
    method Race(j: Job, managed: bool, env: Loop) returns (ended: Ended)
      requires store.Valid()
      modifies store, `trace
      ensures store.Valid() && old(trace) <= trace
      ensures RaceRun(trace[|old(trace)|..], old(store.rows), id, j, managed, env, ended)
    {
      hide IsRun;
      if env.cancelledAtOnce {
        return Interrupted;
      }
      var reply := CallOrResume(j);
      assert IsRun(trace[|old(trace)|..], old(store.rows), id, j, reply);
      if env.cancelledLater {
        return Interrupted;
      }
      if managed && env.renewalDone {
        if !env.providerDone && reply.Raised? {
          return Finished(ErrorResult(reply.message));
        }
        return Lost;
      }
      return match reply
        case Cancelled => Interrupted
        case Answer(result) => Finished(result)
        case Raised(message) => Finished(ErrorResult(message));
    }

    /** What happens once there is a result: its session is saved, and the result
        is reported unless saving raises. */
    method Conclude(under: Authority, j: Job, result: AdapterResult, env: Loop)
      requires store.Valid() && under.token.Some? && j.scope != ""
      modifies store, `trace
      ensures store.Valid()
      ensures trace ==
        old(trace) + [if Reaches(result, env) then ReportUnder(under, StatusFor(result)) else StoreFailed]
      ensures result.sessionId != "" && !env.saveRaises ==>
        && IsActive(store.rows, (j.scope, id)) && store.rows[(j.scope, id)].sessionId == result.sessionId
        && store.rows[(j.scope, id)].workDir == Some(j.workDir) && store.rows[(j.scope, id)].adapter == me.adapter
    {
      hide StatusFor;
      if result.sessionId != "" && j.scope != "" {
        if env.saveRaises {
          trace := trace + [StoreFailed];
          return;
        }
        var now: real := *;
        store.Upsert(j.scope, id, me.adapter, result.sessionId, Some(j.workDir), now);
      }
      Report(under, StatusFor(result));
    }

    /** `_process_job` */
    method ProcessJob(claim: Dict, env: Loop) returns (end: End)
      requires store.Valid()
      modifies store, `trace
      ensures store.Valid() && old(trace) <= trace
      ensures end.DroppedIt? <==> Dropped(me, claim)
      ensures end.Ran? <==> Admitted(me, claim)
      ensures end.RaisedEarly? <==> Raises(me, claim)
      ensures var actions := trace[|old(trace)|..];
              match end
              case DroppedIt => actions == []
              case RaisedEarly => actions == []
              case Refused =>
                AuthorityOf(me, claim).token.Some? && actions == [ReportUnder(AuthorityOf(me, claim), "failed")]
              case Ran(ended) =>
                && AuthorityOf(me, claim).token.Some?
                && Completes(actions, old(store.rows), id, JobOf(me, claim), "execution_lease" in claim, env, ended,
                             AuthorityOf(me, claim))
                && (ended.Finished? && ended.result.sessionId != "" && !env.saveRaises ==>
                      && IsActive(store.rows, (JobOf(me, claim).scope, id))
                      && store.rows[(JobOf(me, claim).scope, id)].sessionId == ended.result.sessionId
                      && store.rows[(JobOf(me, claim).scope, id)].workDir == Some(JobOf(me, claim).workDir)
                      && store.rows[(JobOf(me, claim).scope, id)].adapter == me.adapter)
    {
      hide Admitted, Dropped, Raises, JobOf, AuthorityOf, StatusFor, RaceRun;
      ghost var start := |trace|;
      var d := Decide(me, claim);
      match d
      case Drop =>
        return DroppedIt;
      case Escape =>
        return RaisedEarly;
      case Refuse(under) =>
        Report(under, "failed");
        return Refused;
      case Admit(under, j) =>
        ScopeIsSet(me, claim);
        var ended := Race(j, "execution_lease" in claim, env);
        ghost var run := trace[start..];
        if ended == Lost {
          trace := trace + [LeaseLost];
          assert trace[start..] == run + [LeaseLost];
        }
        if ended.Finished? {
          Conclude(under, j, ended.result, env);
          assert trace[start..] == run + trace[|run| + start..];
        }
        assert Splits(trace[start..], run, old(store.rows), id, j, "execution_lease" in claim, env, ended, under);
        return Ran(ended);
    }
  }
}
