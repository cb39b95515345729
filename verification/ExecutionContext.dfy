/** multinexus/agentd/execution_context.py: the execution context of a claim,
    and the claim response as a whole. */
module ExecutionContext {
  import opened Prelude
  import opened PyText
  import opened CanonicalJson
  import opened Patterns

  const MAX_SCOPE_LEN: nat := 256
  const MAX_LEGACY_SCOPES: nat := 10

  const CONTEXT_KEYS: set<string> := {
    "assigned_agent", "branch", "contract_version", "context_id", "harness_root", "host_id", "job_id",
    "legacy_scope_ids", "log_handle", "session_scope_id", "task_id", "worktree_path", "workspace_id", "workspace_path"}

  datatype LogHandle = LogHandle(jobId: string, logsPath: Option<string>)

  /** The authority fields a context is digested over. */
  datatype Snapshot = Snapshot(
    jobId: string,
    workspaceId: string,
    taskId: Option<string>,
    assignedAgent: string,
    hostId: string,
    workspacePath: string,
    worktreePath: string,
    harnessRoot: string,
    branch: Option<string>,
    sessionScopeId: string,
    legacyScopeIds: seq<string>,
    logHandle: LogHandle)

  datatype Context = Context(contextId: string, snapshot: Snapshot)

  // ----- field validators -----

  predicate IsText(v: Json) {
    v.Str? && Strip(v.s) != ""
  }

  predicate IsTextOrNull(v: Json) {
    v.Null? || IsText(v)
  }

  predicate IsLetter(c: char) {
    'A' <= c <= 'Z' || 'a' <= c <= 'z'
  }

  predicate IsWindowsAbsolute(s: string) {
    || (|s| >= 3 && IsLetter(s[0]) && s[1] == ':' && s[2] in {'\\', '/'})
    || (|s| >= 2 && s[0] == '\\' && s[1] == '\\')
  }

  predicate IsAuthorityPath(s: string) {
    && s != "" && (forall c :: c in s ==> c as int != 0 && c != '\n' && c != '\r')
    && (s[0] == '/' || IsWindowsAbsolute(s))
    && forall segment :: segment in Split(ReplaceChar(s, '\\', '/'), '/') ==> segment != "." && segment != ".."
  }

  /** No path goes through `.` or `..`, whichever slash stands on either side. */
  lemma TraversalRefused(before: string, segment: string, after: string)
    requires segment in {".", ".."}
    requires before == "" || before[|before| - 1] in {'/', '\\'}
    requires after == "" || after[0] in {'/', '\\'}
    ensures !IsAuthorityPath(before + segment + after)
  {
    hide Split, IsWindowsAbsolute;
    var a, b := Slashed(before), Slashed(after);
    assert Slashed(before + segment + after) == a + segment + b;
    StandsAlone(a, segment, b);
  }

  /** Nor does any hold a line break or the null character. */
  lemma BreaksRefused(s: string)
    requires '\n' in s || '\r' in s || (0 as char) in s
    ensures !IsAuthorityPath(s)
  {
  }

  lemma StandsAlone(a: string, segment: string, b: string)
    requires '/' !in segment && (a == "" || a[|a| - 1] == '/') && (b == "" || b[0] == '/')
    ensures segment in Split(a + segment + b, '/')
  {
    hide Split;
    if b == "" {
      assert segment + b == segment;
      SplitFree(segment, '/');
    } else {
      assert segment + b == segment + ['/'] + b[1..];
      SplitAppend(segment, b[1..], '/');
    }
    assert Split(segment + b, '/')[0] == segment;
    if a == "" {
      assert a + segment + b == segment + b;
    } else {
      assert a + segment + b == a[..|a| - 1] + ['/'] + (segment + b);
      SplitConcat(a[..|a| - 1], segment + b, '/');
    }
  }

  function Slashed(s: string): (r: string)
    ensures r == ReplaceChar(s, '\\', '/')
  {
    ReplaceChar(s, '\\', '/')
  }

  /** An absolute path starts with a slash, a drive and either slash, or two
      backslashes; any such start will do. */
  lemma AbsoluteStarts(start: string)
    requires start in {"/", "C:/", "z:\\", "\\\\"}
    ensures IsAuthorityPath(start + "a") && !IsAuthorityPath("a" + start)
  {
    var text := Slashed(start + "a");
    if start == "/" {
      assert text == "/a";
      SplitJoin(["", "a"], '/');
    } else if start == "C:/" {
      assert text == "C:/a" && ["C:", "a"][1..] == ["a"] && Join(["C:", "a"], '/') == text;
      SplitJoin(["C:", "a"], '/');
    } else if start == "z:\\" {
      assert text == "z:/a" && ["z:", "a"][1..] == ["a"] && Join(["z:", "a"], '/') == text;
      SplitJoin(["z:", "a"], '/');
    } else {
      assert ["", "", "a"][1..] == ["", "a"] && ["", "a"][1..] == ["a"];
      assert text == "//a" && Join(["", "", "a"], '/') == text;
      SplitJoin(["", "", "a"], '/');
    }
  }

  predicate IsPath(v: Json) {
    v.Str? && IsAuthorityPath(v.s)
  }

  predicate IsScope(v: Json) {
    v.Str? && v.s != "" && |v.s| <= MAX_SCOPE_LEN && IsSafeScope(v.s)
  }

  predicate IsLogHandle(v: Json, jobId: Json) {
    && v.Obj? && v.fields.Keys == {"kind", "job_id", "logs_path"}
    && Get(v.fields, "kind") == Str("coordinate_job")
    && Get(v.fields, "job_id").Str? && Get(v.fields, "job_id").s != "" && Get(v.fields, "job_id") == jobId
    && (Get(v.fields, "logs_path").Null? || IsPath(Get(v.fields, "logs_path")))
  }

  /** At most ten scopes, all different from each other and from the primary. */
  ghost predicate IsLegacyScopes(v: Json, primary: Json) {
    && v.Arr? && |v.items| <= MAX_LEGACY_SCOPES
    && (forall i :: 0 <= i < |v.items| ==> IsScope(v.items[i]) && v.items[i] != primary)
    && forall i, j :: 0 <= i < j < |v.items| ==> v.items[i] != v.items[j]
  }

  /** The loop over `legacy_scope_ids`. */
  method ReadLegacyScopes(v: Json, primary: string) returns (r: Result<seq<string>>)
    ensures r.Success? <==> IsLegacyScopes(v, Str(primary))
    ensures r.Success? ==> Listed(r.value) == v
  {
    hide IsScope;
    if !v.Arr? || |v.items| > MAX_LEGACY_SCOPES {
      return Failure;
    }
    var seen: set<string> := {};
    var scopes: seq<string> := [];
    for i := 0 to |v.items|
      invariant |scopes| == i
      invariant forall j :: 0 <= j < i ==> IsScope(v.items[j]) && v.items[j] == Str(scopes[j]) && scopes[j] != primary
      invariant forall s :: s in seen <==> s in scopes
      invariant forall j, k :: 0 <= j < k < i ==> v.items[j] != v.items[k]
    {
      if !IsScope(v.items[i]) {
        return Failure;
      }
      ScopeIsText(v.items[i]);
      var scope := v.items[i].s;
      if scope in seen || scope == primary {
        return Failure;
      }
      seen := seen + {scope};
      scopes := scopes + [scope];
    }
    assert Listed(scopes).items == v.items;
    return Success(scopes);
  }

  lemma ScopeIsText(v: Json)
    requires IsScope(v)
    ensures v.Str?
  {
  }

  function Listed(scopes: seq<string>): Json {
    Arr(seq(|scopes|, i requires 0 <= i < |scopes| => Str(scopes[i])))
  }

  function Nullable(s: Option<string>): Json {
    if s.Some? then Str(s.value) else Null
  }

  // ----- the canonical snapshot and its digest -----

  function LogHandleDict(h: LogHandle): Json {
    Obj(map["kind" := Str("coordinate_job"), "job_id" := Str(h.jobId), "logs_path" := Nullable(h.logsPath)])
  }

  /** `_canonical_snapshot_dict`, which a context's `to_dict` extends by its id. */
  function SnapshotDict(c: Snapshot): Dict {
    map["assigned_agent" := Str(c.assignedAgent),
        "branch" := Nullable(c.branch),
        "contract_version" := Num(1),
        "harness_root" := Str(c.harnessRoot),
        "host_id" := Str(c.hostId),
        "job_id" := Str(c.jobId),
        "legacy_scope_ids" := Listed(c.legacyScopeIds),
        "log_handle" := LogHandleDict(c.logHandle),
        "session_scope_id" := Str(c.sessionScopeId),
        "task_id" := Nullable(c.taskId),
        "worktree_path" := Str(c.worktreePath),
        "workspace_id" := Str(c.workspaceId),
        "workspace_path" := Str(c.workspacePath)]
  }

  function ContextId(sha: string -> string, c: Snapshot): string {
    "sha256:" + sha(Print(Obj(SnapshotDict(c))))
  }

  lemma ListedInjective(a: seq<string>, b: seq<string>)
    requires Listed(a) == Listed(b)
    ensures a == b
  {
    assert forall i :: 0 <= i < |a| ==> Listed(a).items[i] == Str(a[i]);
    assert forall i :: 0 <= i < |b| ==> Listed(b).items[i] == Str(b[i]);
  }

  lemma LogHandleInjective(a: LogHandle, b: LogHandle)
    requires LogHandleDict(a) == LogHandleDict(b)
    ensures a == b
  {
    var x, y := LogHandleDict(a).fields, LogHandleDict(b).fields;
    assert x["job_id"] == y["job_id"] && x["logs_path"] == y["logs_path"];
  }

  lemma SnapshotDictInjective(a: Snapshot, b: Snapshot)
    requires SnapshotDict(a) == SnapshotDict(b)
    ensures a == b
  {
    hide Listed, LogHandleDict;
    var x, y := SnapshotDict(a), SnapshotDict(b);
    assert x["assigned_agent"] == y["assigned_agent"] && x["branch"] == y["branch"];
    assert x["harness_root"] == y["harness_root"] && x["host_id"] == y["host_id"] && x["job_id"] == y["job_id"];
    assert x["session_scope_id"] == y["session_scope_id"] && x["task_id"] == y["task_id"];
    assert x["worktree_path"] == y["worktree_path"] && x["workspace_id"] == y["workspace_id"];
    assert x["workspace_path"] == y["workspace_path"];
    assert x["legacy_scope_ids"] == y["legacy_scope_ids"] && x["log_handle"] == y["log_handle"];
    ListedInjective(a.legacyScopeIds, b.legacyScopeIds);
    LogHandleInjective(a.logHandle, b.logHandle);
  }

  /** The context id commits to every authority field. */
  lemma ContextIdCommits(sha: string -> string, a: Snapshot, b: Snapshot)
    requires Injective(sha)
    ensures ContextId(sha, a) == ContextId(sha, b) <==> a == b
  {
    hide Print, SnapshotDict;
    if ContextId(sha, a) == ContextId(sha, b) {
      assert ContextId(sha, a)[7..] == sha(Print(Obj(SnapshotDict(a))));
      assert ContextId(sha, b)[7..] == sha(Print(Obj(SnapshotDict(b))));
      DigestCommits(sha, Obj(SnapshotDict(a)), Obj(SnapshotDict(b)));
      SnapshotDictInjective(a, b);
    }
  }

  // ----- parsing -----

  function TextOf(v: Json): string {
    if v.Str? then v.s else ""
  }

  function TextOrNone(v: Json): Option<string> {
    if v.Str? then Some(v.s) else None
  }

  function TextsOf(v: Json): seq<string> {
    if v.Arr? then seq(|v.items|, i requires 0 <= i < |v.items| => TextOf(v.items[i])) else []
  }

  function LogHandleOf(v: Json): LogHandle {
    if v.Obj? then LogHandle(TextOf(Get(v.fields, "job_id")), TextOrNone(Get(v.fields, "logs_path")))
    else LogHandle("", None)
  }

  function SnapshotOf(d: Dict): Snapshot {
    Snapshot(TextOf(Get(d, "job_id")), TextOf(Get(d, "workspace_id")), TextOrNone(Get(d, "task_id")),
             TextOf(Get(d, "assigned_agent")), TextOf(Get(d, "host_id")), TextOf(Get(d, "workspace_path")),
             TextOf(Get(d, "worktree_path")), TextOf(Get(d, "harness_root")), TextOrNone(Get(d, "branch")),
             TextOf(Get(d, "session_scope_id")), TextsOf(Get(d, "legacy_scope_ids")), LogHandleOf(Get(d, "log_handle")))
  }

  /** The checks on single fields, the legacy scopes apart. */
  predicate FieldsOk(d: Dict) {
    && EqualsInt(Get(d, "contract_version"), 1)
    && Get(d, "context_id").Str? && IsDigest(Get(d, "context_id").s)
    && IsText(Get(d, "job_id")) && IsText(Get(d, "workspace_id")) && IsText(Get(d, "assigned_agent"))
    && IsText(Get(d, "host_id"))
    && IsPath(Get(d, "workspace_path")) && IsPath(Get(d, "worktree_path")) && IsPath(Get(d, "harness_root"))
    && IsScope(Get(d, "session_scope_id"))
    && IsTextOrNull(Get(d, "branch")) && IsTextOrNull(Get(d, "task_id"))
    && IsLogHandle(Get(d, "log_handle"), Get(d, "job_id"))
  }

  ghost predicate IsContext(sha: string -> string, v: Json) {
    && v.Obj? && v.fields.Keys == CONTEXT_KEYS && FieldsOk(v.fields)
    && IsLegacyScopes(Get(v.fields, "legacy_scope_ids"), Get(v.fields, "session_scope_id"))
    && Get(v.fields, "context_id") == Str(ContextId(sha, SnapshotOf(v.fields)))
  }

  /** The context says what the envelope says. */
  ghost predicate Describes(c: Context, d: Dict) {
    && Get(d, "context_id") == Str(c.contextId)
    && Get(d, "job_id") == Str(c.snapshot.jobId) && Get(d, "workspace_id") == Str(c.snapshot.workspaceId)
    && Get(d, "task_id") == Nullable(c.snapshot.taskId) && Get(d, "assigned_agent") == Str(c.snapshot.assignedAgent)
    && Get(d, "host_id") == Str(c.snapshot.hostId) && Get(d, "workspace_path") == Str(c.snapshot.workspacePath)
    && Get(d, "worktree_path") == Str(c.snapshot.worktreePath) && Get(d, "harness_root") == Str(c.snapshot.harnessRoot)
    && Get(d, "branch") == Nullable(c.snapshot.branch) && Get(d, "session_scope_id") == Str(c.snapshot.sessionScopeId)
    && Get(d, "legacy_scope_ids") == Listed(c.snapshot.legacyScopeIds)
  }

  lemma FieldsDescribe(d: Dict, id: string)
    requires FieldsOk(d) && Get(d, "context_id") == Str(id)
    requires Listed(TextsOf(Get(d, "legacy_scope_ids"))) == Get(d, "legacy_scope_ids")
    ensures Describes(Context(id, SnapshotOf(d)), d)
  {
    hide Get, IsAuthorityPath, IsDigest, IsSafeScope, Strip, IsLogHandle, Listed, TextsOf, LogHandleOf, EqualsInt;
  }

  lemma ListedTexts(v: Json, scopes: seq<string>)
    requires Listed(scopes) == v
    ensures TextsOf(v) == scopes
  {
    assert forall i :: 0 <= i < |scopes| ==> v.items[i] == Str(scopes[i]);
  }

  /** `parse_execution_context`, without the expectations of the caller. */
  method ParseContext(sha: string -> string, v: Json) returns (r: Result<Context>)
    ensures r.Success? <==> IsContext(sha, v)
    ensures r.Success? ==> Describes(r.value, v.fields) && r.value.contextId == ContextId(sha, r.value.snapshot)
    ensures r.Success? ==> r.value.snapshot == SnapshotOf(v.fields)
  {
    hide FieldsOk, ContextId, Describes, SnapshotOf, IsLegacyScopes, Listed, TextsOf;
    if !v.Obj? || v.fields.Keys != CONTEXT_KEYS || !FieldsOk(v.fields) {
      return Failure;
    }
    PrimaryIsText(v.fields);
    var scopes := ReadLegacyScopes(Get(v.fields, "legacy_scope_ids"), TextOf(Get(v.fields, "session_scope_id")));
    if scopes.Failure? || Get(v.fields, "context_id") != Str(ContextId(sha, SnapshotOf(v.fields))) {
      return Failure;
    }
    ListedTexts(Get(v.fields, "legacy_scope_ids"), scopes.value);
    FieldsDescribe(v.fields, ContextId(sha, SnapshotOf(v.fields)));
    return Success(Context(ContextId(sha, SnapshotOf(v.fields)), SnapshotOf(v.fields)));
  }

  lemma PrimaryIsText(d: Dict)
    requires FieldsOk(d)
    ensures Get(d, "session_scope_id") == Str(TextOf(Get(d, "session_scope_id")))
  {
    hide IsAuthorityPath, IsDigest, IsSafeScope, Strip, IsLogHandle;
  }

  // ----- the claim response -----

  datatype Claim = Claim(job: Dict, context: Context, attemptToken: int)

  /** The claim response holds a job whose identity is the context's. The job
      id is compared only when the job has one. */
  ghost predicate ClaimOk(sha: string -> string, claim: Dict, agentId: string) {
    && Truthy(Get(claim, "claimed")) && Get(claim, "job").Obj?
    && IsInt(Get(claim, "attempt_token")) && IsContext(sha, Get(claim, "execution_context"))
    && var job, context := Get(claim, "job").fields, Get(claim, "execution_context").fields;
    && (Get(job, "id").Null? || Get(job, "id") == Get(context, "job_id"))
    && Get(context, "assigned_agent") == Str(agentId)
    && Get(job, "task_id") == Get(context, "task_id")
    && (Get(job, "workspace_id").Null? || Get(job, "workspace_id") == Get(context, "workspace_id"))
    && (Get(job, "assigned_agent").Null? || Get(job, "assigned_agent") == Str(agentId))
    && IsInt(Get(job, "attempt_count"))
    && 1 <= IntValue(Get(claim, "attempt_token")) == IntValue(Get(job, "attempt_count"))
  }

  /** `validate_claim_response` of `{"result": claim}`. */
  method ValidateClaim(sha: string -> string, claim: Dict, agentId: string) returns (r: Result<Claim>)
    ensures r.Success? <==> ClaimOk(sha, claim, agentId)
    ensures r.Success? ==>
      && Get(claim, "job") == Obj(r.value.job)
      && Describes(r.value.context, Get(claim, "execution_context").fields)
      && r.value.context.snapshot == SnapshotOf(Get(claim, "execution_context").fields)
      && r.value.context.contextId == ContextId(sha, r.value.context.snapshot)
      && r.value.attemptToken == IntValue(Get(claim, "attempt_token"))
  {
    hide IsContext, ContextId, Truthy, SnapshotOf;
    if !Truthy(Get(claim, "claimed")) || !Get(claim, "job").Obj? || !IsInt(Get(claim, "attempt_token")) {
      return Failure;
    }
    var job, token := Get(claim, "job").fields, IntValue(Get(claim, "attempt_token"));
    var parsed := ParseContext(sha, Get(claim, "execution_context"));
    if parsed.Failure? {
      return Failure;
    }
    var context := parsed.value.snapshot;
    if !Get(job, "id").Null? && Get(job, "id") != Str(context.jobId) {
      return Failure;
    }
    if context.assignedAgent != agentId || Get(job, "task_id") != Nullable(context.taskId) {
      return Failure;
    }
    if !Get(job, "workspace_id").Null? && Get(job, "workspace_id") != Str(context.workspaceId) {
      return Failure;
    }
    if !Get(job, "assigned_agent").Null? && Get(job, "assigned_agent") != Str(context.assignedAgent) {
      return Failure;
    }
    if !IsInt(Get(job, "attempt_count")) || token != IntValue(Get(job, "attempt_count")) || token < 1 {
      return Failure;
    }
    return Success(Claim(job, parsed.value, token));
  }

  lemma ClaimOkMeans(sha: string -> string, claim: Dict, agentId: string)
    requires ClaimOk(sha, claim, agentId)
    ensures IsInt(Get(claim, "attempt_token")) && Get(claim, "execution_context").Obj? && Get(claim, "job").Obj?
    ensures Get(Get(claim, "execution_context").fields, "assigned_agent") == Str(agentId)
    ensures Get(Get(claim, "execution_context").fields, "session_scope_id").Str?
    ensures Get(Get(claim, "execution_context").fields, "session_scope_id").s != ""
  {
    hide ContextId, IsAuthorityPath, IsLogHandle, IsLegacyScopes, Strip, Truthy;
  }

  /** `to_dict` */
  function ToDict(c: Context): Dict {
    SnapshotDict(c.snapshot)["context_id" := Str(c.contextId)]
  }

  lemma ToDictLooksUp(c: Context)
    ensures var d := ToDict(c);
            && Get(d, "job_id") == Str(c.snapshot.jobId) && Get(d, "assigned_agent") == Str(c.snapshot.assignedAgent)
            && Get(d, "host_id") == Str(c.snapshot.hostId) && Get(d, "worktree_path") == Str(c.snapshot.worktreePath)
  {
    hide Listed, LogHandleDict;
  }

  // ----- which envelopes are accepted -----

  predicate NotBlank(s: string) {
    Strip(s) != ""
  }

  predicate ScopeOk(s: string) {
    1 <= |s| <= 256 && IsSafeScope(s)
  }

  ghost predicate LegacyScopesOk(scopes: seq<string>, primary: string) {
    && |scopes| <= 10 && (forall i :: 0 <= i < |scopes| ==> ScopeOk(scopes[i]) && scopes[i] != primary)
    && forall i, j :: 0 <= i < j < |scopes| ==> scopes[i] != scopes[j]
  }

  predicate LogHandleOk(h: LogHandle, jobId: string) {
    h.jobId == jobId && (h.logsPath.Some? ==> IsAuthorityPath(h.logsPath.value))
  }

  ghost predicate SnapshotOk(c: Snapshot) {
    && NotBlank(c.jobId) && NotBlank(c.workspaceId) && NotBlank(c.assignedAgent) && NotBlank(c.hostId)
    && IsAuthorityPath(c.workspacePath) && IsAuthorityPath(c.worktreePath) && IsAuthorityPath(c.harnessRoot)
    && (c.branch.Some? ==> NotBlank(c.branch.value)) && (c.taskId.Some? ==> NotBlank(c.taskId.value))
    && ScopeOk(c.sessionScopeId) && LegacyScopesOk(c.legacyScopeIds, c.sessionScopeId)
    && LogHandleOk(c.logHandle, c.jobId)
  }

  /** The envelope lists every field of a context. */
  ghost predicate Spells(d: Dict, c: Context) {
    d.Keys == CONTEXT_KEYS && Describes(c, d) && Get(d, "log_handle") == LogHandleDict(c.snapshot.logHandle)
  }

  lemma SpelledByToDict(d: Dict, c: Context)
    ensures Spells(d, c) <==>
            "contract_version" in d && d == ToDict(c)["contract_version" := Get(d, "contract_version")]
  {
    hide ToDict, Describes, Get;
    ToDictSpells(c, Get(d, "contract_version"));
    var printed := ToDict(c)["contract_version" := Get(d, "contract_version")];
    Stored(ToDict(c), Get(d, "contract_version"));
    if Spells(d, c) {
      SameSpelling(d, printed, c);
    }
  }

  lemma Stored(d: Dict, version: Json)
    ensures Get(d["contract_version" := version], "contract_version") == version
  {
  }

  lemma ToDictSpells(c: Context, version: Json)
    ensures Spells(ToDict(c)["contract_version" := version], c)
  {
    hide ToDict, Describes;
    ToDictKeys(c, version);
    ToDictDescribes(c, version);
  }

  lemma ToDictKeys(c: Context, version: Json)
    ensures ToDict(c)["contract_version" := version].Keys == CONTEXT_KEYS
  {
    hide Listed, LogHandleDict, Nullable;
  }

  lemma ToDictDescribes(c: Context, version: Json)
    ensures var d := ToDict(c)["contract_version" := version];
            Describes(c, d) && Get(d, "log_handle") == LogHandleDict(c.snapshot.logHandle)
  {
    hide Listed, LogHandleDict, Nullable, ToDict, Get;
    ToDictSays(c);
    Elsewhere(ToDict(c), version);
  }

  lemma Elsewhere(d: Dict, version: Json)
    ensures forall k :: k != "contract_version" ==> Get(d["contract_version" := version], k) == Get(d, k)
  {
  }

  lemma ToDictSays(c: Context)
    ensures Describes(c, ToDict(c)) && Get(ToDict(c), "log_handle") == LogHandleDict(c.snapshot.logHandle)
  {
    hide Listed, LogHandleDict, Nullable;
  }

  lemma SameSpelling(a: Dict, b: Dict, c: Context)
    requires Spells(a, c) && Spells(b, c) && Get(a, "contract_version") == Get(b, "contract_version")
    ensures a == b
  {
    hide Listed, LogHandleDict, Nullable, Get;
    forall k | k in CONTEXT_KEYS ensures a[k] == b[k] {
      assert Get(a, k) == Get(b, k);
      Looked(a, k);
      Looked(b, k);
    }
  }

  lemma Looked(d: Dict, k: string)
    requires k in d
    ensures Get(d, k) == d[k]
  {
  }

  lemma LogHandleMeans(v: Json, jobId: string)
    requires NotBlank(jobId)
    ensures IsLogHandle(v, Str(jobId)) <==> v == LogHandleDict(LogHandleOf(v)) && LogHandleOk(LogHandleOf(v), jobId)
  {
    hide IsAuthorityPath;
    if IsLogHandle(v, Str(jobId)) {
      assert Get(v.fields, "kind") == v.fields["kind"] && Get(v.fields, "job_id") == v.fields["job_id"];
      assert Get(v.fields, "logs_path") == v.fields["logs_path"];
      assert v.fields == LogHandleDict(LogHandleOf(v)).fields;
    }
  }

  lemma LegacyScopesMean(v: Json, primary: string)
    ensures IsLegacyScopes(v, Str(primary)) <==> v == Listed(TextsOf(v)) && LegacyScopesOk(TextsOf(v), primary)
  {
    hide IsSafeScope;
    if v.Arr? {
      var texts := TextsOf(v);
      if v == Listed(texts) {
        assert forall i :: 0 <= i < |v.items| ==> v.items[i] == Str(texts[i]);
      }
      assert IsLegacyScopes(v, Str(primary)) ==> v.items == Listed(texts).items;
    }
  }

  lemma FieldsMean(d: Dict, id: string)
    requires Get(d, "context_id") == Str(id)
    ensures var c := SnapshotOf(d);
            FieldsOk(d) && IsLegacyScopes(Get(d, "legacy_scope_ids"), Get(d, "session_scope_id")) <==>
              && EqualsInt(Get(d, "contract_version"), 1) && IsDigest(id) && SnapshotOk(c)
              && Describes(Context(id, c), d) && Get(d, "log_handle") == LogHandleDict(c.logHandle)
  {
    hide Get, Strip, IsAuthorityPath, IsDigest, IsSafeScope, IsLogHandle, IsLegacyScopes, Listed, TextsOf, LogHandleOf,
      LogHandleDict, EqualsInt, LogHandleOk, LegacyScopesOk;
    if IsText(Get(d, "job_id")) {
      LogHandleMeans(Get(d, "log_handle"), TextOf(Get(d, "job_id")));
    }
    if Get(d, "session_scope_id").Str? {
      LegacyScopesMean(Get(d, "legacy_scope_ids"), TextOf(Get(d, "session_scope_id")));
    }
  }

  /** The accepted envelopes are exactly what `to_dict` gives for well-formed
      snapshots under their own digest, save that the version may be `true`. */
  lemma ContextMeans(sha: string -> string, v: Json)
    ensures IsContext(sha, v) <==>
      && v.Obj? && EqualsInt(Get(v.fields, "contract_version"), 1)
      && var s := SnapshotOf(v.fields); var c := Context(ContextId(sha, s), s);
      && SnapshotOk(s) && IsDigest(c.contextId)
      && v.fields == ToDict(c)["contract_version" := Get(v.fields, "contract_version")]
  {
    hide ContextId, SnapshotOf, FieldsOk, IsLegacyScopes, Describes, IsDigest, SnapshotOk, ToDict, LogHandleDict;
    if v.Obj? {
      var s := SnapshotOf(v.fields);
      var c := Context(ContextId(sha, s), s);
      SpelledByToDict(v.fields, c);
      VersionThere(v.fields);
      IdSpelled(v.fields, c);
      if Get(v.fields, "context_id") == Str(c.contextId) {
        FieldsMean(v.fields, c.contextId);
      }
    }
  }

  lemma VersionThere(d: Dict)
    ensures EqualsInt(Get(d, "contract_version"), 1) ==> "contract_version" in d
  {
  }

  lemma IdSpelled(d: Dict, c: Context)
    ensures Spells(d, c) ==> Get(d, "context_id") == Str(c.contextId)
  {
  }

  /** The round trip, for exactly the well-formed snapshots. */
  lemma ContextRoundTrip(sha: string -> string, s: Snapshot)
    requires IsDigest(ContextId(sha, s))
    ensures var v := Obj(ToDict(Context(ContextId(sha, s), s)));
            && SnapshotOf(v.fields) == s
            && (IsContext(sha, v) <==> SnapshotOk(s))
  {
    hide ContextId, IsContext, SnapshotOk, IsDigest, SnapshotOf, ToDict;
    var c := Context(ContextId(sha, s), s);
    SnapshotOfToDict(c);
    ContextMeans(sha, Obj(ToDict(c)));
    ToDictVersion(c);
  }

  lemma ToDictVersion(c: Context)
    ensures Get(ToDict(c), "contract_version") == Num(1)
    ensures ToDict(c)["contract_version" := Num(1)] == ToDict(c)
  {
    hide Listed, LogHandleDict, Nullable;
  }

  lemma SnapshotOfToDict(c: Context)
    ensures SnapshotOf(ToDict(c)) == c.snapshot
  {
    hide Listed, LogHandleDict, TextsOf, LogHandleOf, ToDict, Get;
    ToDictSays(c);
    ListedTexts(Listed(c.snapshot.legacyScopeIds), c.snapshot.legacyScopeIds);
    LogHandleReads(c.snapshot.logHandle);
  }

  lemma LogHandleReads(h: LogHandle)
    ensures LogHandleOf(LogHandleDict(h)) == h
  {
  }

  /** What an accepted envelope is read as. */
  lemma ContextReads(sha: string -> string, v: Json)
    requires IsContext(sha, v)
    ensures v.Obj? && Describes(Context(ContextId(sha, SnapshotOf(v.fields)), SnapshotOf(v.fields)), v.fields)
  {
    hide ContextId, SnapshotOf, IsContext, Describes, IsDigest, SnapshotOk, ToDict;
    ContextMeans(sha, v);
    var s := SnapshotOf(v.fields);
    ToDictDescribes(Context(ContextId(sha, s), s), Get(v.fields, "contract_version"));
  }
}
