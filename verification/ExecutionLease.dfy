/** multinexus/agentd/execution_lease.py: the lease envelope of a claim. */
module ExecutionLease {
  import opened Prelude
  import opened PyText
  import opened CanonicalJson
  import opened Patterns
  import opened WorktreePath

  const MIN_TTL_SECONDS: int := 30
  const MAX_TTL_SECONDS: int := 600
  const MAX_CONCURRENT_JOBS: int := 32
  const MAX_LABEL_LEN: nat := 256
  const MAX_HOST_ID_LEN: nat := 64

  const LEASE_KEYS: set<string> := {
    "contract_version", "lease_id", "job_id", "attempt_token", "agent_id", "runner_profile_id", "host_id",
    "resource_kind", "resource_key", "normalized_path", "capacity_policy_id", "max_concurrent_jobs",
    "acquired_at", "expires_at", "server_now", "ttl_seconds", "renew_interval_seconds"}

  /** Library behaviour outside this model: paths that are not POSIX paths, and
      the reading of an ISO-UTC timestamp as seconds. */
  datatype LeaseLibrary = LeaseLibrary(
    paths: PathLibrary,
    foreignAbsolute: string -> bool,
    timestamp: string -> Option<int>)

  datatype Identity = Identity(
    leaseId: string,
    jobId: string,
    attemptToken: int,
    agentId: string,
    runnerProfileId: string,
    hostId: string,
    resourceKind: string,
    resourceKey: string,
    normalizedPath: string)

  datatype Capacity = Capacity(policyId: string, maxConcurrentJobs: int)

  datatype Term = Term(
    acquiredAt: string,
    expiresAt: string,
    serverNow: string,
    ttlSeconds: int,
    renewIntervalSeconds: int)

  datatype Lease = Lease(id: Identity, capacity: Capacity, term: Term)

  // ----- field validators -----

  function RequiredString(v: Json): Result<string> {
    if v.Str? && Strip(v.s) != "" then Success(v.s) else Failure
  }

  function Text(v: Json, accepts: string -> bool): Result<string> {
    var s :- RequiredString(v);
    if accepts(s) then Success(s) else Failure
  }

  predicate IsLeaseLabel(s: string) {
    |s| <= MAX_LABEL_LEN && IsSafeLabel(s)
  }

  predicate IsAbsolute(lib: LeaseLibrary, s: string) {
    |s| <= MAX_PATH_LEN && !HasControl(s) && (lib.foreignAbsolute(s) || s[..if s == "" then 0 else 1] == "/")
  }

  predicate IsTimestamp(lib: LeaseLibrary, s: string) {
    lib.timestamp(s).Some?
  }

  /** `_parse_iso` of a timestamp that has been validated. */
  function Seconds(lib: LeaseLibrary, s: string): int {
    if IsTimestamp(lib, s) then lib.timestamp(s).value else 0
  }

  /** `_validate_positive_int`: a boolean is not an integer here. */
  function PositiveInt(v: Json): Result<int> {
    if v.Num? && v.n > 0 then Success(v.n) else Failure
  }

  // ----- parsing -----

  function ParseIdentity(lib: LeaseLibrary, d: Dict): Result<Identity> {
    var leaseId :- Text(Get(d, "lease_id"), IsUuid);
    var jobId :- RequiredString(Get(d, "job_id"));
    var attemptToken :- PositiveInt(Get(d, "attempt_token"));
    var agentId :- Text(Get(d, "agent_id"), IsLeaseLabel);
    var runnerProfileId :- Text(Get(d, "runner_profile_id"), IsLeaseLabel);
    var hostId :- Text(Get(d, "host_id"), IsLeaseLabel);
    var resourceKind :- Text(Get(d, "resource_kind"), IsLeaseLabel);
    :- Check(resourceKind == "worktree");
    var resourceKey :- Text(Get(d, "resource_key"), IsDigest);
    var normalizedPath :- Text(Get(d, "normalized_path"), s => IsAbsolute(lib, s));
    Success(Identity(leaseId, jobId, attemptToken, agentId, runnerProfileId, hostId, resourceKind, resourceKey,
                     normalizedPath))
  }

  function ParseCapacity(d: Dict): Result<Capacity> {
    var policyId :- Text(Get(d, "capacity_policy_id"), IsDigest);
    var maxConcurrentJobs :- PositiveInt(Get(d, "max_concurrent_jobs"));
    :- Check(maxConcurrentJobs <= MAX_CONCURRENT_JOBS);
    Success(Capacity(policyId, maxConcurrentJobs))
  }

  function ParseTerm(lib: LeaseLibrary, d: Dict): Result<Term> {
    var acquiredAt :- Text(Get(d, "acquired_at"), s => IsTimestamp(lib, s));
    var expiresAt :- Text(Get(d, "expires_at"), s => IsTimestamp(lib, s));
    var serverNow :- Text(Get(d, "server_now"), s => IsTimestamp(lib, s));
    var ttlSeconds :- PositiveInt(Get(d, "ttl_seconds"));
    :- Check(MIN_TTL_SECONDS <= ttlSeconds <= MAX_TTL_SECONDS);
    var renewIntervalSeconds :- PositiveInt(Get(d, "renew_interval_seconds"));
    :- Check(renewIntervalSeconds < ttlSeconds);
    :- Check(Seconds(lib, acquiredAt) <= Seconds(lib, serverNow) < Seconds(lib, expiresAt));
    :- Check(Seconds(lib, expiresAt) - Seconds(lib, acquiredAt) == ttlSeconds);
    Success(Term(acquiredAt, expiresAt, serverNow, ttlSeconds, renewIntervalSeconds))
  }

  predicate HasLeaseKeys(d: Dict) {
    d.Keys == LEASE_KEYS
  }

  /** `parse_execution_lease`; every violation raises the same error. */
  function ParseLease(lib: LeaseLibrary, v: Json): Result<Lease> {
    var d := if v.Obj? then v.fields else map[];
    :- Check(v.Obj? && HasLeaseKeys(d));
    :- Check(Get(d, "contract_version") == Num(1));
    var id :- ParseIdentity(lib, d);
    var capacity :- ParseCapacity(d);
    var term :- ParseTerm(lib, d);
    Success(Lease(id, capacity, term))
  }

  // ----- what parsing means -----

  predicate NotBlank(s: string) {
    Strip(s) != ""
  }

  ghost predicate IdentityOk(lib: LeaseLibrary, id: Identity) {
    && NotBlank(id.leaseId) && IsUuid(id.leaseId)
    && NotBlank(id.jobId) && id.attemptToken >= 1
    && NotBlank(id.agentId) && |id.agentId| <= 256 && IsSafeLabel(id.agentId)
    && NotBlank(id.runnerProfileId) && |id.runnerProfileId| <= 256 && IsSafeLabel(id.runnerProfileId)
    && NotBlank(id.hostId) && |id.hostId| <= 256 && IsSafeLabel(id.hostId)
    && id.resourceKind == "worktree"
    && NotBlank(id.resourceKey) && IsDigest(id.resourceKey)
    && NotBlank(id.normalizedPath) && |id.normalizedPath| <= 4096 && !HasControl(id.normalizedPath)
    && (id.normalizedPath[0] == '/' || lib.foreignAbsolute(id.normalizedPath))
  }

  ghost predicate CapacityOk(c: Capacity) {
    NotBlank(c.policyId) && IsDigest(c.policyId) && 1 <= c.maxConcurrentJobs <= 32
  }

  /** The server's clock lies inside the lease, whose length is its time to live. */
  ghost predicate TermOk(lib: LeaseLibrary, t: Term) {
    var acquired, server := lib.timestamp(t.acquiredAt), lib.timestamp(t.serverNow);
    var expires := lib.timestamp(t.expiresAt);
    && NotBlank(t.acquiredAt) && NotBlank(t.serverNow) && NotBlank(t.expiresAt)
    && acquired.Some? && server.Some? && expires.Some?
    && acquired.value <= server.value < expires.value == acquired.value + t.ttlSeconds
    && 30 <= t.ttlSeconds <= 600
    && 1 <= t.renewIntervalSeconds < t.ttlSeconds
  }

  ghost predicate LeaseOk(lib: LeaseLibrary, l: Lease) {
    IdentityOk(lib, l.id) && CapacityOk(l.capacity) && TermOk(lib, l.term)
  }

  /** The envelope says exactly what the lease says. */
  ghost predicate Carries(d: Dict, l: Lease) {
    && HasLeaseKeys(d) && Get(d, "contract_version") == Num(1)
    && CarriesIdentity(d, l.id)
    && Get(d, "capacity_policy_id") == Str(l.capacity.policyId)
    && Get(d, "max_concurrent_jobs") == Num(l.capacity.maxConcurrentJobs)
    && CarriesTerm(d, l.term)
  }

  ghost predicate CarriesIdentity(d: Dict, id: Identity) {
    && Get(d, "lease_id") == Str(id.leaseId) && Get(d, "job_id") == Str(id.jobId)
    && Get(d, "attempt_token") == Num(id.attemptToken)
    && Get(d, "agent_id") == Str(id.agentId) && Get(d, "runner_profile_id") == Str(id.runnerProfileId)
    && Get(d, "host_id") == Str(id.hostId) && Get(d, "resource_kind") == Str(id.resourceKind)
    && Get(d, "resource_key") == Str(id.resourceKey) && Get(d, "normalized_path") == Str(id.normalizedPath)
  }

  ghost predicate CarriesTerm(d: Dict, t: Term) {
    && Get(d, "acquired_at") == Str(t.acquiredAt) && Get(d, "expires_at") == Str(t.expiresAt)
    && Get(d, "server_now") == Str(t.serverNow)
    && Get(d, "ttl_seconds") == Num(t.ttlSeconds) && Get(d, "renew_interval_seconds") == Num(t.renewIntervalSeconds)
  }

  lemma WorktreeIsLabel()
    ensures IsLeaseLabel("worktree") && NotBlank("worktree")
  {
    StripFixed("worktree");
  }

  lemma IdentityMeans(lib: LeaseLibrary, d: Dict, id: Identity)
    ensures ParseIdentity(lib, d) == Success(id) <==> CarriesIdentity(d, id) && IdentityOk(lib, id)
  {
    hide Strip, IsUuid, IsSafeLabel, IsDigest, HasControl, Get;
    WorktreeIsLabel();
  }

  lemma TermMeans(lib: LeaseLibrary, d: Dict, t: Term)
    ensures ParseTerm(lib, d) == Success(t) <==> CarriesTerm(d, t) && TermOk(lib, t)
  {
    hide Strip, Get;
  }

  lemma CapacityMeans(d: Dict, c: Capacity)
    ensures ParseCapacity(d) == Success(c) <==>
            Get(d, "capacity_policy_id") == Str(c.policyId) && Get(d, "max_concurrent_jobs") == Num(c.maxConcurrentJobs)
            && CapacityOk(c)
  {
    hide Strip, IsDigest, Get;
  }

  /** Parsing is lossless: it yields a lease exactly for the envelopes that
      carry it, and the leases it yields are the well-formed ones. */
  lemma ParseMeans(lib: LeaseLibrary, v: Json, l: Lease)
    ensures ParseLease(lib, v) == Success(l) <==> v.Obj? && Carries(v.fields, l) && LeaseOk(lib, l)
  {
    hide ParseIdentity, ParseCapacity, ParseTerm, CarriesIdentity, CarriesTerm, IdentityOk, CapacityOk, TermOk,
      HasLeaseKeys, Get;
    if v.Obj? {
      IdentityMeans(lib, v.fields, l.id);
      CapacityMeans(v.fields, l.capacity);
      TermMeans(lib, v.fields, l.term);
    }
  }

  /** `lease_to_dict` */
  function LeaseToDict(l: Lease): Dict {
    map["contract_version" := Num(1),
        "lease_id" := Str(l.id.leaseId),
        "job_id" := Str(l.id.jobId),
        "attempt_token" := Num(l.id.attemptToken),
        "agent_id" := Str(l.id.agentId),
        "runner_profile_id" := Str(l.id.runnerProfileId),
        "host_id" := Str(l.id.hostId),
        "resource_kind" := Str(l.id.resourceKind),
        "resource_key" := Str(l.id.resourceKey),
        "normalized_path" := Str(l.id.normalizedPath),
        "capacity_policy_id" := Str(l.capacity.policyId),
        "max_concurrent_jobs" := Num(l.capacity.maxConcurrentJobs),
        "acquired_at" := Str(l.term.acquiredAt),
        "expires_at" := Str(l.term.expiresAt),
        "server_now" := Str(l.term.serverNow),
        "ttl_seconds" := Num(l.term.ttlSeconds),
        "renew_interval_seconds" := Num(l.term.renewIntervalSeconds)]
  }

  lemma LeaseToDictCarries(l: Lease)
    ensures Carries(LeaseToDict(l), l)
  {
    hide LeaseToDict, CarriesIdentity, CarriesTerm, HasLeaseKeys;
    HasKeysInDict(l);
    IdentityInDict(l);
    CapacityInDict(l);
    TermInDict(l);
  }

  lemma HasKeysInDict(l: Lease)
    ensures HasLeaseKeys(LeaseToDict(l))
  {
  }

  lemma IdentityInDict(l: Lease)
    ensures CarriesIdentity(LeaseToDict(l), l.id)
  {
  }

  lemma CapacityInDict(l: Lease)
    ensures Get(LeaseToDict(l), "contract_version") == Num(1)
    ensures Get(LeaseToDict(l), "capacity_policy_id") == Str(l.capacity.policyId)
    ensures Get(LeaseToDict(l), "max_concurrent_jobs") == Num(l.capacity.maxConcurrentJobs)
  {
  }

  lemma TermInDict(l: Lease)
    ensures CarriesTerm(LeaseToDict(l), l.term)
  {
  }

  /** The round trip, for exactly the well-formed leases. */
  lemma LeaseRoundTrip(lib: LeaseLibrary, l: Lease)
    ensures ParseLease(lib, Obj(LeaseToDict(l))) == Success(l) <==> LeaseOk(lib, l)
  {
    hide LeaseToDict, ParseLease, Carries, LeaseOk;
    LeaseToDictCarries(l);
    ParseMeans(lib, Obj(LeaseToDict(l)), l);
  }

  // ----- resource identity -----

  function ResourceDict(hostId: string, path: string): Dict {
    map["contract_version" := Num(1), "resource_kind" := Str("worktree"), "host_id" := Str(hostId),
        "normalized_path" := Str(path)]
  }

  lemma ResourceSays(hostId: string, path: string)
    ensures var d := ResourceDict(hostId, path);
            && Get(d, "host_id") == Str(hostId) && Get(d, "normalized_path") == Str(path)
            && Get(d, "resource_kind") == Str("worktree") && Get(d, "contract_version") == Num(1) && |d| == 4
  {
  }

  function ResourceKey(sha: string -> string, hostId: string, path: string): string {
    "sha256:" + sha(Print(Obj(ResourceDict(hostId, path))))
  }

  predicate IsHostId(s: string) {
    s != "" && s == Strip(s) && |s| <= MAX_HOST_ID_LEN && !HasControl(s)
  }

  /** `compute_resource_key(build_worktree_resource(...))` */
  function ComputedKey(sha: string -> string, lib: LeaseLibrary, hostId: string, path: string): Result<string> {
    var host :- if IsHostId(hostId) then Success(hostId) else Failure;
    var normalized :- Normalize(lib.paths, path);
    Success(ResourceKey(sha, host, normalized))
  }

  /** The key of a resource identifies its host and its path. */
  lemma ResourceKeyInjective(sha: string -> string, h: string, p: string, h': string, p': string)
    requires Injective(sha)
    ensures ResourceKey(sha, h, p) == ResourceKey(sha, h', p') <==> h == h' && p == p'
  {
    hide Print;
    var a, b := ResourceDict(h, p), ResourceDict(h', p');
    DigestCommits(sha, Obj(a), Obj(b));
    if ResourceKey(sha, h, p) == ResourceKey(sha, h', p') {
      assert ResourceKey(sha, h, p)[7..] == sha(Print(Obj(a))) && ResourceKey(sha, h', p')[7..] == sha(Print(Obj(b)));
      assert a["host_id"] == b["host_id"] && a["normalized_path"] == b["normalized_path"];
    }
  }

  // ----- validate_execution_lease -----

  /** A lease error is caught by the worker; a resource identity error is not. */
  datatype LeaseCheck = Valid(lease: Lease) | LeaseError | ResourceIdentityError

  ghost predicate Matches(l: Lease, agentId: string, jobId: Option<string>, token: Option<int>) {
    && l.id.agentId == agentId
    && (jobId.Some? ==> jobId.value == l.id.jobId)
    && (token.Some? ==> token.value == l.id.attemptToken)
  }

  predicate AgreesWithContext(l: Lease, context: Dict) {
    && Get(context, "job_id") == Str(l.id.jobId)
    && Get(context, "assigned_agent") == Str(l.id.agentId)
    && Get(context, "host_id") == Str(l.id.hostId)
    && Get(context, "worktree_path") == Str(l.id.normalizedPath)
  }

  predicate AgreesWithBinding(l: Lease, binding: Dict) {
    && Get(binding, "executor_instance_id") == Str(l.id.agentId)
    && Get(binding, "runner_profile_id") == Str(l.id.runnerProfileId)
  }

  function ValidateLease(sha: string -> string, lib: LeaseLibrary, v: Json, agentId: string, jobId: Option<string>,
                         token: Option<int>, context: Option<Dict>, binding: Option<Dict>): LeaseCheck {
    match ParseLease(lib, v)
    case Failure => LeaseError
    case Success(lease) =>
      if lease.id.agentId != agentId then LeaseError
      else if jobId.Some? && lease.id.jobId != jobId.value then LeaseError
      else if token.Some? && lease.id.attemptToken != token.value then LeaseError
      else
        var canonical := Normalize(lib.paths, lease.id.normalizedPath);
        if canonical.Failure? then ResourceIdentityError
        else if canonical.value != lease.id.normalizedPath then LeaseError
        else
          var key := ComputedKey(sha, lib, lease.id.hostId, lease.id.normalizedPath);
          if key.Failure? then ResourceIdentityError
          else if key.value != lease.id.resourceKey then LeaseError
          else if context.Some? && !AgreesWithContext(lease, context.value) then LeaseError
          else if binding.Some? && !AgreesWithBinding(lease, binding.value) then LeaseError
          else Valid(lease)
  }

  /** A lease whose path and key are the canonical ones. */
  ghost predicate Sound(sha: string -> string, lib: LeaseLibrary, l: Lease) {
    && Normalize(lib.paths, l.id.normalizedPath) == Success(l.id.normalizedPath)
    && 1 <= |l.id.hostId| <= 64 && Strip(l.id.hostId) == l.id.hostId && !HasControl(l.id.hostId)
    && l.id.resourceKey == ResourceKey(sha, l.id.hostId, l.id.normalizedPath)
  }

  /** When a lease passes: the envelope carries it, it is well formed, it is
      sound, and it agrees with everything it is checked against. */
  lemma ValidMeans(sha: string -> string, lib: LeaseLibrary, v: Json, agentId: string, jobId: Option<string>,
                   token: Option<int>, context: Option<Dict>, binding: Option<Dict>, l: Lease)
    ensures ValidateLease(sha, lib, v, agentId, jobId, token, context, binding) == Valid(l)
       <==> && v.Obj? && Carries(v.fields, l) && LeaseOk(lib, l) && Sound(sha, lib, l)
            && Matches(l, agentId, jobId, token)
            && (context.Some? ==> AgreesWithContext(l, context.value))
            && (binding.Some? ==> AgreesWithBinding(l, binding.value))
  {
    hide ParseLease, Carries, LeaseOk, Normalize, ResourceKey, AgreesWithContext, AgreesWithBinding, Strip, HasControl;
    ParseMeans(lib, v, l);
  }

  lemma ValidForAgent(sha: string -> string, lib: LeaseLibrary, v: Json, agentId: string)
    ensures var r := ValidateLease(sha, lib, v, agentId, None, None, None, None);
            r.Valid? ==> r.lease.id.agentId == agentId && Sound(sha, lib, r.lease)
  {
    hide ParseLease, Normalize, ResourceKey, Strip, HasControl;
  }

  predicate Expected(l: Lease, jobId: Option<string>, token: Option<int>, context: Option<Dict>,
                     binding: Option<Dict>) {
    && (jobId.Some? ==> l.id.jobId == jobId.value) && (token.Some? ==> l.id.attemptToken == token.value)
    && (context.Some? ==> AgreesWithContext(l, context.value))
    && (binding.Some? ==> AgreesWithBinding(l, binding.value))
  }

  /** Checking a lease again, against more, gives the same lease or an error
      that the worker catches. */
  lemma Recheck(sha: string -> string, lib: LeaseLibrary, v: Json, agentId: string, l: Lease, jobId: Option<string>,
                token: Option<int>, context: Option<Dict>, binding: Option<Dict>)
    requires ValidateLease(sha, lib, v, agentId, None, None, None, None) == Valid(l)
    ensures ValidateLease(sha, lib, v, agentId, jobId, token, context, binding)
         == if Expected(l, jobId, token, context, binding) then Valid(l) else LeaseError
  {
    hide ParseLease, Normalize, ComputedKey, AgreesWithContext, AgreesWithBinding;
  }

  /** Two leases that pass name one resource exactly when they name one host
      and one path. */
  lemma ResourceIdentity(sha: string -> string, lib: LeaseLibrary, a: Lease, b: Lease)
    requires Injective(sha) && Sound(sha, lib, a) && Sound(sha, lib, b)
    ensures a.id.resourceKey == b.id.resourceKey
       <==> a.id.hostId == b.id.hostId && a.id.normalizedPath == b.id.normalizedPath
  {
    hide ResourceKey, Normalize, Strip, HasControl;
    ResourceKeyInjective(sha, a.id.hostId, a.id.normalizedPath, b.id.hostId, b.id.normalizedPath);
  }

  /** For a POSIX path: the lease passes only with a canonical path in Unicode
      normal form that does not end in white space. */
  lemma SoundPath(sha: string -> string, lib: LeaseLibrary, l: Lease)
    requires Sound(sha, lib, l) && LawfulNfc(lib.paths) && OneLeadingSlash(l.id.normalizedPath)
    ensures var path := l.id.normalizedPath;
            Canonical(path) && lib.paths.nfc(path) == path && !EndsInSpace(path)
  {
    hide ResourceKey, Normalize, IsHostId, Canonical, LawfulNfc;
    AcceptsExactlyFixedPoints(lib.paths, l.id.normalizedPath);
  }

  /** When the first check of a lease raises an error that is not a lease error:
      its path does not normalize at all, or it is canonical and the host id,
      though it has parsed, is none. */
  lemma HostIdErrorEscapes(sha: string -> string, lib: LeaseLibrary, v: Json, agentId: string, l: Lease)
    requires ParseLease(lib, v) == Success(l) && l.id.agentId == agentId
    ensures ValidateLease(sha, lib, v, agentId, None, None, None, None) == ResourceIdentityError
       <==> || Normalize(lib.paths, l.id.normalizedPath).Failure?
            || (Normalize(lib.paths, l.id.normalizedPath) == Success(l.id.normalizedPath) && !IsHostId(l.id.hostId))
  {
    hide ParseLease, Normalize, ResourceKey, IsHostId;
  }

  function Repeat(c: char, n: nat): (s: string)
    ensures |s| == n && forall x :: x in s ==> x == c
  {
    if n == 0 then "" else [c] + Repeat(c, n - 1)
  }

  /** An ordinary lease of one minute, for any host and job. */
  function ExampleLease(hostId: string, agentId: string): Lease {
    var group := "-" + Repeat('0', 4);
    var uuid := Repeat('0', 8) + group + group + group + "-" + Repeat('0', 12);
    var digest := "sha256:" + Repeat('0', 64);
    Lease(Identity(uuid, "job", 1, agentId, agentId, hostId, "worktree", digest, "/a"), Capacity(digest, 1),
          Term("2026-01-01T00:00:00Z", "2026-01-01T00:01:00Z", "2026-01-01T00:00:00Z", 60, 20))
  }

  /** The two timestamps of the example, read as what they are. */
  ghost predicate ReadsExampleTimes(lib: LeaseLibrary) {
    && lib.timestamp("2026-01-01T00:00:00Z").Some? && lib.timestamp("2026-01-01T00:01:00Z").Some?
    && lib.timestamp("2026-01-01T00:01:00Z").value == lib.timestamp("2026-01-01T00:00:00Z").value + 60
  }

  /** Text with no white space or line break in it. */
  lemma Unbroken(s: string)
    requires s != "" && forall c :: c in s ==> c in {'0', '-', 'a', ':', 's', 'h', '2', '5', '6'}
    ensures NotBlank(s) && DropBreak(s) == s && Strip(s) == s && !HasControl(s)
  {
    hide Strip;
    assert s[0] in s && s[|s| - 1] in s;
    StripFixed(s);
  }

  lemma DigestOk(digest: string)
    requires digest == "sha256:" + Repeat('0', 64)
    ensures IsDigest(digest) && NotBlank(digest)
  {
    hide NotBlank, DropBreak, HasControl, Repeat;
    assert digest[7..] == Repeat('0', 64);
    Unbroken(digest);
    Unbroken(digest[7..]);
  }

  lemma UuidOk(uuid: string)
    requires |uuid| == 36 && forall i :: 0 <= i < 36 ==> uuid[i] == if i in {8, 13, 18, 23} then '-' else '0'
    ensures IsUuid(uuid) && NotBlank(uuid)
  {
    hide NotBlank, DropBreak, HasControl;
    Unbroken(uuid);
  }

  lemma LabelOk(name: string)
    requires 1 <= |name| <= MAX_LABEL_LEN && forall c :: c in name ==> c == 'a'
    ensures IsLeaseLabel(name) && NotBlank(name)
  {
    hide NotBlank, DropBreak, HasControl;
    Unbroken(name);
    assert name[0] in name;
  }

  lemma ExampleUuid()
    ensures var uuid := ExampleLease("a", "a").id.leaseId;
            |uuid| == 36 && forall i :: 0 <= i < 36 ==> uuid[i] == if i in {8, 13, 18, 23} then '-' else '0'
  {
    hide Repeat;
    var eight, four, twelve := Repeat('0', 8), Repeat('0', 4), Repeat('0', 12);
    assert forall i :: 0 <= i < 8 ==> eight[i] in eight;
    assert forall i :: 0 <= i < 4 ==> four[i] in four;
    assert forall i :: 0 <= i < 12 ==> twelve[i] in twelve;
  }

  lemma TextsNotBlank()
    ensures NotBlank("job") && NotBlank("/a") && !HasControl("/a")
    ensures NotBlank("2026-01-01T00:00:00Z") && NotBlank("2026-01-01T00:01:00Z")
  {
    hide Strip;
    StripFixed("job");
    StripFixed("/a");
    StripFixed("2026-01-01T00:00:00Z");
    StripFixed("2026-01-01T00:01:00Z");
  }

  lemma ExampleLeaseOk(lib: LeaseLibrary, hostId: string, agentId: string)
    requires ReadsExampleTimes(lib)
    requires 1 <= |hostId| <= MAX_LABEL_LEN && forall c :: c in hostId ==> c == 'a'
    requires 1 <= |agentId| <= MAX_LABEL_LEN && forall c :: c in agentId ==> c == 'a'
    ensures LeaseOk(lib, ExampleLease(hostId, agentId))
  {
    hide NotBlank, IsUuid, IsDigest, IsSafeLabel, HasControl, Repeat;
    ExampleUuid();
    UuidOk(ExampleLease("a", "a").id.leaseId);
    DigestOk("sha256:" + Repeat('0', 64));
    LabelOk(hostId);
    LabelOk(agentId);
    TextsNotBlank();
  }

  lemma SlashAFixed(lib: PathLibrary)
    requires LawfulNfc(lib) && lib.nfc("/a") == "/a"
    ensures Normalize(lib, "/a") == Success("/a")
  {
    hide Normalize, Normpath, Walk, HasControl, LawfulNfc, Canonical;
    SlashACanonical();
    TextsNotBlank();
    AcceptsExactlyFixedPoints(lib, "/a");
  }

  lemma SlashACanonical()
    ensures Canonical("/a") && OneLeadingSlash("/a") && !EndsInSpace("/a")
  {
    assert Spells(["a"], "/a");
  }

  /** A real input: an ordinary lease whose host id is a label of 65 characters
      parses, and then raises what the worker does not catch. */
  lemma LongHostIdRaises(sha: string -> string, lib: LeaseLibrary)
    requires ReadsExampleTimes(lib) && LawfulNfc(lib.paths) && lib.paths.nfc("/a") == "/a"
    ensures var lease := ExampleLease(Repeat('a', 65), "a");
            && ParseLease(lib, Obj(LeaseToDict(lease))) == Success(lease)
            && ValidateLease(sha, lib, Obj(LeaseToDict(lease)), "a", None, None, None, None) == ResourceIdentityError
  {
    hide LeaseToDict, ParseLease, ValidateLease, LeaseOk, Normalize, Repeat, LawfulNfc, ReadsExampleTimes;
    var lease := ExampleLease(Repeat('a', 65), "a");
    ExampleLeaseOk(lib, Repeat('a', 65), "a");
    LeaseRoundTrip(lib, lease);
    SlashAFixed(lib.paths);
    HostIdErrorEscapes(sha, lib, Obj(LeaseToDict(lease)), "a", lease);
  }
}
