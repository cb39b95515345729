/** multinexus/agentd/executor_binding.py: the executor binding of a job. */
module ExecutorBinding {
  import opened Prelude
  import opened PyText
  import opened CanonicalJson
  import opened StringOrder
  import opened Labels
  import opened Patterns

  const BINDING_KEYS: set<string> := {
    "contract_version", "binding_id", "source_id", "source_version", "catalog_hash", "executor_definition_id",
    "executor_instance_id", "runner_profile_id", "provider", "adapter", "capabilities"}

  datatype Binding = Binding(
    bindingId: string,
    sourceId: string,
    sourceVersion: int,
    catalogHash: string,
    executorDefinitionId: string,
    executorInstanceId: string,
    runnerProfileId: string,
    provider: string,
    adapter: string,
    capabilities: seq<string>)

  /** The snapshot without its own digest. */
  function Snapshot(data: Dict): Dict {
    data - {"binding_id"}
  }

  function BindingId(sha: string -> string, data: Dict): string {
    "sha256:" + sha(Print(Obj(Snapshot(data))))
  }

  predicate LabelAt(data: Dict, key: string) {
    IsLabel(Get(data, key))
  }

  predicate LabelsOk(data: Dict) {
    && LabelAt(data, "source_id") && LabelAt(data, "executor_definition_id")
    && LabelAt(data, "executor_instance_id") && LabelAt(data, "runner_profile_id")
    && LabelAt(data, "provider") && LabelAt(data, "adapter")
  }

  /** What a binding snapshot has to be, its capabilities apart. */
  predicate FieldsOk(data: Dict) {
    && Get(data, "contract_version") == Num(1)
    && Get(data, "binding_id").Str? && IsDigest(Get(data, "binding_id").s)
    && Get(data, "source_version").Num? && Get(data, "source_version").n >= 0
    && Get(data, "catalog_hash").Str? && IsSha(Get(data, "catalog_hash").s)
    && LabelsOk(data)
  }

  ghost predicate IsBinding(sha: string -> string, v: Json) {
    && v.Obj? && v.fields.Keys == BINDING_KEYS && FieldsOk(v.fields)
    && IsCapabilityList(Get(v.fields, "capabilities"))
    && Get(v.fields, "binding_id") == Str(BindingId(sha, v.fields))
  }

  function TextAt(data: Dict, key: string): string {
    if Get(data, key).Str? then Get(data, key).s else ""
  }

  /** The binding says what the snapshot says. */
  ghost predicate Describes(b: Binding, data: Dict) {
    && Get(data, "binding_id") == Str(b.bindingId) && Get(data, "source_id") == Str(b.sourceId)
    && Get(data, "source_version") == Num(b.sourceVersion) && Get(data, "catalog_hash") == Str(b.catalogHash)
    && Get(data, "executor_definition_id") == Str(b.executorDefinitionId)
    && Get(data, "executor_instance_id") == Str(b.executorInstanceId)
    && Get(data, "runner_profile_id") == Str(b.runnerProfileId)
    && Get(data, "provider") == Str(b.provider) && Get(data, "adapter") == Str(b.adapter)
  }

  predicate Lists(v: Json, texts: seq<string>) {
    v.Arr? && |v.items| == |texts| && forall i :: 0 <= i < |texts| ==> v.items[i] == Str(texts[i])
  }

  function BindingOf(data: Dict, capabilities: seq<string>): Binding
    requires FieldsOk(data)
  {
    Binding(TextAt(data, "binding_id"), TextAt(data, "source_id"), Get(data, "source_version").n,
            TextAt(data, "catalog_hash"), TextAt(data, "executor_definition_id"),
            TextAt(data, "executor_instance_id"), TextAt(data, "runner_profile_id"), TextAt(data, "provider"),
            TextAt(data, "adapter"), capabilities)
  }

  lemma BindingOfDescribes(data: Dict, capabilities: seq<string>)
    requires FieldsOk(data)
    ensures Describes(BindingOf(data, capabilities), data) && BindingOf(data, capabilities).capabilities == capabilities
  {
    hide Get, IsDigest, IsSha, IsLabelText, Strip;
  }

  /** `parse_executor_binding` */
  method ParseBinding(sha: string -> string, v: Json) returns (r: Result<Binding>)
    ensures r.Success? <==> IsBinding(sha, v)
    ensures r.Success? ==> Describes(r.value, v.fields) && Lists(Get(v.fields, "capabilities"), r.value.capabilities)
  {
    hide FieldsOk, IsCapabilityList, BindingId, Describes, BindingOf;
    if !v.Obj? || v.fields.Keys != BINDING_KEYS || !FieldsOk(v.fields) {
      return Failure;
    }
    var capabilities := ValidateCapabilities(Get(v.fields, "capabilities"));
    if capabilities.Failure? || Get(v.fields, "binding_id") != Str(BindingId(sha, v.fields)) {
      return Failure;
    }
    BindingOfDescribes(v.fields, capabilities.value);
    return Success(BindingOf(v.fields, capabilities.value));
  }

  /** A binding for this agent, as both instance and runner profile, and for
      its adapter. */
  ghost predicate BindsTo(sha: string -> string, v: Json, agentId: string, adapter: string) {
    && IsBinding(sha, v)
    && Get(v.fields, "executor_instance_id") == Str(agentId)
    && Get(v.fields, "runner_profile_id") == Str(agentId)
    && Get(v.fields, "adapter") == Str(adapter)
  }

  lemma NullBindsNothing(sha: string -> string, agentId: string, adapter: string)
    ensures !BindsTo(sha, Null, agentId, adapter)
  {
  }

  lemma BindsToMeans(sha: string -> string, v: Json, agentId: string, adapter: string)
    requires BindsTo(sha, v, agentId, adapter)
    ensures v.Obj? && Get(v.fields, "executor_instance_id") == Str(agentId)
    ensures Get(v.fields, "runner_profile_id") == Str(agentId)
  {
    hide FieldsOk, IsCapabilityList, BindingId;
  }

  /** `validate_executor_binding`; a null snapshot stands for an untyped job. */
  method ValidateBinding(sha: string -> string, v: Json, agentId: string, adapter: string)
    returns (r: Result<Option<Binding>>)
    ensures r.Success? <==> v.Null? || BindsTo(sha, v, agentId, adapter)
    ensures r.Success? ==> (r.value.None? <==> v.Null?)
    ensures r.Success? && r.value.Some? ==> Describes(r.value.value, v.fields)
  {
    hide IsBinding;
    if v.Null? {
      return Success(None);
    }
    var binding := ParseBinding(sha, v);
    if binding.Failure? || binding.value.executorInstanceId != agentId || binding.value.runnerProfileId != agentId
       || binding.value.adapter != adapter {
      return Failure;
    }
    return Success(Some(binding.value));
  }

  /** The digest fixes the binding: two snapshots with one id are one snapshot. */
  lemma BindingIdCommits(sha: string -> string, a: Json, b: Json)
    requires Injective(sha) && IsBinding(sha, a) && IsBinding(sha, b)
    requires Get(a.fields, "binding_id") == Get(b.fields, "binding_id")
    ensures a == b
  {
    hide Print, FieldsOk, IsCapabilityList;
    var x, y := Snapshot(a.fields), Snapshot(b.fields);
    assert BindingId(sha, a.fields)[7..] == sha(Print(Obj(x))) && BindingId(sha, b.fields)[7..] == sha(Print(Obj(y)));
    DigestCommits(sha, Obj(x), Obj(y));
    SameSnapshot(a.fields, b.fields);
  }

  lemma SameSnapshot(a: Dict, b: Dict)
    requires Snapshot(a) == Snapshot(b) && Get(a, "binding_id") == Get(b, "binding_id")
    requires "binding_id" in a && "binding_id" in b
    ensures a == b
  {
    forall k ensures k in a <==> k in b {
      assert k != "binding_id" ==> (k in a <==> k in Snapshot(a)) && (k in b <==> k in Snapshot(b));
    }
    forall k | k in a ensures a[k] == b[k] {
      assert k != "binding_id" ==> a[k] == Snapshot(a)[k] && b[k] == Snapshot(b)[k];
    }
    assert a.Keys == b.Keys;
  }

  // ----- which snapshots are accepted -----

  /** The snapshot of a binding, as the server writes it, without its digest. */
  function Unsigned(b: Binding): Dict {
    map["contract_version" := Num(1),
        "source_id" := Str(b.sourceId),
        "source_version" := Num(b.sourceVersion),
        "catalog_hash" := Str(b.catalogHash),
        "executor_definition_id" := Str(b.executorDefinitionId),
        "executor_instance_id" := Str(b.executorInstanceId),
        "runner_profile_id" := Str(b.runnerProfileId),
        "provider" := Str(b.provider),
        "adapter" := Str(b.adapter),
        "capabilities" := Listed(b.capabilities)]
  }

  function Listed(texts: seq<string>): Json {
    Arr(seq(|texts|, i requires 0 <= i < |texts| => Str(texts[i])))
  }

  function BindingDict(b: Binding): Dict {
    Unsigned(b)["binding_id" := Str(b.bindingId)]
  }

  predicate LabelOk(s: string) {
    s == Strip(s) && |s| <= 64 && IsLabelText(s)
  }

  ghost predicate CapabilitiesOk(texts: seq<string>) {
    && |texts| <= 32 && (forall i :: 0 <= i < |texts| ==> LabelOk(texts[i]))
    && StrictlySorted(texts)
  }

  ghost predicate BindingOk(b: Binding) {
    && LabelOk(b.sourceId) && b.sourceVersion >= 0 && IsSha(b.catalogHash)
    && LabelOk(b.executorDefinitionId) && LabelOk(b.executorInstanceId) && LabelOk(b.runnerProfileId)
    && LabelOk(b.provider) && LabelOk(b.adapter) && CapabilitiesOk(b.capabilities)
  }

  lemma ListedLooksUp(texts: seq<string>)
    ensures IsCapabilityList(Listed(texts)) <==> CapabilitiesOk(texts)
    ensures forall others :: Listed(others) == Listed(texts) ==> others == texts
  {
    hide Strip, IsLabelText, Less;
    var v := Listed(texts);
    assert forall i :: 0 <= i < |texts| ==> v.items[i] == Str(texts[i]);
    if IsCapabilityList(v) {
      forall i, j | 0 <= i < j < |texts| ensures Less(texts[i], texts[j]) {
        assert Before(v.items[i], v.items[j]);
      }
    }
    forall others | Listed(others) == v ensures others == texts {
      assert forall i :: 0 <= i < |others| ==> v.items[i] == Str(others[i]);
    }
  }

  lemma BindingDictLooksUp(b: Binding)
    ensures var d := BindingDict(b);
            && d.Keys == BINDING_KEYS && Describes(b, d) && Get(d, "contract_version") == Num(1)
            && Get(d, "capabilities") == Listed(b.capabilities)
  {
    hide Listed;
  }

  lemma UnsignedIsSnapshot(b: Binding)
    ensures Snapshot(BindingDict(b)) == Unsigned(b)
  {
    hide Listed;
    assert "binding_id" !in Unsigned(b);
  }

  /** The round trip, for exactly the well-formed bindings under their own
      digest: a snapshot the server writes for one is accepted. */
  lemma BindingRoundTrip(sha: string -> string, b: Binding)
    ensures IsBinding(sha, Obj(BindingDict(b))) <==>
            BindingOk(b) && IsDigest(b.bindingId) && b.bindingId == "sha256:" + sha(Print(Obj(Unsigned(b))))
  {
    hide Print, BindingDict, Unsigned, Listed, IsCapabilityList, CapabilitiesOk, IsDigest, IsSha, Strip, IsLabelText;
    BindingDictLooksUp(b);
    UnsignedIsSnapshot(b);
    ListedLooksUp(b.capabilities);
  }

  /** And nothing else is: every accepted snapshot is what a binding writes. */
  lemma BindingIsWritten(sha: string -> string, v: Json) returns (b: Binding)
    requires IsBinding(sha, v)
    ensures v.fields == BindingDict(b)
  {
    hide IsDigest, IsSha, IsLabel, BindingId, BindingDict, Describes, IsCapabilityList, BindingOf;
    var d := v.fields;
    var texts := CapabilityTexts(Get(d, "capabilities"));
    b := BindingOf(d, texts);
    BindingOfDescribes(d, texts);
    BindingDictLooksUp(b);
    SameSnapshots(d, BindingDict(b), b);
  }

  lemma CapabilityTexts(v: Json) returns (texts: seq<string>)
    requires IsCapabilityList(v)
    ensures v == Listed(texts)
  {
    hide Strip, IsLabelText, Less;
    texts := seq(|v.items|, i requires 0 <= i < |v.items| => if v.items[i].Str? then v.items[i].s else "");
    assert v.items == Listed(texts).items;
  }

  lemma SameSnapshots(a: Dict, b: Dict, c: Binding)
    requires a.Keys == BINDING_KEYS == b.Keys && Describes(c, a) && Describes(c, b)
    requires Get(a, "contract_version") == Get(b, "contract_version")
    requires Get(a, "capabilities") == Get(b, "capabilities")
    ensures a == b
  {
    forall k | k in BINDING_KEYS ensures a[k] == b[k] {
      assert Get(a, k) == Get(b, k);
    }
  }
}
