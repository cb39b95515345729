/** multinexus/registry_authority.py: the two loaders that feed the parity
    check, and the check itself. */
module RosterLoading {
  import opened Prelude
  import opened PyText
  import opened StringOrder
  import opened CanonicalJson
  import opened Labels
  import opened RosterParity

  const ROOT_KEYS: set<string> :=
    {"registry", "agents", "external_agents", "executor_definitions", "capacity_registry", "executor_capacities"}
  const ENTRY_KEYS: set<string> :=
    {"id", "display_name", "discord_user_id", "executor_definition_id", "runner_profile_id", "enabled"}
  /** Python refuses to convert longer texts. */
  const MAX_INT_DIGITS: nat := 4300

  const DEFINITION_KEYS: set<string> := {"id", "provider", "adapter", "capabilities"}

  datatype Definition = Definition(id: string, provider: string, adapter: string, capabilities: seq<string>)

  datatype Binding = Binding(agentId: string, definitionId: string, runnerProfileId: string, enabled: bool)

  datatype Authority = Authority(entries: Roster, definitions: seq<Definition>, bindings: seq<Binding>)

  /** A table of one of the two agent sections. */
  datatype Row = Row(agentType: string, table: Json)

  function Field(raw: Json, name: string): Json {
    if raw.Obj? then Get(raw.fields, name) else Null
  }

  /** `str(v)`; `other` stands for the rendering of lists and tables. */
  function PyStr(other: Json -> string, v: Json): string {
    match v
    case Str(s) => s
    case Num(n) => PrintInt(n)
    case Bool(b) => if b then "True" else "False"
    case Null => "None"
    case _ => other(v)
  }

  // ----- the fields of an agent -----

  function NormalizeId(other: Json -> string, v: Json): Result<string> {
    if v.Null? || Strip(PyStr(other, v)) == "" then Failure else Success(Strip(PyStr(other, v)))
  }

  function DisplayName(other: Json -> string, v: Json, id: string): string {
    if v.Null? || Strip(PyStr(other, v)) == "" then id else Strip(PyStr(other, v))
  }

  /** A positive decimal number in ASCII digits, short enough for `int`. */
  predicate IsDiscordId(s: string) {
    |s| <= MAX_INT_DIGITS && (forall c :: c in s ==> IsDigit(c)) && exists i :: 0 <= i < |s| && s[i] != '0'
  }

  function DiscordId(other: Json -> string, v: Json, requireString: bool): Result<string> {
    var raw := PyStr(other, v);
    if v.Null? || (requireString && !v.Str?) || raw != Strip(raw) || !IsDiscordId(raw) then Failure
    else Success(raw)
  }

  function PlainEntry(other: Json -> string, row: Row, id: string, discord: string): AgentEntry
    requires row.table.Obj?
  {
    AgentEntry(id, DisplayName(other, Get(row.table.fields, "display_name"), id), discord, row.agentType, None, None)
  }

  /** One iteration of the authority's entry loop, duplicates apart. */
  function ReadAgent(other: Json -> string, row: Row, known: set<string>): Result<(AgentEntry, Option<Binding>)> {
    var table := if row.table.Obj? then row.table.fields else map[];
    :- Check(row.table.Obj? && table.Keys <= ENTRY_KEYS);
    var id :- NormalizeId(other, Get(table, "id"));
    var discord :- DiscordId(other, Get(table, "discord_user_id"), true);
    var plain := PlainEntry(other, row, id, discord);
    var definition, profile := Get(table, "executor_definition_id"), Get(table, "runner_profile_id");
    var enabled := if "enabled" in table then table["enabled"] else Bool(true);
    :- Check(enabled.Bool?);
    if row.agentType == "external" then
      :- Check(definition.Null? && profile.Null? && "enabled" !in table);
      Success((plain, None))
    else if definition.Null? && profile.Null? then
      Success((plain, None))
    else
      var d :- BoundedLabel(definition);
      var p :- BoundedLabel(profile);
      :- Check(d in known && p == id);
      Success((plain.(executorDefinitionId := Some(d), runnerProfileId := Some(p)), Some(Binding(id, d, p, enabled.b))))
  }

  /** One iteration of the runtime projection's loop, duplicates apart. */
  function ReadRuntimeAgent(other: Json -> string, row: Row): Result<AgentEntry> {
    var table := if row.table.Obj? then row.table.fields else map[];
    :- Check(row.table.Obj?);
    var id :- NormalizeId(other, Get(table, "id"));
    var discord :- DiscordId(other, Get(table, "discord_user_id"), false);
    Success(PlainEntry(other, row, id, discord))
  }

  // ----- what the readers accept -----

  /** A positive decimal number. */
  lemma DiscordIdMeans(s: string)
    ensures IsDiscordId(s) <==> |s| <= 4300 && (forall c :: c in s ==> IsDigit(c)) && Decimal(s) > 0
  {
    if forall c :: c in s ==> IsDigit(c) {
      DecimalPositive(s);
    }
  }

  lemma {:induction false} DecimalPositive(s: string)
    requires forall c :: c in s ==> IsDigit(c)
    ensures Decimal(s) >= 0 && (Decimal(s) > 0 <==> exists i :: 0 <= i < |s| && s[i] != '0')
  {
    if s != "" {
      var front, last := s[..|s| - 1], s[|s| - 1];
      assert last in s;
      DecimalPositive(front);
      if Decimal(s) > 0 {
        if last == '0' {
          var i :| 0 <= i < |front| && front[i] != '0';
          assert s[i] != '0';
        } else {
          assert s[|s| - 1] != '0';
        }
      }
      if i :| 0 <= i < |s| && s[i] != '0' {
        assert i < |front| ==> front[i] != '0';
      }
    }
  }

  /** A value that names something, as text. */
  predicate Named(other: Json -> string, v: Json) {
    v != Null && Strip(PyStr(other, v)) != ""
  }

  /** What every accepted row says: an id, a display name that defaults to it, and
      a positive number as Discord id. */
  ghost predicate Says(other: Json -> string, row: Row, e: AgentEntry) {
    && row.table.Obj?
    && var t := row.table.fields;
    && Named(other, Get(t, "id")) && e.id == Strip(PyStr(other, Get(t, "id")))
    && e.displayName == (if Named(other, Get(t, "display_name")) then Strip(PyStr(other, Get(t, "display_name")))
                         else e.id)
    && Get(t, "discord_user_id") != Null && e.discordUserId == PyStr(other, Get(t, "discord_user_id"))
    && IsDiscordId(e.discordUserId) && e.agentType == row.agentType
  }

  /** A managed row names a definition and itself as the profile, or neither; any
      other row has no executor field at all. */
  ghost predicate Employs(row: Row, known: set<string>, e: AgentEntry, binding: Option<Binding>)
    requires row.table.Obj?
  {
    var t := row.table.fields;
    var definition, profile := Get(t, "executor_definition_id"), Get(t, "runner_profile_id");
    && ("enabled" in t ==> t["enabled"].Bool?)
    && (row.agentType == "external" ==> "enabled" !in t && definition == Null)
    && if definition == Null then
         profile == Null && e.executorDefinitionId.None? && e.runnerProfileId.None? && binding.None?
       else
         && IsLabel(definition) && IsLabel(profile) && definition.s in known && profile.s == e.id
         && e.executorDefinitionId == Some(definition.s) && e.runnerProfileId == Some(profile.s)
         && binding == Some(Binding(e.id, definition.s, profile.s, "enabled" !in t || t["enabled"] == Bool(true)))
  }

  lemma DigitsAreTight(s: string)
    requires IsDiscordId(s)
    ensures Strip(s) == s
  {
    assert s[0] in s && s[|s| - 1] in s;
    StripFixed(s);
  }

  lemma ReadRuntimeMeans(other: Json -> string, row: Row, e: AgentEntry)
    ensures ReadRuntimeAgent(other, row) == Success(e) <==>
            Says(other, row, e) && e.executorDefinitionId.None? && e.runnerProfileId.None?
  {
    hide Strip, PyStr, IsDiscordId, Get;
    forall s | IsDiscordId(s) ensures Strip(s) == s {
      DigitsAreTight(s);
    }
  }

  /** A row of the authority is read as an entry and its binding exactly if it
      says so, with the Discord id as text and no unknown field. */
  lemma ReadAgentMeans(other: Json -> string, row: Row, known: set<string>, e: AgentEntry, binding: Option<Binding>)
    ensures ReadAgent(other, row, known) == Success((e, binding)) <==>
            && Says(other, row, e) && row.table.fields.Keys <= ENTRY_KEYS
            && Get(row.table.fields, "discord_user_id").Str?
            && Employs(row, known, e, binding)
  {
    hide Strip, IsDiscordId, Get, IsLabelText;
    forall s | IsDiscordId(s) ensures Strip(s) == s {
      DigitsAreTight(s);
    }
  }

  // ----- rows without duplicates -----

  ghost predicate NoDuplicates(entries: Roster) {
    && UniqueIds(entries)
    && forall i, j :: 0 <= i < j < |entries| ==> entries[i].discordUserId != entries[j].discordUserId
  }

  /** The entries are the rows read one by one, in order. */
  ghost predicate ReadsAs(read: Row -> Result<AgentEntry>, rows: seq<Row>, entries: Roster) {
    |entries| == |rows| && forall i :: 0 <= i < |rows| ==> read(rows[i]) == Success(entries[i])
  }

  /** Every row reads and no two share an id or a Discord id. */
  ghost predicate Clean(read: Row -> Result<AgentEntry>, rows: seq<Row>) {
    && (forall i :: 0 <= i < |rows| ==> read(rows[i]).Success?)
    && (forall i, j :: 0 <= i < j < |rows| ==>
          && read(rows[i]).value.id != read(rows[j]).value.id
          && read(rows[i]).value.discordUserId != read(rows[j]).value.discordUserId)
  }

  /** The duplicate tables of the entries accepted so far. */
  ghost predicate Seen(entries: Roster, ids: set<string>, discordIds: set<string>) {
    && (forall id :: id in ids <==> exists i :: 0 <= i < |entries| && entries[i].id == id)
    && (forall d :: d in discordIds <==> exists i :: 0 <= i < |entries| && entries[i].discordUserId == d)
  }

  lemma SeeOne(entries: Roster, ids: set<string>, discordIds: set<string>, e: AgentEntry)
    requires Seen(entries, ids, discordIds)
    ensures Seen(entries + [e], ids + {e.id}, discordIds + {e.discordUserId})
    ensures NoDuplicates(entries) && e.id !in ids && e.discordUserId !in discordIds ==> NoDuplicates(entries + [e])
    ensures e.id in ids || e.discordUserId in discordIds ==> !NoDuplicates(entries + [e])
  {
    forall id ensures id in ids + {e.id} <==> exists i :: 0 <= i < |entries + [e]| && (entries + [e])[i].id == id {
      if id == e.id {
        assert (entries + [e])[|entries|].id == id;
      } else if id in ids {
        var i :| 0 <= i < |entries| && entries[i].id == id;
        assert (entries + [e])[i].id == id;
      }
    }
    SeeDiscord(entries, discordIds, e);
    if e.id in ids {
      var i :| 0 <= i < |entries| && entries[i].id == e.id;
      assert (entries + [e])[i].id == (entries + [e])[|entries|].id;
    }
  }

  lemma SeeDiscord(entries: Roster, discordIds: set<string>, e: AgentEntry)
    requires forall d :: d in discordIds <==> exists i :: 0 <= i < |entries| && entries[i].discordUserId == d
    ensures forall d :: d in discordIds + {e.discordUserId}
                        <==> exists i :: 0 <= i < |entries + [e]| && (entries + [e])[i].discordUserId == d
    ensures e.discordUserId in discordIds ==> !NoDuplicates(entries + [e])
  {
    forall d ensures d in discordIds + {e.discordUserId}
                     <==> exists i :: 0 <= i < |entries + [e]| && (entries + [e])[i].discordUserId == d {
      if d == e.discordUserId {
        assert (entries + [e])[|entries|].discordUserId == d;
      } else if d in discordIds {
        var i :| 0 <= i < |entries| && entries[i].discordUserId == d;
        assert (entries + [e])[i].discordUserId == d;
      }
    }
    if e.discordUserId in discordIds {
      var i :| 0 <= i < |entries| && entries[i].discordUserId == e.discordUserId;
      assert (entries + [e])[i].discordUserId == (entries + [e])[|entries|].discordUserId;
    }
  }

  /** Rows are clean exactly when they read as some roster without duplicates. */
  lemma CleanReads(read: Row -> Result<AgentEntry>, rows: seq<Row>, entries: Roster)
    requires ReadsAs(read, rows, entries)
    ensures Clean(read, rows) <==> NoDuplicates(entries)
  {
    if Clean(read, rows) {
      assert forall i, j :: 0 <= i < j < |rows| ==> read(rows[i]).value.id != read(rows[j]).value.id;
    }
  }

  lemma CleanPrefix(read: Row -> Result<AgentEntry>, rows: seq<Row>, i: nat)
    requires i < |rows|
    ensures Clean(read, rows) ==> Clean(read, rows[..i + 1]) && read(rows[i]).Success?
    ensures Clean(read, rows[..i + 1]) ==> Clean(read, rows[..i]) && read(rows[i]).Success?
  {
    assert rows[..i + 1][i] == rows[i];
    assert rows[..i + 1][..i] == rows[..i];
  }

  // ----- loading the authority -----

  /** `data.get(section)`: absent, or a list of tables. */
  function Section(data: Dict, section: string, agentType: string): Result<seq<Row>> {
    var v := Get(data, section);
    if v.Null? then Success([])
    else if v.Arr? then Success(seq(|v.items|, i requires 0 <= i < |v.items| => Row(agentType, v.items[i])))
    else Failure
  }

  function Rows(data: Dict): Result<seq<Row>> {
    var managed :- Section(data, "agents", "managed");
    var external :- Section(data, "external_agents", "external");
    Success(managed + external)
  }

  predicate HeaderOk(other: Json -> string, data: Dict) {
    && data.Keys <= ROOT_KEYS
    && var registry := Get(data, "registry");
    && registry.Obj? && registry.fields.Keys <= {"id", "version"}
    && "id" in registry.fields && IsLabel(Str(Strip(PyStr(other, registry.fields["id"]))))
    && var version := Get(registry.fields, "version");
    && version.Num? && version.n >= 0
  }

  method CheckHeader(other: Json -> string, data: Dict) returns (ok: bool)
    ensures ok <==> HeaderOk(other, data)
  {
    hide Strip, IsLabelText;
    var registry := Get(data, "registry");
    if !(data.Keys <= ROOT_KEYS) || !registry.Obj? || !(registry.fields.Keys <= {"id", "version"}) {
      return false;
    }
    if "id" !in registry.fields || !IsLabel(Str(Strip(PyStr(other, registry.fields["id"])))) {
      return false;
    }
    var version := Get(registry.fields, "version");
    return version.Num? && version.n >= 0;
  }

  ghost predicate IsDefinition(raw: Json) {
    && raw.Obj? && raw.fields.Keys <= DEFINITION_KEYS
    && IsLabel(Get(raw.fields, "id")) && IsLabel(Get(raw.fields, "provider")) && IsLabel(Get(raw.fields, "adapter"))
    && ("capabilities" in raw.fields ==> IsCapabilityList(raw.fields["capabilities"]))
  }

  method ReadDefinition(raw: Json) returns (r: Result<Definition>)
    ensures r.Success? <==> IsDefinition(raw)
    ensures r.Success? ==>
      Str(r.value.id) == Get(raw.fields, "id") && Str(r.value.adapter) == Get(raw.fields, "adapter")
  {
    hide IsLabel, IsCapabilityList;
    if !raw.Obj? || !(raw.fields.Keys <= DEFINITION_KEYS) {
      return Failure;
    }
    var id, provider := BoundedLabel(Get(raw.fields, "id")), BoundedLabel(Get(raw.fields, "provider"));
    var adapter := BoundedLabel(Get(raw.fields, "adapter"));
    LabelIsText(Get(raw.fields, "id"));
    LabelIsText(Get(raw.fields, "provider"));
    LabelIsText(Get(raw.fields, "adapter"));
    if id.Failure? || provider.Failure? || adapter.Failure? {
      return Failure;
    }
    var capabilities := Success([]);
    if "capabilities" in raw.fields {
      capabilities := ValidateCapabilities(raw.fields["capabilities"]);
    }
    if capabilities.Failure? {
      return Failure;
    }
    return Success(Definition(id.value, provider.value, adapter.value, capabilities.value));
  }

  ghost predicate AreDefinitions(items: seq<Json>, n: nat)
    requires n <= |items|
  {
    && (forall i :: 0 <= i < n ==> IsDefinition(items[i]))
    && (forall i, j :: 0 <= i < j < n ==> Field(items[i], "id") != Field(items[j], "id"))
  }

  function DefinitionIds(definitions: seq<Definition>): (ids: set<string>)
    ensures forall d :: d in definitions ==> d.id in ids
    ensures forall id :: id in ids ==> exists i :: 0 <= i < |definitions| && definitions[i].id == id
  {
    set d | d in definitions :: d.id
  }

  method LoadDefinitions(items: seq<Json>) returns (r: Result<seq<Definition>>)
    ensures r.Success? <==> AreDefinitions(items, |items|)
    ensures r.Success? ==> |r.value| == |items|
    ensures r.Success? ==> forall i :: 0 <= i < |items| ==>
      Str(r.value[i].id) == Field(items[i], "id") && Str(r.value[i].adapter) == Field(items[i], "adapter")
  {
    hide IsLabel, IsCapabilityList;
    var seen: set<string> := {};
    var definitions: seq<Definition> := [];
    for i := 0 to |items|
      invariant |definitions| == i && AreDefinitions(items, i)
      invariant forall j :: 0 <= j < i ==>
        Str(definitions[j].id) == Field(items[j], "id") && Str(definitions[j].adapter) == Field(items[j], "adapter")
      invariant forall id :: id in seen <==> exists j :: 0 <= j < i && definitions[j].id == id
    {
      var definition := ReadDefinition(items[i]);
      if definition.Failure? {
        return Failure;
      }
      if definition.value.id in seen {
        var j :| 0 <= j < i && definitions[j].id == definition.value.id;
        assert Field(items[j], "id") == Field(items[i], "id");
        return Failure;
      }
      seen := seen + {definition.value.id};
      definitions := definitions + [definition.value];
    }
    return Success(definitions);
  }

  /** `data.get("executor_definitions", [])`; a table or text there yields
      strings, which are no definitions, and any other value cannot be iterated. */
  function DefinitionItems(data: Dict): Result<seq<Json>> {
    if "executor_definitions" !in data then Success([]) else Iterate(data["executor_definitions"])
  }

  /** `for item in v` */
  function Iterate(v: Json): Result<seq<Json>> {
    match v
    case Arr(items) => Success(items)
    case Str(s) => Success(seq(|s|, i requires 0 <= i < |s| => Str([s[i]])))
    case Obj(fields) =>
      var keys := SortedKeys(fields.Keys);
      Success(seq(|keys|, i requires 0 <= i < |keys| => Str(keys[i])))
    case _ => Failure
  }

  function AgentReader(other: Json -> string, known: set<string>): Row -> Result<AgentEntry> {
    (row: Row) => var read :- ReadAgent(other, row, known); Success(read.0)
  }

  function RuntimeReader(other: Json -> string): Row -> Result<AgentEntry> {
    (row: Row) => ReadRuntimeAgent(other, row)
  }

  /** The bindings are those of the rows, in order, and each belongs to an
      entry and names a known definition. */
  ghost predicate BoundTo(bindings: seq<Binding>, entries: Roster, known: set<string>) {
    forall k :: 0 <= k < |bindings| ==> IsBinding(bindings[k], entries, known)
  }

  ghost predicate IsBinding(b: Binding, entries: Roster, known: set<string>) {
    && b.definitionId in known && b.runnerProfileId == b.agentId
    && exists i :: 0 <= i < |entries| && entries[i].id == b.agentId
                   && entries[i].executorDefinitionId == Some(b.definitionId)
  }

  /** Exactly the entries with an executor have a binding. */
  ghost predicate Covers(bindings: seq<Binding>, entries: Roster) {
    forall i :: 0 <= i < |entries| && entries[i].executorDefinitionId.Some? ==>
      exists k :: 0 <= k < |bindings| && bindings[k].agentId == entries[i].id
  }

  lemma ReadAgentBinds(other: Json -> string, row: Row, known: set<string>, entries: Roster)
    requires ReadAgent(other, row, known).Success?
    ensures var (e, binding) := ReadAgent(other, row, known).value;
            && (binding.Some? <==> e.executorDefinitionId.Some?)
            && (binding.Some? ==> IsBinding(binding.value, entries + [e], known) && binding.value.agentId == e.id)
            && e.agentType == row.agentType
  {
    hide IsLabel, NormalizeId, DiscordId, DisplayName;
    var e := ReadAgent(other, row, known).value.0;
    assert (entries + [e])[|entries|] == e;
  }

  lemma BindingStays(bindings: seq<Binding>, entries: Roster, known: set<string>, e: AgentEntry)
    requires BoundTo(bindings, entries, known)
    ensures BoundTo(bindings, entries + [e], known)
  {
    forall k | 0 <= k < |bindings| ensures IsBinding(bindings[k], entries + [e], known) {
      assert IsBinding(bindings[k], entries, known);
      var i :| 0 <= i < |entries| && entries[i].id == bindings[k].agentId
               && entries[i].executorDefinitionId == Some(bindings[k].definitionId);
      assert (entries + [e])[i] == entries[i];
    }
  }

  lemma CoverOne(bindings: seq<Binding>, entries: Roster, e: AgentEntry, binding: Option<Binding>)
    requires Covers(bindings, entries)
    requires e.executorDefinitionId.Some? ==> binding.Some? && binding.value.agentId == e.id
    ensures Covers(if binding.Some? then bindings + [binding.value] else bindings, entries + [e])
  {
    var all := if binding.Some? then bindings + [binding.value] else bindings;
    forall i | 0 <= i < |entries + [e]| && (entries + [e])[i].executorDefinitionId.Some?
      ensures exists k :: 0 <= k < |all| && all[k].agentId == (entries + [e])[i].id
    {
      if i < |entries| {
        var k :| 0 <= k < |bindings| && bindings[k].agentId == entries[i].id;
        assert all[k].agentId == entries[i].id;
      } else {
        assert all[|bindings|].agentId == e.id;
      }
    }
  }

  /** No agent has two bindings. */
  ghost predicate OneEach(bindings: seq<Binding>) {
    forall k, l :: 0 <= k < l < |bindings| ==> bindings[k].agentId != bindings[l].agentId
  }

  lemma NothingRead(known: set<string>)
    ensures Seen([], {}, {}) && NoDuplicates([]) && BoundTo([], [], known) && Covers([], []) && OneEach([])
  {
  }

  lemma BindOne(bindings: seq<Binding>, entries: Roster, known: set<string>, e: AgentEntry, b: Binding,
                ids: set<string>, discordIds: set<string>)
    requires BoundTo(bindings, entries, known) && OneEach(bindings)
    requires IsBinding(b, entries + [e], known) && b.agentId == e.id
    requires Seen(entries, ids, discordIds) && e.id !in ids
    ensures BoundTo(bindings + [b], entries + [e], known) && OneEach(bindings + [b])
  {
    BindingStays(bindings, entries, known, e);
    forall k | 0 <= k < |bindings| ensures bindings[k].agentId in ids {
      assert IsBinding(bindings[k], entries, known);
    }
  }

  method LoadRows(other: Json -> string, rows: seq<Row>, known: set<string>)
    returns (r: Result<(Roster, seq<Binding>)>)
    ensures r.Success? <==> Clean(AgentReader(other, known), rows)
    ensures r.Success? ==> ReadsAs(AgentReader(other, known), rows, r.value.0) && NoDuplicates(r.value.0)
    ensures r.Success? ==> BoundTo(r.value.1, r.value.0, known) && Covers(r.value.1, r.value.0)
    ensures r.Success? ==> OneEach(r.value.1)
  {
    hide ReadAgent, Seen, NoDuplicates, BoundTo, Covers, OneEach, Clean;
    ghost var read := AgentReader(other, known);
    var ids: set<string>, discordIds: set<string> := {}, {};
    var entries: Roster, bindings: seq<Binding> := [], [];
    NothingRead(known);
    for i := 0 to |rows|
      invariant ReadsAs(read, rows[..i], entries)
      invariant Seen(entries, ids, discordIds) && NoDuplicates(entries)
      invariant BoundTo(bindings, entries, known) && Covers(bindings, entries) && OneEach(bindings)
    {
      var row := ReadAgent(other, rows[i], known);
      CleanPrefix(read, rows, i);
      if row.Failure? {
        return Failure;
      }
      var (e, binding) := row.value;
      SeeOne(entries, ids, discordIds, e);
      assert rows[..i + 1][..i] == rows[..i];
      assert ReadsAs(read, rows[..i + 1], entries + [e]);
      CleanReads(read, rows[..i + 1], entries + [e]);
      if e.id in ids || e.discordUserId in discordIds {
        return Failure;
      }
      ReadAgentBinds(other, rows[i], known, entries);
      BindingStays(bindings, entries, known, e);
      CoverOne(bindings, entries, e, binding);
      if binding.Some? {
        BindOne(bindings, entries, known, e, binding.value, ids, discordIds);
        bindings := bindings + [binding.value];
      }
      ids, discordIds := ids + {e.id}, discordIds + {e.discordUserId};
      entries := entries + [e];
    }
    assert rows[..|rows|] == rows;
    CleanReads(read, rows, entries);
    return Success((entries, bindings));
  }

  /** The ids of the definitions a table lists. */
  ghost function KnownIds(items: seq<Json>): set<string> {
    set i | 0 <= i < |items| && Field(items[i], "id").Str? :: Field(items[i], "id").s
  }

  lemma KnownIdsAgree(items: seq<Json>, definitions: seq<Definition>)
    requires AreDefinitions(items, |items|) && |definitions| == |items|
    requires forall i :: 0 <= i < |items| ==> Str(definitions[i].id) == Field(items[i], "id")
    ensures DefinitionIds(definitions) == KnownIds(items)
  {
    hide IsLabel, IsCapabilityList;
    forall id ensures id in DefinitionIds(definitions) <==> id in KnownIds(items) {
      if id in KnownIds(items) {
        var i :| 0 <= i < |items| && Field(items[i], "id") == Str(id);
        assert definitions[i] in definitions;
      }
      if id in DefinitionIds(definitions) {
        var i :| 0 <= i < |definitions| && definitions[i].id == id;
        assert IsDefinition(items[i]);
      }
    }
  }

  /** What the authority file has to be. */
  ghost predicate AuthorityOk(other: Json -> string, data: Dict) {
    && HeaderOk(other, data)
    && DefinitionItems(data).Success?
    && AreDefinitions(DefinitionItems(data).value, |DefinitionItems(data).value|)
    && Rows(data).Success?
    && Clean(AgentReader(other, KnownIds(DefinitionItems(data).value)), Rows(data).value)
  }

  ghost function EntriesOf(read: Row -> Result<AgentEntry>, rows: seq<Row>): (entries: Roster)
    requires Clean(read, rows)
    ensures ReadsAs(read, rows, entries)
  {
    seq(|rows|, i requires 0 <= i < |rows| => read(rows[i]).value)
  }

  lemma OneReading(read: Row -> Result<AgentEntry>, rows: seq<Row>, a: Roster, b: Roster)
    requires ReadsAs(read, rows, a) && ReadsAs(read, rows, b)
    ensures a == b
  {
    forall i | 0 <= i < |a| ensures a[i] == b[i] {
      assert read(rows[i]) == Success(a[i]);
    }
  }

  ghost function AuthorityEntries(other: Json -> string, data: Dict): Roster
    requires AuthorityOk(other, data)
  {
    EntriesOf(AgentReader(other, KnownIds(DefinitionItems(data).value)), Rows(data).value)
  }

  /** The authorities on which the loader raises something other than its own
      error: the loop over the definitions cannot start. */
  predicate CannotIterate(other: Json -> string, data: Dict) {
    HeaderOk(other, data) && DefinitionItems(data).Failure?
  }

  /** How loading ends: the caller catches an AuthorityError only. */
  datatype Loading = Loaded(authority: Authority) | AuthorityError | TypeError

  /** `load_authority` */
  method LoadAuthority(other: Json -> string, data: Dict) returns (r: Loading)
    ensures r.Loaded? <==> AuthorityOk(other, data)
    ensures r.TypeError? <==> CannotIterate(other, data)
    ensures r.Loaded? ==>
      var a := r.authority;
      && a.entries == AuthorityEntries(other, data) && NoDuplicates(a.entries)
      && BoundTo(a.bindings, a.entries, DefinitionIds(a.definitions))
      && Covers(a.bindings, a.entries) && OneEach(a.bindings)
      && Defines(a.definitions, DefinitionItems(data).value)
  {
    hide HeaderOk, IsDefinition, Clean, NoDuplicates, BoundTo, Covers, OneEach, ReadsAs, AgentReader;
    var items, rows := DefinitionItems(data), Rows(data);
    var headerOk := CheckHeader(other, data);
    if !headerOk {
      return AuthorityError;
    }
    if items.Failure? {
      return TypeError;
    }
    var definitions := LoadDefinitions(items.value);
    if definitions.Failure? || rows.Failure? {
      return AuthorityError;
    }
    KnownIdsAgree(items.value, definitions.value);
    var known := DefinitionIds(definitions.value);
    var loaded := LoadRows(other, rows.value, known);
    if loaded.Failure? {
      return AuthorityError;
    }
    OneReading(AgentReader(other, known), rows.value, loaded.value.0, EntriesOf(AgentReader(other, known), rows.value));
    return Loaded(Authority(loaded.value.0, definitions.value, loaded.value.1));
  }

  /** The loaded definitions are the listed ones. */
  ghost predicate Defines(definitions: seq<Definition>, items: seq<Json>) {
    && |definitions| == |items| && AreDefinitions(items, |items|)
    && forall i :: 0 <= i < |items| ==>
      Str(definitions[i].id) == Field(items[i], "id") && Str(definitions[i].adapter) == Field(items[i], "adapter")
  }

  // ----- projecting the runtime roster -----

  /** The rows of the sections that are lists. */
  function LenientRows(data: Dict): seq<Row> {
    var managed, external := Section(data, "agents", "managed"), Section(data, "external_agents", "external");
    (if managed.Success? then managed.value else []) + (if external.Success? then external.value else [])
  }

  ghost predicate RuntimeOk(other: Json -> string, data: Dict) {
    Rows(data).Success? && Clean(RuntimeReader(other), Rows(data).value)
  }

  ghost function RuntimeEntries(other: Json -> string, data: Dict): Roster
    requires RuntimeOk(other, data)
  {
    EntriesOf(RuntimeReader(other), Rows(data).value)
  }

  ghost predicate Noted(entries: Roster, ids: set<string>, discordIds: set<string>) {
    forall i :: 0 <= i < |entries| ==> entries[i].id in ids && entries[i].discordUserId in discordIds
  }

  lemma NoteOne(entries: Roster, ids: set<string>, discordIds: set<string>, e: AgentEntry)
    requires Noted(entries, ids, discordIds) && NoDuplicates(entries)
    requires e.id !in ids && e.discordUserId !in discordIds
    ensures Noted(entries + [e], ids + {e.id}, discordIds + {e.discordUserId}) && NoDuplicates(entries + [e])
  {
  }

  /** The state of the loop while no error has been reported. */
  ghost predicate AllRead(read: Row -> Result<AgentEntry>, rows: seq<Row>, entries: Roster,
                          ids: set<string>, discordIds: set<string>) {
    ReadsAs(read, rows, entries) && Clean(read, rows) && Seen(entries, ids, discordIds)
  }

  lemma ReadOne(read: Row -> Result<AgentEntry>, rows: seq<Row>, i: nat, entries: Roster,
                ids: set<string>, discordIds: set<string>, e: AgentEntry)
    requires i < |rows| && AllRead(read, rows[..i], entries, ids, discordIds) && read(rows[i]) == Success(e)
    ensures e.id !in ids && e.discordUserId !in discordIds ==>
      AllRead(read, rows[..i + 1], entries + [e], ids + {e.id}, discordIds + {e.discordUserId})
    ensures e.id in ids || e.discordUserId in discordIds ==> !Clean(read, rows[..i + 1])
  {
    hide Seen, NoDuplicates, Clean;
    SeeOne(entries, ids, discordIds, e);
    assert rows[..i + 1][..i] == rows[..i];
    assert ReadsAs(read, rows[..i + 1], entries + [e]);
    CleanReads(read, rows[..i], entries);
    CleanReads(read, rows[..i + 1], entries + [e]);
  }

  /** One row of the projection: the entry, unless the row is in error. */
  method ProjectRow(other: Json -> string, row: Row, ids: set<string>, discordIds: set<string>)
    returns (e: Option<AgentEntry>, ids': set<string>, discordIds': set<string>)
    ensures e.Some? <==> ReadRuntimeAgent(other, row).Success?
                         && ReadRuntimeAgent(other, row).value.id !in ids
                         && ReadRuntimeAgent(other, row).value.discordUserId !in discordIds
    ensures e.Some? ==> ReadRuntimeAgent(other, row) == Success(e.value)
                        && ids' == ids + {e.value.id} && discordIds' == discordIds + {e.value.discordUserId}
    ensures e.None? ==> discordIds' == discordIds && ids <= ids'
  {
    hide NormalizeId, DiscordId, PlainEntry;
    ids', discordIds' := ids, discordIds;
    if !row.table.Obj? {
      return None, ids', discordIds';
    }
    var id := NormalizeId(other, Get(row.table.fields, "id"));
    if id.Failure? {
      return None, ids', discordIds';
    }
    PlainEntryIds(other, row, id.value, "");
    if id.value in ids {
      return None, ids', discordIds';
    }
    ids' := ids' + {id.value};
    var discord := DiscordId(other, Get(row.table.fields, "discord_user_id"), false);
    if discord.Failure? || discord.value in discordIds {
      return None, ids', discordIds';
    }
    discordIds' := discordIds' + {discord.value};
    return Some(PlainEntry(other, row, id.value, discord.value)), ids', discordIds';
  }

  lemma PlainEntryIds(other: Json -> string, row: Row, id: string, discord: string)
    requires row.table.Obj?
    ensures forall d :: PlainEntry(other, row, id, d).id == id && PlainEntry(other, row, id, d).discordUserId == d
  {
  }

  /** `project_runtime_roster`: the accepted entries and the number of errors. */
  method ProjectRuntimeRoster(other: Json -> string, data: Dict) returns (entries: Roster, errors: nat)
    ensures NoDuplicates(entries)
    ensures errors == 0 <==> RuntimeOk(other, data)
    ensures errors == 0 ==> entries == RuntimeEntries(other, data)
  {
    hide ReadRuntimeAgent, Seen, NoDuplicates, Clean, AllRead, Noted;
    ghost var read := RuntimeReader(other);
    var rows := LenientRows(data);
    var ids: set<string>, discordIds: set<string> := {}, {};
    errors := if Rows(data).Success? then 0 else 1;
    entries := [];
    NothingProjected(read, rows);
    for i := 0 to |rows|
      invariant NoDuplicates(entries) && Noted(entries, ids, discordIds)
      invariant errors == 0 ==> Rows(data).Success? && AllRead(read, rows[..i], entries, ids, discordIds)
      invariant errors != 0 ==> Rows(data).Failure? || !Clean(read, rows[..i])
    {
      var e, ids', discordIds' := ProjectRow(other, rows[i], ids, discordIds);
      CleanPrefix(read, rows, i);
      if errors == 0 && read(rows[i]).Success? {
        ReadOne(read, rows, i, entries, ids, discordIds, read(rows[i]).value);
      }
      if e.None? {
        errors := errors + 1;
        MoreNoted(entries, ids, ids', discordIds);
      } else {
        NoteOne(entries, ids, discordIds, e.value);
        entries := entries + [e.value];
      }
      ids, discordIds := ids', discordIds';
    }
    assert rows[..|rows|] == rows;
    if errors == 0 {
      AllReadReads(read, rows, entries, ids, discordIds);
      OneReading(read, rows, entries, EntriesOf(read, rows));
    }
  }

  lemma NothingProjected(read: Row -> Result<AgentEntry>, rows: seq<Row>)
    ensures NoDuplicates([]) && Noted([], {}, {}) && AllRead(read, rows[..0], [], {}, {})
  {
  }

  lemma MoreNoted(entries: Roster, ids: set<string>, ids': set<string>, discordIds: set<string>)
    requires Noted(entries, ids, discordIds) && ids <= ids'
    ensures Noted(entries, ids', discordIds)
  {
  }

  lemma AllReadReads(read: Row -> Result<AgentEntry>, rows: seq<Row>, entries: Roster,
                     ids: set<string>, discordIds: set<string>)
    requires AllRead(read, rows, entries, ids, discordIds)
    ensures ReadsAs(read, rows, entries) && Clean(read, rows)
  {
  }

  // ----- the parity check -----

  /** The adapter one runtime table declares, with the id it is filed under. */
  function AdapterRow(other: Json -> string, raw: Json): Option<(string, string)> {
    if !raw.Obj? then None
    else
      var id := if "id" in raw.fields then Strip(PyStr(other, raw.fields["id"])) else "";
      if id != "" && Get(raw.fields, "adapter").Str? then Some((id, Strip(raw.fields["adapter"].s))) else None
  }

  lemma AdapterRowMeans(other: Json -> string, raw: Json, id: string, adapter: string)
    ensures AdapterRow(other, raw) == Some((id, adapter)) <==>
            && raw.Obj? && "id" in raw.fields && id == Strip(PyStr(other, raw.fields["id"])) && id != ""
            && Get(raw.fields, "adapter").Str? && adapter == Strip(Get(raw.fields, "adapter").s)
  {
    hide Strip;
  }

  ghost predicate FiledLast(other: Json -> string, items: seq<Json>, i: int, id: string, adapter: string) {
    && 0 <= i < |items| && AdapterRow(other, items[i]) == Some((id, adapter))
    && forall k :: i < k < |items| ==> AdapterRow(other, items[k]).None? || AdapterRow(other, items[k]).value.0 != id
  }

  lemma {:induction false} AdapterIsLast(other: Json -> string, items: seq<Json>, id: string, adapter: string)
    ensures AdapterOf(other, items, id) == Some(adapter) <==> exists i :: FiledLast(other, items, i, id, adapter)
  {
    hide AdapterRow;
    if items != [] {
      var front, last := items[..|items| - 1], |items| - 1;
      AdapterIsLast(other, front, id, adapter);
      if AdapterRow(other, items[last]).Some? && AdapterRow(other, items[last]).value.0 == id {
        assert AdapterRow(other, items[last]) == Some((id, adapter)) ==> FiledLast(other, items, last, id, adapter);
      } else {
        forall i ensures FiledLast(other, items, i, id, adapter) <==> FiledLast(other, front, i, id, adapter) {
        }
      }
    }
  }

  /** The last row filed under an id wins. */
  function AdapterOf(other: Json -> string, items: seq<Json>, id: string): Option<string> {
    if items == [] then None
    else
      var row := AdapterRow(other, items[|items| - 1]);
      if row.Some? && row.value.0 == id then Some(row.value.1) else AdapterOf(other, items[..|items| - 1], id)
  }

  function AgentItems(data: Dict): Result<seq<Json>> {
    if "agents" !in data then Success([]) else Iterate(data["agents"])
  }

  /** `_runtime_adapter_by_id` */
  method RuntimeAdapters(other: Json -> string, items: seq<Json>) returns (adapters: map<string, string>)
    ensures forall id :: id in adapters <==> AdapterOf(other, items, id).Some?
    ensures forall id :: id in adapters ==> AdapterOf(other, items, id) == Some(adapters[id])
  {
    hide AdapterRow;
    adapters := map[];
    for i := 0 to |items|
      invariant forall id :: id in adapters <==> AdapterOf(other, items[..i], id).Some?
      invariant forall id :: id in adapters ==> AdapterOf(other, items[..i], id) == Some(adapters[id])
    {
      assert items[..i + 1][..i] == items[..i];
      var row := AdapterRow(other, items[i]);
      if row.Some? {
        adapters := adapters[row.value.0 := row.value.1];
      }
    }
    assert items[..|items|] == items;
  }

  datatype ParityError =
    | AuthorityInvalid
    | RuntimeInvalid(count: nat)
    | RosterHashMismatch
    | MissingRuntimeAgent(agentId: string)
    | UnknownDefinition(definitionId: string)
    | AdapterMismatch(agentId: string)

  datatype Parity = Parity(ok: bool, diff: seq<Change>, errors: seq<ParityError>)

  /** The runtime agent uses the adapter of the definition it is bound to. */
  ghost predicate AdapterAgrees(e: AgentEntry, items: seq<Json>, adapter: Option<string>) {
    e.executorDefinitionId.Some? ==>
      && adapter.Some?
      && exists i :: 0 <= i < |items| && IsDefinition(items[i])
           && Field(items[i], "id") == Str(e.executorDefinitionId.value)
           && Field(items[i], "adapter") == Str(adapter.value)
  }

  ghost predicate AdaptersAgree(other: Json -> string, entries: Roster, items: seq<Json>, runtime: seq<Json>) {
    forall i :: 0 <= i < |entries| ==> AdapterAgrees(entries[i], items, AdapterOf(other, runtime, entries[i].id))
  }

  /** `next((d for d in definitions if d.id == id), None)` */
  method FindDefinition(definitions: seq<Definition>, id: string) returns (d: Option<Definition>)
    ensures d.Some? ==> d.value in definitions && d.value.id == id
    ensures d.None? ==> forall i :: 0 <= i < |definitions| ==> definitions[i].id != id
  {
    for i := 0 to |definitions|
      invariant forall j :: 0 <= j < i ==> definitions[j].id != id
    {
      if definitions[i].id == id {
        return Some(definitions[i]);
      }
    }
    return None;
  }

  /** A binding passes when the runtime adapter is its definition's. */
  ghost predicate BindingAgrees(b: Binding, definitions: seq<Definition>, adapter: Option<string>) {
    adapter.Some? && exists i :: 0 <= i < |definitions| && definitions[i].id == b.definitionId
                                 && definitions[i].adapter == adapter.value
  }

  ghost predicate DistinctDefinitions(definitions: seq<Definition>) {
    forall i, j :: 0 <= i < j < |definitions| ==> definitions[i].id != definitions[j].id
  }

  method CheckBinding(b: Binding, definitions: seq<Definition>, adapters: map<string, string>)
    returns (error: Option<ParityError>)
    requires DistinctDefinitions(definitions) && b.definitionId in DefinitionIds(definitions)
    ensures error.None? <==>
      BindingAgrees(b, definitions, if b.agentId in adapters then Some(adapters[b.agentId]) else None)
    ensures error.Some? ==> error.value == MissingRuntimeAgent(b.agentId) || error.value == AdapterMismatch(b.agentId)
  {
    if b.agentId !in adapters {
      return Some(MissingRuntimeAgent(b.agentId));
    }
    var d := FindDefinition(definitions, b.definitionId);
    if d.None? {
      return Some(UnknownDefinition(b.definitionId));
    }
    var i :| 0 <= i < |definitions| && definitions[i] == d.value;
    if adapters[b.agentId] != d.value.adapter {
      return Some(AdapterMismatch(b.agentId));
    }
    return None;
  }

  /** Checking the bindings is checking the entries. */
  lemma BindingsAgree(other: Json -> string, entries: Roster, bindings: seq<Binding>, definitions: seq<Definition>,
                      items: seq<Json>, runtime: seq<Json>)
    requires Defines(definitions, items) && NoDuplicates(entries)
    requires BoundTo(bindings, entries, DefinitionIds(definitions)) && Covers(bindings, entries)
    ensures (forall k :: 0 <= k < |bindings| ==>
               BindingAgrees(bindings[k], definitions, AdapterOf(other, runtime, bindings[k].agentId)))
            <==> AdaptersAgree(other, entries, items, runtime)
  {
    hide AdapterOf, BindingAgrees, AdapterAgrees, IsDefinition;
    if forall k :: 0 <= k < |bindings| ==>
         BindingAgrees(bindings[k], definitions, AdapterOf(other, runtime, bindings[k].agentId))
    {
      forall i | 0 <= i < |entries|
        ensures AdapterAgrees(entries[i], items, AdapterOf(other, runtime, entries[i].id))
      {
        EntryAgrees(other, entries, bindings, definitions, items, runtime, i);
      }
    }
    if AdaptersAgree(other, entries, items, runtime) {
      forall k | 0 <= k < |bindings|
        ensures BindingAgrees(bindings[k], definitions, AdapterOf(other, runtime, bindings[k].agentId))
      {
        BindingFromEntry(other, entries, bindings, definitions, items, runtime, k);
      }
    }
  }

  lemma EntryAgrees(other: Json -> string, entries: Roster, bindings: seq<Binding>, definitions: seq<Definition>,
                    items: seq<Json>, runtime: seq<Json>, i: nat)
    requires Defines(definitions, items) && NoDuplicates(entries) && i < |entries|
    requires BoundTo(bindings, entries, DefinitionIds(definitions)) && Covers(bindings, entries)
    requires forall k :: 0 <= k < |bindings| ==>
               BindingAgrees(bindings[k], definitions, AdapterOf(other, runtime, bindings[k].agentId))
    ensures AdapterAgrees(entries[i], items, AdapterOf(other, runtime, entries[i].id))
  {
    hide AdapterOf, DefinitionIds, IsDefinition;
    if entries[i].executorDefinitionId.Some? {
      var k :| 0 <= k < |bindings| && bindings[k].agentId == entries[i].id;
      assert IsBinding(bindings[k], entries, DefinitionIds(definitions));
      var adapter := AdapterOf(other, runtime, bindings[k].agentId);
      assert BindingAgrees(bindings[k], definitions, adapter);
      var j :| 0 <= j < |definitions| && definitions[j].id == bindings[k].definitionId
               && definitions[j].adapter == adapter.value;
      assert IsDefinition(items[j]) && Field(items[j], "id") == Str(definitions[j].id);
    }
  }

  lemma BindingFromEntry(other: Json -> string, entries: Roster, bindings: seq<Binding>, definitions: seq<Definition>,
                         items: seq<Json>, runtime: seq<Json>, k: nat)
    requires Defines(definitions, items) && k < |bindings|
    requires BoundTo(bindings, entries, DefinitionIds(definitions))
    requires AdaptersAgree(other, entries, items, runtime)
    ensures BindingAgrees(bindings[k], definitions, AdapterOf(other, runtime, bindings[k].agentId))
  {
    hide AdapterOf, DefinitionIds, IsDefinition;
    assert IsBinding(bindings[k], entries, DefinitionIds(definitions));
    var i :| 0 <= i < |entries| && entries[i].id == bindings[k].agentId
             && entries[i].executorDefinitionId == Some(bindings[k].definitionId);
    var adapter := AdapterOf(other, runtime, entries[i].id);
    assert AdapterAgrees(entries[i], items, adapter);
    var j :| 0 <= j < |items| && IsDefinition(items[j]) && Field(items[j], "id") == Str(bindings[k].definitionId)
             && Field(items[j], "adapter") == Str(adapter.value);
    assert definitions[j].id == bindings[k].definitionId;
  }

  /** What a passing check means. */
  ghost predicate InParity(other: Json -> string, authority: Dict, runtime: Dict)
    requires AuthorityOk(other, authority) && AgentItems(runtime).Success?
  {
    && RuntimeOk(other, runtime)
    && SameRoster(AuthorityEntries(other, authority), RuntimeEntries(other, runtime))
    && AdaptersAgree(other, AuthorityEntries(other, authority), DefinitionItems(authority).value,
                     AgentItems(runtime).value)
  }

  /** The last loop of `verify_parity`. */
  method CheckBindings(bindings: seq<Binding>, definitions: seq<Definition>, adapters: map<string, string>)
    returns (errors: seq<ParityError>)
    requires DistinctDefinitions(definitions)
    requires forall k :: 0 <= k < |bindings| ==> bindings[k].definitionId in DefinitionIds(definitions)
    ensures errors == [] <==> forall k :: 0 <= k < |bindings| ==> BindingAgrees(bindings[k], definitions,
      if bindings[k].agentId in adapters then Some(adapters[bindings[k].agentId]) else None)
    ensures forall e :: e in errors ==> e.MissingRuntimeAgent? || e.AdapterMismatch?
  {
    hide BindingAgrees, DistinctDefinitions, DefinitionIds;
    errors := [];
    for i := 0 to |bindings|
      invariant errors == [] <==> forall k :: 0 <= k < i ==> BindingAgrees(bindings[k], definitions,
        if bindings[k].agentId in adapters then Some(adapters[bindings[k].agentId]) else None)
      invariant forall e :: e in errors ==> e.MissingRuntimeAgent? || e.AdapterMismatch?
    {
      var error := CheckBinding(bindings[i], definitions, adapters);
      if error.Some? {
        errors := errors + [error.value];
      }
    }
  }

  lemma DefinitionsDistinct(definitions: seq<Definition>, items: seq<Json>)
    requires Defines(definitions, items)
    ensures DistinctDefinitions(definitions)
  {
    hide IsDefinition;
    forall i, j | 0 <= i < j < |definitions| ensures definitions[i].id != definitions[j].id {
      assert Field(items[i], "id") != Field(items[j], "id");
    }
  }

  /** `verify_parity`. It raises exactly when one of two loops cannot start: over
      the authority's definitions, its header being in order, or, the authority
      having loaded, over the runtime's `agents`. */
  method VerifyParity(sha: string -> string, other: Json -> string, authority: Dict, runtime: Dict)
    returns (r: Result<Parity>)
    requires Injective(sha)
    ensures r.Failure? <==>
      CannotIterate(other, authority) || (AuthorityOk(other, authority) && AgentItems(runtime).Failure?)
    ensures r.Success? ==>
      (r.value.ok <==> AuthorityOk(other, authority) && InParity(other, authority, runtime))
    ensures r.Success? && AuthorityOk(other, authority) && RuntimeOk(other, runtime) ==>
      r.value.diff == Diff(AuthorityEntries(other, authority), RuntimeEntries(other, runtime))
    ensures r.Success? ==> (AuthorityInvalid in r.value.errors <==> !AuthorityOk(other, authority))
    ensures r.Success? ==> forall e :: e in r.value.errors ==> !e.RosterHashMismatch? && !e.UnknownDefinition?
  {
    hide HeaderOk, IsDefinition, Clean, NoDuplicates, BoundTo, Covers, OneEach, ReadsAs, Defines, AdapterOf, Diff,
      SameRoster, CanonicalHash, BindingAgrees, RuntimeOk, AuthorityEntries, RuntimeEntries, AdaptersAgree;
    var loaded := LoadAuthority(other, authority);
    if loaded.TypeError? {
      return Failure;
    }
    if loaded.AuthorityError? {
      return Success(Parity(false, [], [AuthorityInvalid]));
    }
    var entries, runtimeErrors := ProjectRuntimeRoster(other, runtime);
    var items := AgentItems(runtime);
    if items.Failure? {
      return Failure;
    }
    var adapters := RuntimeAdapters(other, items.value);
    if runtimeErrors != 0 {
      return Success(Parity(false, [], [RuntimeInvalid(runtimeErrors)]));
    }
    var a := loaded.authority;
    var diff := DiffRosters(a.entries, entries);
    EmptyDiffIsSameRoster(a.entries, entries);
    if diff != [] {
      return Success(Parity(false, diff, []));
    }
    UniqueByDefinition(a.entries);
    UniqueByDefinition(entries);
    DiffAgreesWithHash(sha, a.entries, entries);
    if CanonicalHash(sha, entries) != CanonicalHash(sha, a.entries) {
      return Success(Parity(false, [], [RosterHashMismatch]));
    }
    DefinitionsDistinct(a.definitions, DefinitionItems(authority).value);
    BoundDefinitions(a.bindings, a.entries, DefinitionIds(a.definitions));
    BindingsAgree(other, a.entries, a.bindings, a.definitions, DefinitionItems(authority).value, items.value);
    var errors := CheckBindings(a.bindings, a.definitions, adapters);
    return Success(Parity(errors == [], [], errors));
  }

  lemma UniqueByDefinition(entries: Roster)
    requires NoDuplicates(entries)
    ensures UniqueIds(entries)
  {
  }

  lemma BoundDefinitions(bindings: seq<Binding>, entries: Roster, known: set<string>)
    requires BoundTo(bindings, entries, known)
    ensures forall k :: 0 <= k < |bindings| ==> bindings[k].definitionId in known
  {
    forall k | 0 <= k < |bindings| ensures bindings[k].definitionId in known {
      assert IsBinding(bindings[k], entries, known);
    }
  }

  // ----- concrete files -----

  function ExampleHeader(): Dict {
    map["registry" := Obj(map["id" := Str("a"), "version" := Num(1)])]
  }

  /** A header in order and nothing else is an authority, with an empty roster;
      with definitions that are a number it makes the check raise, and so does,
      beside any authority that loads, a runtime whose agents are a number. */
  lemma ExampleAuthorities(other: Json -> string)
    ensures AuthorityOk(other, ExampleHeader())
    ensures CannotIterate(other, ExampleHeader()["executor_definitions" := Num(5)])
    ensures AgentItems(map["agents" := Num(5)]).Failure?
  {
    hide HeaderOk, Iterate, AuthorityOk, ExampleHeader;
    var header := ExampleHeader();
    var broken := header["executor_definitions" := Num(5)];
    OnlyHeader();
    HeaderInOrder(other, header);
    HeaderInOrder(other, broken);
    EmptyAuthority(other, header);
    NumbersCannotIterate();
    assert DefinitionItems(broken) == Iterate(Num(5));
  }

  lemma NumbersCannotIterate()
    ensures Iterate(Num(5)).Failure?
  {
  }

  lemma OnlyHeader()
    ensures ExampleHeader().Keys == {"registry"}
  {
  }

  lemma EmptyAuthority(other: Json -> string, data: Dict)
    requires HeaderOk(other, data) && data.Keys == {"registry"}
    ensures AuthorityOk(other, data)
  {
    hide HeaderOk, IsDefinition, AgentReader;
    assert "agents" !in data.Keys && "external_agents" !in data.Keys && "executor_definitions" !in data.Keys;
  }

  lemma HeaderInOrder(other: Json -> string, data: Dict)
    requires data.Keys <= {"registry", "executor_definitions"}
    requires "registry" in data && data["registry"] == ExampleHeader()["registry"]
    ensures HeaderOk(other, data)
  {
    hide Strip;
    StripFixed("a");
  }

  function ExampleAgent(): Dict {
    map["id" := Str("a"), "discord_user_id" := Str("1")]
  }

  function ExampleRow(): Dict {
    ExampleAgent()["executor_definition_id" := Str("d")]["runner_profile_id" := Str("a")]
  }

  function ExampleDefinition(): Dict {
    map["id" := Str("d"), "provider" := Str("p"), "adapter" := Str("x")]
  }

  /** One agent with one executor. */
  function ExampleAuthority(): Dict {
    ExampleHeader()["executor_definitions" := Arr([Obj(ExampleDefinition())])]["agents" := Arr([Obj(ExampleRow())])]
  }

  function ExampleRuntime(): Dict {
    map["agents" := Arr([Obj(ExampleAgent()["adapter" := Str("x")])])]
  }

  function ExampleEntry(definition: Option<string>, profile: Option<string>): AgentEntry {
    AgentEntry("a", "a", "1", "managed", definition, profile)
  }

  lemma OneLetter(s: string)
    requires s in {"a", "d", "p", "x"}
    ensures Strip(s) == s && IsLabel(Str(s))
  {
    StripFixed(s);
  }

  lemma OneIsDiscordId()
    ensures IsDiscordId("1")
  {
    assert "1"[0] != '0';
  }

  lemma ExampleReads(other: Json -> string)
    ensures ReadAgent(other, Row("managed", Obj(ExampleRow())), {"d"})
         == Success((ExampleEntry(Some("d"), Some("a")), Some(Binding("a", "d", "a", true))))
    ensures ReadRuntimeAgent(other, Row("managed", Obj(ExampleAgent()["adapter" := Str("x")])))
         == Success(ExampleEntry(None, None))
  {
    hide Strip, IsLabel, IsDiscordId, ReadAgent, ReadRuntimeAgent;
    OneLetter("a");
    OneLetter("d");
    OneIsDiscordId();
    ReadAgentMeans(other, Row("managed", Obj(ExampleRow())), {"d"}, ExampleEntry(Some("d"), Some("a")),
                   Some(Binding("a", "d", "a", true)));
    ReadRuntimeMeans(other, Row("managed", Obj(ExampleAgent()["adapter" := Str("x")])), ExampleEntry(None, None));
  }

  lemma OneRow(read: Row -> Result<AgentEntry>, row: Row, e: AgentEntry)
    requires read(row) == Success(e)
    ensures Clean(read, [row]) && EntriesOf(read, [row]) == [e]
  {
  }

  lemma ExampleRows()
    ensures Rows(ExampleAuthority()) == Success([Row("managed", Obj(ExampleRow()))])
    ensures Rows(ExampleRuntime()) == Success([Row("managed", Obj(ExampleAgent()["adapter" := Str("x")]))])
    ensures DefinitionItems(ExampleAuthority()) == Success([Obj(ExampleDefinition())])
    ensures AgentItems(ExampleRuntime()) == Success([Obj(ExampleAgent()["adapter" := Str("x")])])
  {
    hide ExampleRow, ExampleAgent, ExampleDefinition, Rows;
    OneSection(ExampleAuthority(), Obj(ExampleRow()));
    OneSection(ExampleRuntime(), Obj(ExampleAgent()["adapter" := Str("x")]));
  }

  lemma OneSection(data: Dict, v: Json)
    requires Get(data, "agents") == Arr([v]) && Get(data, "external_agents") == Null
    ensures Rows(data) == Success([Row("managed", v)])
  {
    hide Get;
    var managed := Section(data, "agents", "managed").value;
    assert managed == [Row("managed", v)] && managed + [] == managed;
  }

  lemma ExampleDefined(other: Json -> string)
    ensures HeaderOk(other, ExampleAuthority())
    ensures var items := [Obj(ExampleDefinition())];
            AreDefinitions(items, 1) && IsDefinition(items[0]) && KnownIds(items) == {"d"}
            && Field(items[0], "id") == Str("d") && Field(items[0], "adapter") == Str("x")
  {
    hide Strip, IsLabel;
    OneLetter("a");
    OneLetter("d");
    OneLetter("p");
    OneLetter("x");
    var items := [Obj(ExampleDefinition())];
    assert Field(items[0], "id") == Str("d");
    assert "d" in KnownIds(items);
  }

  /** An authority and a runtime in parity: one agent, with the adapter of the
      executor it is bound to. */
  lemma ExampleInParity(other: Json -> string)
    ensures AuthorityOk(other, ExampleAuthority()) && AgentItems(ExampleRuntime()).Success?
    ensures InParity(other, ExampleAuthority(), ExampleRuntime())
  {
    hide HeaderOk, ReadAgent, ReadRuntimeAgent, Clean, AreDefinitions, IsDefinition, KnownIds, Rows, DefinitionItems,
      AgentItems, ExampleAuthority, ExampleRuntime, ExampleRow, ExampleDefinition, AdapterOf, SameRoster;
    ExampleRows();
    ExampleDefined(other);
    ExampleReads(other);
    var e, r := ExampleEntry(Some("d"), Some("a")), ExampleEntry(None, None);
    OneRow(AgentReader(other, {"d"}), Row("managed", Obj(ExampleRow())), e);
    OneRow(RuntimeReader(other), Row("managed", Obj(ExampleAgent()["adapter" := Str("x")])), r);
    SameOne(e, r);
    ExampleAdapter(other);
  }

  lemma SameOne(e: AgentEntry, r: AgentEntry)
    requires e.id == r.id && e.SameShown(r)
    ensures SameRoster([e], [r])
  {
    assert [e][..0] == [] && [r][..0] == [] && ById([]) == map[];
    assert ById([e]) == map[e.id := e] && ById([r]) == map[r.id := r];
  }

  lemma ExampleAdapter(other: Json -> string)
    ensures AdapterOf(other, [Obj(ExampleAgent()["adapter" := Str("x")])], "a") == Some("x")
  {
    hide Strip;
    OneLetter("a");
    OneLetter("x");
  }
}
