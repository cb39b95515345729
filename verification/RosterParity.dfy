/** multinexus/registry_authority.py: loading the agent roster from the
    authority and from the runtime configuration, and checking their parity. */
module RosterParity {
  import opened Prelude
  import opened StringOrder
  import opened CanonicalJson
  import opened Labels

  /** A roster entry; the executor fields are not part of the roster's digest. */
  datatype AgentEntry = AgentEntry(
    id: string,
    displayName: string,
    discordUserId: string,
    agentType: string,
    executorDefinitionId: Option<string>,
    runnerProfileId: Option<string>)
  {
    function ToCanonical(): Json {
      Obj(map["id" := Str(id), "discord_user_id" := Str(discordUserId),
              "display_name" := Str(displayName), "agent_type" := Str(agentType)])
    }

    /** The fields that parity is about, under the entry's id. */
    predicate SameShown(other: AgentEntry) {
      && displayName == other.displayName
      && discordUserId == other.discordUserId
      && agentType == other.agentType
    }
  }

  type Roster = seq<AgentEntry>

  ghost predicate UniqueIds(entries: Roster) {
    forall i, j :: 0 <= i < j < |entries| ==> entries[i].id != entries[j].id
  }

  // ----- canonical_hash -----

  /** Stable insertion after every entry that is not greater. */
  function Insert(sorted: Roster, e: AgentEntry): Roster {
    if sorted == [] then [e]
    else
      var last := sorted[|sorted| - 1];
      if Less(e.id, last.id) then Insert(sorted[..|sorted| - 1], e) + [last] else sorted + [e]
  }

  /** `sorted(entries, key=lambda e: e.id)` */
  function SortById(entries: Roster): Roster {
    if entries == [] then []
    else Insert(SortById(entries[..|entries| - 1]), entries[|entries| - 1])
  }

  function Canonicals(entries: Roster): (r: seq<Json>)
    ensures |r| == |entries|
    ensures forall i :: 0 <= i < |entries| ==> r[i] == entries[i].ToCanonical()
  {
    seq(|entries|, i requires 0 <= i < |entries| => entries[i].ToCanonical())
  }

  function CanonicalHash(sha: string -> string, entries: Roster): string {
    sha(Print(Arr(Canonicals(SortById(entries)))))
  }

  // ----- _diff_rosters -----

  /** `{e.id: e for e in entries}` */
  function ById(entries: Roster): map<string, AgentEntry> {
    if entries == [] then map[]
    else ById(entries[..|entries| - 1])[entries[|entries| - 1].id := entries[|entries| - 1]]
  }

  datatype Change = Removed(id: string) | Added(id: string) | Changed(id: string, fields: seq<string>)

  function ChangedFields(a: AgentEntry, r: AgentEntry): seq<string> {
    (if a.displayName != r.displayName then ["display_name"] else [])
    + (if a.discordUserId != r.discordUserId then ["discord_user_id"] else [])
    + (if a.agentType != r.agentType then ["agent_type"] else [])
  }

  /** The change reported for one id, if any. */
  function ChangeAt(authority: map<string, AgentEntry>, runtime: map<string, AgentEntry>, id: string): seq<Change> {
    if id !in authority then [Removed(id)]
    else if id !in runtime then [Added(id)]
    else
      var fields := ChangedFields(authority[id], runtime[id]);
      if fields != [] then [Changed(id, fields)] else []
  }

  function ChangesAt(authority: map<string, AgentEntry>, runtime: map<string, AgentEntry>, ids: seq<string>):
    seq<Change>
  {
    if ids == [] then []
    else ChangesAt(authority, runtime, ids[..|ids| - 1]) + ChangeAt(authority, runtime, ids[|ids| - 1])
  }

  function Diff(authority: Roster, runtime: Roster): seq<Change> {
    ChangesAt(ById(authority), ById(runtime), SortedKeys(ById(authority).Keys + ById(runtime).Keys))
  }

  method DiffRosters(authorityEntries: Roster, runtimeEntries: Roster) returns (diff: seq<Change>)
    ensures diff == Diff(authorityEntries, runtimeEntries)
  {
    hide ById, SortedKeys;
    var authority, runtime := ById(authorityEntries), ById(runtimeEntries);
    diff := [];
    var ids := SortedKeys(authority.Keys + runtime.Keys);
    for i := 0 to |ids|
      invariant diff == ChangesAt(authority, runtime, ids[..i])
    {
      assert ids[..i + 1][..i] == ids[..i];
      diff := diff + ChangeAt(authority, runtime, ids[i]);
    }
    assert ids[..|ids|] == ids;
  }

  /** The two rosters show the same entries under the same ids. */
  ghost predicate SameRoster(a: Roster, b: Roster) {
    && (forall id :: id in ById(a) <==> id in ById(b))
    && (forall id :: id in ById(a) && id in ById(b) ==> ById(a)[id].SameShown(ById(b)[id]))
  }

  lemma {:induction false} NoChanges(a: map<string, AgentEntry>, b: map<string, AgentEntry>, ids: seq<string>)
    ensures ChangesAt(a, b, ids) == [] <==> forall id :: id in ids ==> ChangeAt(a, b, id) == []
  {
    hide ChangeAt;
    if ids != [] {
      var front, last := ids[..|ids| - 1], ids[|ids| - 1];
      NoChanges(a, b, front);
      assert forall id :: id in ids <==> id in front || id == last;
    }
  }

  lemma EmptyDiffIsSameRoster(a: Roster, b: Roster)
    ensures Diff(a, b) == [] <==> SameRoster(a, b)
  {
    hide ById;
    NoChanges(ById(a), ById(b), SortedKeys(ById(a).Keys + ById(b).Keys));
    forall id ensures ChangeAt(ById(a), ById(b), id) == []
                 <==> id in ById(a) && id in ById(b) && ById(a)[id].SameShown(ById(b)[id]) {
    }
  }

  // ----- what the diff says -----

  lemma {:induction false} ChangesOf(a: map<string, AgentEntry>, b: map<string, AgentEntry>, ids: seq<string>,
                                     c: Change)
    ensures c in ChangesAt(a, b, ids) <==> c.id in ids && c in ChangeAt(a, b, c.id)
  {
    hide ChangedFields;
    if ids != [] {
      var front, last := ids[..|ids| - 1], ids[|ids| - 1];
      assert ids == front + [last];
      ChangesOf(a, b, front, c);
      assert ChangesAt(a, b, ids) == ChangesAt(a, b, front) + ChangeAt(a, b, last);
    }
  }

  /** Removed is what only the runtime has, added what only the authority has,
      and changed what both have, with the fields that differ. */
  lemma DiffMeans(a: Roster, b: Roster, c: Change)
    ensures var x, y := ById(a), ById(b);
            c in Diff(a, b) <==>
              match c
              case Removed(id) => id in y && id !in x
              case Added(id) => id in x && id !in y
              case Changed(id, fields) =>
                && id in x && id in y && fields != []
                && fields == Selected(x[id].displayName != y[id].displayName, "display_name")
                             + Selected(x[id].discordUserId != y[id].discordUserId, "discord_user_id")
                             + Selected(x[id].agentType != y[id].agentType, "agent_type")
  {
    hide ById;
    ChangesOf(ById(a), ById(b), SortedKeys(ById(a).Keys + ById(b).Keys), c);
  }

  function Selected(differs: bool, name: string): seq<string> {
    if differs then [name] else []
  }

  /** The changes come in the order of their ids, one for each id at most. */
  lemma DiffIsSorted(a: Roster, b: Roster)
    ensures forall i, j :: 0 <= i < j < |Diff(a, b)| ==> Less(Diff(a, b)[i].id, Diff(a, b)[j].id)
  {
    hide ById;
    ChangesSorted(ById(a), ById(b), SortedKeys(ById(a).Keys + ById(b).Keys));
  }

  lemma {:induction false} ChangesSorted(a: map<string, AgentEntry>, b: map<string, AgentEntry>, ids: seq<string>)
    requires StrictlySorted(ids)
    ensures forall i, j :: 0 <= i < j < |ChangesAt(a, b, ids)| ==>
              Less(ChangesAt(a, b, ids)[i].id, ChangesAt(a, b, ids)[j].id)
    ensures forall c :: c in ChangesAt(a, b, ids) ==> c.id in ids
  {
    hide ChangedFields, Less;
    if ids != [] {
      var front, last := ids[..|ids| - 1], ids[|ids| - 1];
      ChangesSorted(a, b, front);
      forall c | c in ChangesAt(a, b, front) ensures c.id in ids && Less(c.id, last) {
        var i :| 0 <= i < |front| && front[i] == c.id;
        assert ids[i] == c.id && ids[|front|] == last;
      }
    }
  }

  // ----- parity by diff is parity by digest -----

  ghost predicate SortedById(entries: Roster) {
    forall i, j :: 0 <= i < j < |entries| ==> Less(entries[i].id, entries[j].id)
  }

  lemma AppendGreatest(sorted: Roster, last: AgentEntry)
    requires SortedById(sorted) && forall x :: x in sorted ==> Less(x.id, last.id)
    ensures SortedById(sorted + [last])
  {
    hide Less;
  }

  lemma {:induction false} InsertSorts(sorted: Roster, e: AgentEntry)
    requires SortedById(sorted) && forall x :: x in sorted ==> x.id != e.id
    ensures SortedById(Insert(sorted, e))
    ensures forall x :: x in Insert(sorted, e) <==> x in sorted || x == e
  {
    if sorted != [] {
      var front, last := sorted[..|sorted| - 1], sorted[|sorted| - 1];
      assert sorted == front + [last];
      assert last in sorted;
      if Less(e.id, last.id) {
        InsertSorts(front, e);
        forall x | x in Insert(front, e) ensures Less(x.id, last.id) {
        }
        AppendGreatest(Insert(front, e), last);
      } else {
        LessTrichotomy(e.id, last.id);
        forall i | 0 <= i < |front| ensures Less(front[i].id, e.id) {
          LessTransitive(front[i].id, last.id, e.id);
        }
      }
    }
  }

  lemma {:induction false} SortByIdSorts(entries: Roster)
    requires UniqueIds(entries)
    ensures SortedById(SortById(entries))
    ensures forall x :: x in SortById(entries) <==> x in entries
  {
    hide Insert;
    if entries != [] {
      var front, last := entries[..|entries| - 1], entries[|entries| - 1];
      SortByIdSorts(front);
      assert entries == front + [last];
      InsertSorts(SortById(front), last);
    }
  }

  lemma {:induction false} ByIdLooksUp(entries: Roster)
    requires UniqueIds(entries)
    ensures forall e :: e in entries ==> e.id in ById(entries) && ById(entries)[e.id] == e
    ensures forall id :: id in ById(entries) ==> ById(entries)[id] in entries && ById(entries)[id].id == id
  {
    if entries != [] {
      ByIdLooksUp(entries[..|entries| - 1]);
      assert entries == entries[..|entries| - 1] + [entries[|entries| - 1]];
    }
  }

  lemma CanonicalInjective(a: AgentEntry, b: AgentEntry)
    ensures a.ToCanonical() == b.ToCanonical() <==> a.id == b.id && a.SameShown(b)
  {
    var x, y := a.ToCanonical().fields, b.ToCanonical().fields;
    if a.ToCanonical() == b.ToCanonical() {
      assert x["id"] == y["id"] && x["discord_user_id"] == y["discord_user_id"];
      assert x["display_name"] == y["display_name"] && x["agent_type"] == y["agent_type"];
    }
  }

  /** Every field under its own name. */
  lemma CanonicalSays(e: AgentEntry)
    ensures var d := e.ToCanonical().fields;
            && d.Keys == {"id", "discord_user_id", "display_name", "agent_type"}
            && Get(d, "id") == Str(e.id) && Get(d, "discord_user_id") == Str(e.discordUserId)
            && Get(d, "display_name") == Str(e.displayName) && Get(d, "agent_type") == Str(e.agentType)
  {
  }

  ghost predicate SameLists(a: Roster, b: Roster) {
    |a| == |b| && forall i :: 0 <= i < |a| ==> a[i].id == b[i].id && a[i].SameShown(b[i])
  }

  lemma CanonicalListsInjective(a: Roster, b: Roster)
    ensures Canonicals(a) == Canonicals(b) <==> SameLists(a, b)
  {
    if |a| == |b| {
      forall i | 0 <= i < |a|
        ensures Canonicals(a)[i] == Canonicals(b)[i] <==> a[i].id == b[i].id && a[i].SameShown(b[i])
      {
        CanonicalInjective(a[i], b[i]);
      }
    }
  }

  function Ids(entries: Roster): (r: seq<string>)
    ensures |r| == |entries| && forall i :: 0 <= i < |r| ==> r[i] == entries[i].id
  {
    seq(|entries|, i requires 0 <= i < |entries| => entries[i].id)
  }

  /** Sorted lists of the same roster are the same list. */
  lemma SortedListsAgree(a: Roster, b: Roster)
    requires UniqueIds(a) && UniqueIds(b)
    ensures SameLists(SortById(a), SortById(b)) <==> SameRoster(a, b)
  {
    hide ById, SortById;
    SortByIdSorts(a);
    SortByIdSorts(b);
    ByIdLooksUp(a);
    ByIdLooksUp(b);
    var x, y := SortById(a), SortById(b);
    if SameRoster(a, b) {
      SameRosterSameList(a, b, x, y);
    }
    if SameLists(x, y) {
      SameListSameRoster(a, b, x, y);
      SameListSameRoster(b, a, y, x);
    }
  }

  lemma SameRosterSameList(a: Roster, b: Roster, x: Roster, y: Roster)
    requires SameRoster(a, b)
    requires SortedById(x) && SortedById(y)
    requires forall e :: e in x ==> e.id in ById(a) && ById(a)[e.id] == e
    requires forall e :: e in y ==> e.id in ById(b) && ById(b)[e.id] == e
    requires forall id :: id in ById(a) ==> ById(a)[id] in x && ById(a)[id].id == id
    requires forall id :: id in ById(b) ==> ById(b)[id] in y && ById(b)[id].id == id
    ensures SameLists(x, y)
  {
    hide ById;
    IdsOf(a, x);
    IdsOf(b, y);
    SortedUnique(Ids(x), Ids(y));
    forall i | 0 <= i < |x| ensures x[i].id == y[i].id && x[i].SameShown(y[i]) {
      assert x[i].id == Ids(x)[i] == Ids(y)[i] == y[i].id;
      assert x[i] in x && y[i] in y;
    }
  }

  lemma IdsOf(a: Roster, x: Roster)
    requires SortedById(x)
    requires forall e :: e in x ==> e.id in ById(a)
    requires forall id :: id in ById(a) ==> ById(a)[id] in x && ById(a)[id].id == id
    ensures StrictlySorted(Ids(x))
    ensures forall id :: id in Ids(x) <==> id in ById(a)
  {
    hide ById;
    forall id ensures id in Ids(x) <==> id in ById(a) {
      if id in ById(a) {
        var i :| 0 <= i < |x| && x[i] == ById(a)[id];
        assert Ids(x)[i] == id;
      }
      if id in Ids(x) {
        var i :| 0 <= i < |x| && Ids(x)[i] == id;
        assert x[i] in x;
      }
    }
  }

  lemma SameListSameRoster(a: Roster, b: Roster, x: Roster, y: Roster)
    requires SameLists(x, y)
    requires forall e :: e in y ==> e.id in ById(b) && ById(b)[e.id] == e
    requires forall id :: id in ById(a) ==> ById(a)[id] in x && ById(a)[id].id == id
    ensures forall id :: id in ById(a) ==> id in ById(b) && ById(a)[id].SameShown(ById(b)[id])
  {
    hide ById;
    forall id | id in ById(a) ensures id in ById(b) && ById(a)[id].SameShown(ById(b)[id]) {
      var i :| 0 <= i < |x| && x[i] == ById(a)[id];
      assert y[i] in y;
    }
  }

  /** For rosters with unique ids the two comparisons agree, in whatever order
      the entries were listed. */
  lemma DiffAgreesWithHash(sha: string -> string, a: Roster, b: Roster)
    requires UniqueIds(a) && UniqueIds(b)
    ensures Diff(a, b) == [] ==> CanonicalHash(sha, a) == CanonicalHash(sha, b)
    ensures Injective(sha) && CanonicalHash(sha, a) == CanonicalHash(sha, b) ==> Diff(a, b) == []
  {
    hide Print, Diff, SortById, Canonicals, SameRoster;
    EmptyDiffIsSameRoster(a, b);
    SortedListsAgree(a, b);
    CanonicalListsInjective(SortById(a), SortById(b));
    if Injective(sha) {
      DigestCommits(sha, Arr(Canonicals(SortById(a))), Arr(Canonicals(SortById(b))));
    }
  }
}
