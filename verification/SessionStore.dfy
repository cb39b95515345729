/** multinexus/sessions/store.py: the sessions table, one row per
    (scope_id, agent_id), checked against the full history of writes. */
module Sessions {
  import opened Prelude

  const ACTIVE := "active"
  const STALE := "stale"
  const ARCHIVED := "archived"

  type Key = (string, string)

  datatype Row = Row(
    adapter: string,
    sessionId: string,
    workDir: Option<string>,
    status: string,
    turnCount: nat,
    createdAt: real,
    updatedAt: real)

  /** A committed write. A mark without an agent covers the whole scope. */
  datatype Write =
    | Upsert(key: Key, adapter: string, sessionId: string, workDir: Option<string>, at: real)
    | Mark(scope: string, agent: Option<string>, status: string, at: real)
  {
    predicate Touches(k: Key) {
      match this
      case Upsert(key, _, _, _, _) => key == k
      case Mark(scope, agent, _, _) => scope == k.0 && (agent.None? || agent.value == k.1)
    }
  }

  function Apply(rows: map<Key, Row>, w: Write): map<Key, Row> {
    match w
    case Upsert(key, adapter, sessionId, workDir, at) =>
      if key in rows then
        var row := rows[key];
        var turns := if row.status == ACTIVE && row.sessionId == sessionId then row.turnCount + 1 else 1;
        rows[key := Row(adapter, sessionId, workDir, ACTIVE, turns, row.createdAt, at)]
      else
        rows[key := Row(adapter, sessionId, workDir, ACTIVE, 1, at, at)]
    case Mark(_, _, _, _) => SetStatus(rows, w)
  }

  /** The UPDATE statement behind every mark. */
  function SetStatus(rows: map<Key, Row>, w: Write): (updated: map<Key, Row>)
    requires w.Mark?
    ensures updated.Keys == rows.Keys
    ensures forall k :: k in rows ==>
              updated[k] == if w.Touches(k) then rows[k].(status := w.status, updatedAt := w.at) else rows[k]
  {
    map k | k in rows :: if w.Touches(k) then rows[k].(status := w.status, updatedAt := w.at) else rows[k]
  }

  /** `task_scope` of multinexus/sessions/scope.py */
  function TaskScope(workspaceId: string, taskId: string): string {
    "task:" + workspaceId + ":" + taskId
  }

  /** The keys of one agent in a scope, or of all. */
  ghost function OfScope(scope: string, agent: Option<string>): iset<Key> {
    iset k: Key | k.0 == scope && agent in {None, Some(k.1)}
  }

  /** Every row outside some keys is as it was. */
  ghost predicate OnlyChanged(before: map<Key, Row>, after: map<Key, Row>, keys: iset<Key>) {
    forall k :: k !in keys ==> (k in before <==> k in after) && (k in before ==> after[k] == before[k])
  }

  /** Tasks of different workspaces or names have different scopes, as long as a
      workspace id has no colon in it. */
  lemma TaskScopesDiffer(w: string, t: string, w': string, t': string)
    requires ':' !in w && ':' !in w' && TaskScope(w, t) == TaskScope(w', t')
    ensures w == w' && t == t'
  {
    assert TaskScope(w, t)[5..] == w + [':'] + t && TaskScope(w', t')[5..] == w' + [':'] + t';
    SplitsAtColon(w, t, w', t');
  }

  lemma {:induction false} SplitsAtColon(w: string, t: string, w': string, t': string)
    requires ':' !in w && ':' !in w' && w + [':'] + t == w' + [':'] + t'
    ensures w == w' && t == t'
  {
    var text := w + [':'] + t;
    if w == "" || w' == "" {
      assert text[0] == (w' + [':'] + t')[0];
      assert text[1..] == (w' + [':'] + t')[1..];
    } else {
      assert text[0] == w[0] == w'[0];
      assert text[1..] == w[1..] + [':'] + t && text[1..] == w'[1..] + [':'] + t';
      SplitsAtColon(w[1..], t, w'[1..], t');
    }
  }

  function Matching(rows: map<Key, Row>, w: Write): set<Key> {
    set k | k in rows && w.Touches(k)
  }

  /** The table after a history of writes. */
  function Replay(history: seq<Write>): map<Key, Row> {
    if history == [] then map[]
    else Apply(Replay(history[..|history| - 1]), history[|history| - 1])
  }

  class SessionStore {
    var rows: map<Key, Row>
    ghost var history: seq<Write>

    ghost predicate Valid()
      reads this
    {
      && rows == Replay(history)
      && PublicMarksOnly(history)
    }

    constructor ()
      ensures Valid() && history == []
    {
      rows, history := map[], [];
    }

    method Get(scopeId: string, agentId: string) returns (row: Option<Row>)
      requires Valid()
      ensures row.Some? <==> (scopeId, agentId) in rows && rows[(scopeId, agentId)].status == ACTIVE
      ensures row.Some? ==> row.value == rows[(scopeId, agentId)]
    {
      var key := (scopeId, agentId);
      if key in rows && rows[key].status == ACTIVE {
        return Some(rows[key]);
      }
      return None;
    }

    /** The first scope of the list with an active row, and that row. */
    method GetFirstActive(scopeIds: seq<string>, agentId: string) returns (found: Option<(string, Row)>)
      requires Valid()
      ensures found == FirstActive(rows, scopeIds, agentId)
    {
      for i := 0 to |scopeIds|
        invariant FirstActive(rows, scopeIds, agentId) == FirstActive(rows, scopeIds[i..], agentId)
      {
        assert scopeIds[i..][1..] == scopeIds[i + 1..];
        var session := Get(scopeIds[i], agentId);
        if session.Some? {
          return Some((scopeIds[i], session.value));
        }
      }
      return None;
    }

    method Upsert(scopeId: string, agentId: string, adapter: string, sessionId: string, workDir: Option<string>,
                  now: real)
      requires Valid()
      modifies this
      ensures Valid()
      ensures history == old(history) + [Write.Upsert((scopeId, agentId), adapter, sessionId, workDir, now)]
      ensures rows == Apply(old(rows), Write.Upsert((scopeId, agentId), adapter, sessionId, workDir, now))
      ensures OnlyChanged(old(rows), rows, iset{(scopeId, agentId)})
    {
      var key := (scopeId, agentId);
      if key in rows {
        var row := rows[key];
        var turns := if row.status == ACTIVE && row.sessionId == sessionId then row.turnCount + 1 else 1;
        rows := rows[key := row.(sessionId := sessionId, adapter := adapter, workDir := workDir,
                                 turnCount := turns, updatedAt := now, status := ACTIVE)];
      } else {
        rows := rows[key := Row(adapter, sessionId, workDir, ACTIVE, 1, now, now)];
      }
      history := history + [Write.Upsert(key, adapter, sessionId, workDir, now)];
    }

    method MarkStale(scopeId: string, agentId: string, now: real)
      requires Valid()
      modifies this
      ensures Valid()
      ensures history == old(history) + [Mark(scopeId, Some(agentId), STALE, now)]
      ensures rows == SetStatus(old(rows), Mark(scopeId, Some(agentId), STALE, now))
      ensures rows.Keys == old(rows).Keys && OnlyChanged(old(rows), rows, iset{(scopeId, agentId)})
      ensures (scopeId, agentId) in rows ==> rows[(scopeId, agentId)].status == STALE
    {
      var _ := UpdateStatus(scopeId, Some(agentId), STALE, now);
    }

    method MarkArchived(scopeId: string, agentId: string, now: real)
      requires Valid()
      modifies this
      ensures Valid()
      ensures history == old(history) + [Mark(scopeId, Some(agentId), ARCHIVED, now)]
      ensures rows == SetStatus(old(rows), Mark(scopeId, Some(agentId), ARCHIVED, now))
      ensures rows.Keys == old(rows).Keys && OnlyChanged(old(rows), rows, iset{(scopeId, agentId)})
      ensures (scopeId, agentId) in rows ==> rows[(scopeId, agentId)].status == ARCHIVED
    {
      var _ := UpdateStatus(scopeId, Some(agentId), ARCHIVED, now);
    }

    method MarkTaskStale(workspaceId: string, taskId: string, agentId: Option<string>, now: real)
      returns (count: nat)
      requires Valid()
      modifies this
      ensures Valid()
      ensures history == old(history) + [Mark(TaskScope(workspaceId, taskId), agentId, STALE, now)]
      ensures rows == SetStatus(old(rows), Mark(TaskScope(workspaceId, taskId), agentId, STALE, now))
      ensures rows.Keys == old(rows).Keys
      ensures OnlyChanged(old(rows), rows, OfScope(TaskScope(workspaceId, taskId), agentId))
      ensures forall k :: k in rows && k in OfScope(TaskScope(workspaceId, taskId), agentId) ==>
        rows[k].status == STALE
      ensures count == |Matching(old(rows), Mark(TaskScope(workspaceId, taskId), agentId, STALE, now))|
    {
      count := UpdateStatus(TaskScope(workspaceId, taskId), agentId, STALE, now);
    }

    method MarkTaskArchived(workspaceId: string, taskId: string, agentId: Option<string>, now: real)
      returns (count: nat)
      requires Valid()
      modifies this
      ensures Valid()
      ensures history == old(history) + [Mark(TaskScope(workspaceId, taskId), agentId, ARCHIVED, now)]
      ensures rows == SetStatus(old(rows), Mark(TaskScope(workspaceId, taskId), agentId, ARCHIVED, now))
      ensures rows.Keys == old(rows).Keys
      ensures OnlyChanged(old(rows), rows, OfScope(TaskScope(workspaceId, taskId), agentId))
      ensures forall k :: k in rows && k in OfScope(TaskScope(workspaceId, taskId), agentId) ==>
        rows[k].status == ARCHIVED
      ensures count == |Matching(old(rows), Mark(TaskScope(workspaceId, taskId), agentId, ARCHIVED, now))|
    {
      count := UpdateStatus(TaskScope(workspaceId, taskId), agentId, ARCHIVED, now);
    }

    /** The one UPDATE statement behind every mark; returns its row count. */
    method UpdateStatus(scopeId: string, agentId: Option<string>, status: string, now: real) returns (count: nat)
      requires Valid() && status in {STALE, ARCHIVED}
      modifies this
      ensures Valid()
      ensures history == old(history) + [Mark(scopeId, agentId, status, now)]
      ensures rows == SetStatus(old(rows), Mark(scopeId, agentId, status, now))
      ensures count == |Matching(old(rows), Mark(scopeId, agentId, status, now))|
    {
      var w := Mark(scopeId, agentId, status, now);
      count := |Matching(rows, w)|;
      rows := SetStatus(rows, w);
      history := history + [w];
      assert history[..|history| - 1] == old(history);
    }
  }

  predicate IsActive(rows: map<Key, Row>, key: Key) {
    key in rows && rows[key].status == ACTIVE
  }

  /** The first scope of the list with an active row, and that row. */
  function FirstActive(rows: map<Key, Row>, scopeIds: seq<string>, agentId: string): Option<(string, Row)> {
    if scopeIds == [] then None
    else if IsActive(rows, (scopeIds[0], agentId)) then Some((scopeIds[0], rows[(scopeIds[0], agentId)]))
    else FirstActive(rows, scopeIds[1..], agentId)
  }

  ghost predicate FirstAt(rows: map<Key, Row>, scopeIds: seq<string>, agentId: string, i: int, found: (string, Row)) {
    && 0 <= i < |scopeIds| && scopeIds[i] == found.0
    && IsActive(rows, (found.0, agentId)) && rows[(found.0, agentId)] == found.1
    && forall j :: 0 <= j < i ==> !IsActive(rows, (scopeIds[j], agentId))
  }

  lemma {:induction false} FirstActiveMeans(rows: map<Key, Row>, scopeIds: seq<string>, agentId: string)
    ensures var found := FirstActive(rows, scopeIds, agentId);
            if found.None? then forall s :: s in scopeIds ==> !IsActive(rows, (s, agentId))
            else exists i :: FirstAt(rows, scopeIds, agentId, i, found.value)
  {
    if scopeIds != [] {
      if IsActive(rows, (scopeIds[0], agentId)) {
        assert FirstAt(rows, scopeIds, agentId, 0, (scopeIds[0], rows[(scopeIds[0], agentId)]));
      } else {
        FirstActiveMeans(rows, scopeIds[1..], agentId);
        var found := FirstActive(rows, scopeIds[1..], agentId);
        if found.Some? {
          var i :| FirstAt(rows, scopeIds[1..], agentId, i, found.value);
          assert FirstAt(rows, scopeIds, agentId, i + 1, found.value);
        }
      }
    }
  }

  /** The public methods only ever mark rows stale or archived. */
  ghost predicate PublicMarksOnly(history: seq<Write>) {
    forall w :: w in history && w.Mark? ==> w.status in {STALE, ARCHIVED}
  }

  /** The writes of a history that concern one key, in order. */
  function Concerning(history: seq<Write>, key: Key): (own: seq<Write>)
    ensures forall w :: w in own ==> w in history && w.Touches(key)
  {
    if history == [] then []
    else
      var w := history[|history| - 1];
      Concerning(history[..|history| - 1], key) + (if w.Touches(key) then [w] else [])
  }

  /** The last `n` writes are upserts of one session, and no longer run is. */
  ghost predicate TrailingRun(own: seq<Write>, n: nat) {
    && 1 <= n <= |own|
    && own[|own| - 1].Upsert?
    && (forall i :: |own| - n <= i < |own| ==> SameSession(own, i))
    && (n < |own| ==> !SameSession(own, |own| - n - 1))
  }

  ghost predicate SameSession(own: seq<Write>, i: int)
    requires 0 <= i < |own| && own[|own| - 1].Upsert?
  {
    own[i].Upsert? && own[i].sessionId == own[|own| - 1].sessionId
  }

  ghost predicate FirstUpsert(own: seq<Write>, i: int) {
    0 <= i < |own| && own[i].Upsert? && forall j :: 0 <= j < i ==> own[j].Mark?
  }

  /** What one row says about the writes that concern its key. */
  ghost predicate Explains(row: Row, own: seq<Write>)
  {
    && own != []
    && (exists i :: FirstUpsert(own, i) && row.createdAt == own[i].at)
    && var last := own[|own| - 1];
    && row.updatedAt == last.at
    && (row.status == ACTIVE <==> last.Upsert?)
    && (last.Mark? ==> row.status == last.status)
    && (last.Upsert? ==> row.sessionId == last.sessionId && row.adapter == last.adapter && row.workDir == last.workDir)
    && (last.Upsert? ==> TrailingRun(own, row.turnCount))
  }

  lemma UpsertExtends(row: Row, own: seq<Write>, w: Write)
    requires Explains(row, own) && w.Upsert?
    ensures var turns := if row.status == ACTIVE && row.sessionId == w.sessionId then row.turnCount + 1 else 1;
            Explains(Row(w.adapter, w.sessionId, w.workDir, ACTIVE, turns, row.createdAt, w.at), own + [w])
  {
    var i :| FirstUpsert(own, i) && row.createdAt == own[i].at;
    assert FirstUpsert(own + [w], i);
    var own' := own + [w];
    assert forall j :: 0 <= j < |own| && own[|own| - 1].Upsert? && own[|own| - 1].sessionId == w.sessionId
             ==> SameSession(own', j) == SameSession(own, j);
  }

  lemma MarkExtends(row: Row, own: seq<Write>, w: Write)
    requires Explains(row, own) && w.Mark? && w.status != ACTIVE
    ensures Explains(row.(status := w.status, updatedAt := w.at), own + [w])
  {
    var i :| FirstUpsert(own, i) && row.createdAt == own[i].at;
    assert FirstUpsert(own + [w], i);
  }

  ghost predicate Upserted(history: seq<Write>, key: Key) {
    exists w :: w in history && w.Upsert? && w.key == key
  }

  /** One write keeps a row truthful about its key. */
  lemma WriteExplained(rows: map<Key, Row>, own: seq<Write>, w: Write, key: Key)
    requires w.Touches(key) && (w.Mark? ==> w.status != ACTIVE)
    requires if key in rows then Explains(rows[key], own) else forall m :: m in own ==> m.Mark?
    ensures key in Apply(rows, w) ==> Explains(Apply(rows, w)[key], own + [w])
  {
    if key in rows && w.Upsert? {
      UpsertExtends(rows[key], own, w);
    } else if key in rows {
      MarkExtends(rows[key], own, w);
    } else if w.Upsert? {
      FirstUpsertExplains(own, w);
    }
  }

  /** After any history of writes, every row tells the truth about its key, and
      a key has a row exactly when some upsert named it. */
  lemma {:induction false} HistoryExplainsRows(history: seq<Write>, key: Key)
    requires PublicMarksOnly(history)
    ensures key in Replay(history) <==> Upserted(history, key)
    ensures key in Replay(history) ==> Explains(Replay(history)[key], Concerning(history, key))
  {
    hide Explains;
    if history != [] {
      var before, w := history[..|history| - 1], history[|history| - 1];
      assert history == before + [w];
      HistoryExplainsRows(before, key);
      if w.Touches(key) {
        if key !in Replay(before) {
          NoUpsertBefore(before, key);
        }
        WriteExplained(Replay(before), Concerning(before, key), w, key);
      } else {
        assert Concerning(history, key) == Concerning(before, key);
      }
    }
  }

  lemma FirstUpsertExplains(own: seq<Write>, w: Write)
    requires w.Upsert? && forall m :: m in own ==> m.Mark?
    ensures Explains(Row(w.adapter, w.sessionId, w.workDir, ACTIVE, 1, w.at, w.at), own + [w])
  {
    assert FirstUpsert(own + [w], |own|) && (own + [w])[|own|].at == w.at;
    assert TrailingRun(own + [w], 1);
  }

  lemma NoUpsertBefore(history: seq<Write>, key: Key)
    requires !Upserted(history, key)
    ensures forall w :: w in Concerning(history, key) ==> w.Mark?
  {
  }

  /** What a caller of `get` learns: the session last written to the key, and
      how many upserts in a row named it since the last mark or change. */
  lemma ActiveSessionIsLastUpsert(history: seq<Write>, key: Key)
    requires PublicMarksOnly(history)
    ensures var own := Concerning(history, key);
            if own != [] && own[|own| - 1].Upsert? then
              && IsActive(Replay(history), key)
              && Replay(history)[key].sessionId == own[|own| - 1].sessionId
              && Replay(history)[key].workDir == own[|own| - 1].workDir
              && TrailingRun(own, Replay(history)[key].turnCount)
            else
              !IsActive(Replay(history), key)
  {
    hide Replay, Concerning, TrailingRun;
    HistoryExplainsRows(history, key);
    var own := Concerning(history, key);
    if own != [] && own[|own| - 1].Upsert? {
      assert own[|own| - 1] in own;
      assert Upserted(history, key);
    }
  }

  /** The turn count a history determines is unique. */
  lemma TrailingRunUnique(own: seq<Write>, m: nat, n: nat)
    requires TrailingRun(own, m) && TrailingRun(own, n)
    ensures m == n
  {
    var shorter := if m < n then m else n;
    assert shorter < |own| ==> (SameSession(own, |own| - shorter - 1) <==> shorter < m || shorter < n);
  }

  /** Writes that do not concern a key never change its row. */
  lemma {:induction false} OtherKeysUntouched(history: seq<Write>, more: seq<Write>, key: Key)
    requires forall w :: w in more ==> !w.Touches(key)
    ensures key in Replay(history + more) <==> key in Replay(history)
    ensures key in Replay(history) ==> Replay(history + more)[key] == Replay(history)[key]
  {
    if more == [] {
      assert history + more == history;
    } else {
      var all := history + more;
      assert all[..|all| - 1] == history + more[..|more| - 1];
      assert all[|all| - 1] == more[|more| - 1] && more[|more| - 1] in more;
      OtherKeysUntouched(history, more[..|more| - 1], key);
    }
  }
}
