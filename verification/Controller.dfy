/** The phase controller of scripts/p9_3c1_controller.py: its ledger, its phase
    file, its lock, and the outside world it changes and has to clean up. */
module Controller {
  import opened Prelude
  import opened CanonicalJson
  import opened Ledger

  const PHASES: seq<string> := [
    "sealed", "preflight-ok", "lock-held", "baseline-captured", "workspace-ready", "agents-online",
    "executor-v1-disabled", "capacity-v1-active", "executor-v2-enabled", "matrix-running", "matrix-verified",
    "intake-frozen", "units-quiescent", "executor-v3-disabled", "capacity-v2-empty", "executor-v4-empty",
    "agents-offline", "canonical-compared", "done"]

  /** A phase is its index in PHASES; no phase file is `ABSENT`. */
  const ABSENT: int := -1
  const SEALED: int := 0
  const PREFLIGHT_OK: int := 1
  const LOCK_HELD: int := 2
  const BASELINE_CAPTURED: int := 3
  const WORKSPACE_READY: int := 4
  const AGENTS_ONLINE: int := 5
  const EXECUTOR_V2_ENABLED: int := 8
  const MATRIX_RUNNING: int := 9
  const MATRIX_VERIFIED: int := 10
  const INTAKE_FROZEN: int := 11
  const UNITS_QUIESCENT: int := 12
  const AGENTS_OFFLINE: int := 16
  const DONE: int := 18

  function Name(p: int): string {
    if 0 <= p < |PHASES| then PHASES[p] else "unknown"
  }

  /** How a call ends. A crash stops the controller for good. */
  datatype Outcome = Ok | Raised | Crashed {
    predicate IsFailure() {
      !Ok?
    }

    function PropagateFailure(): Outcome {
      this
    }
  }

  /** What the outside does: nothing fails; nothing fails but the sync after the
      phase file of `done` has been replaced; nothing fails but the preflight of
      a run and then the evidence of that failure; nothing fails but the
      transition out of one phase; or anything may fail. */
  datatype Environment = Calm | DoneSyncFails | EvidenceFails | FailsAt(phase: int) | Wild

  /** The ledger file after its complete records: nothing more; nothing, the last
      line break included; or a fragment, so that the last line no longer parses. */
  datatype Tear = Whole | NoBreak | Broken

  datatype Agent = E1 | E2

  const TRANSITION := "phase.transition"

  // ----- the transitions a ledger records -----

  predicate IsTransition(rec: Record) {
    Get(rec, "event") == Str(TRANSITION)
  }

  function TransitionOf(rec: Record): (Json, Json, Json) {
    var evidence := Get(rec, "evidence");
    if evidence.Obj? then (Get(rec, "phase"), Get(evidence.fields, "from"), Get(evidence.fields, "to"))
    else (Get(rec, "phase"), Null, Null)
  }

  /** The phase.transition records in order: phase, from and to. */
  function Transitions(records: seq<Record>): seq<(Json, Json, Json)> {
    if records == [] then []
    else
      var last := records[|records| - 1];
      Transitions(records[..|records| - 1]) + (if IsTransition(last) then [TransitionOf(last)] else [])
  }

  /** The first `n` adjacent transitions of PHASES. */
  function Prefix(n: nat): (r: seq<(Json, Json, Json)>)
    ensures |r| == n
  {
    if n == 0 then [] else Prefix(n - 1) + [(Str(Name(n)), Str(Name(n - 1)), Str(Name(n)))]
  }

  /** What the prefix consists of. */
  lemma {:induction false} PrefixAt(n: nat, i: nat)
    requires i < n
    ensures Prefix(n)[i] == (Str(Name(i + 1)), Str(Name(i)), Str(Name(i + 1)))
  {
    hide Name;
    if i < n - 1 {
      PrefixAt(n - 1, i);
    }
  }

  /** No two neighbouring phases have one name. */
  lemma NextNameDiffers(p: int)
    requires 0 <= p < DONE
    ensures Name(p) != Name(p + 1)
  {
    assert PHASES[14][0] != PHASES[15][0];
  }

  ghost predicate IsEntry(rec: Record, phase: string, event: string, evidence: Dict) {
    Get(rec, "phase") == Str(phase) && Get(rec, "event") == Str(event) && Get(rec, "evidence") == Obj(evidence)
  }

  lemma TransitionsAppend(records: seq<Record>, rec: Record)
    ensures Transitions(records + [rec])
         == Transitions(records) + (if IsTransition(rec) then [TransitionOf(rec)] else [])
  {
    assert (records + [rec])[..|records|] == records;
  }

  function Evidence(source: string, target: string): Dict {
    map["from" := Str(source), "to" := Str(target)]
  }

  lemma TransitionEntry(rec: Record, source: string, target: string)
    requires IsEntry(rec, target, TRANSITION, Evidence(source, target))
    ensures IsTransition(rec) && TransitionOf(rec) == (Str(target), Str(source), Str(target))
  {
  }

  class Controller {
    const sha: string -> string

    const env: Environment
    const mild: bool := env == Calm || env.FailsAt?
    const steady: bool := env != Wild

    /** The run directory. */
    var rootExists: bool
    var ledger: seq<Record>
    var tear: Tear
    /** The phase last written, and whether its file was cut short, which makes
        every read of it raise. */
    var phase: int
    var phaseCut: bool

    var authUsed: bool

    /** What the token file says. */
    var tokenFile: Option<string>

    /** The global mutation lock: the token of its holder. */
    var lock: Option<string>

    /** Catalog versions, zero if never synced. */
    var executor: nat
    var capacity: nat

    /** The workspace row and its host profile. */
    var workspaceAdded: bool
    var profileSet: bool

    /** Agents ever registered, and those online; units that appear in the
        helper's event log, and those active. */
    var registered: set<Agent>
    var online: set<Agent>
    var started: set<Agent>
    var active: set<Agent>

    /** How many transitions the ledger records, and whether any write to it has
        been cut short. */
    ghost var trail: nat
    ghost var cut: bool

    /** Faults of the present run: the release of the lock has raised; the commit
        of the phase `done` has raised after replacing the file, in its sync or
        its readback; the handler of a failure before activation has raised
        before its release, reading the phase or writing the evidence. */
    ghost var releaseFailed: bool
    ghost var doneCommitFailed: bool
    ghost var handlerFailed: bool

    ghost predicate LedgerOk()
      reads `ledger, `tear, `trail, `cut
    {
      && ValidChain(sha, ledger) && Transitions(ledger) == Prefix(trail)
      && (steady ==> !cut) && (!cut ==> tear == Whole)
    }

    /** The ledger is at most one transition ahead of the phase file or, if its
        record was cut short, behind it, and after a completed cleanup it may
        have stopped at any earlier one. */
    ghost predicate TrailOk()
      reads `phase, `trail
    {
      && ABSENT <= phase <= DONE
      && (phase == ABSENT ==> trail == 0)
      && (0 <= phase < DONE ==> phase - 1 <= trail <= phase + 1)
    }

    /** No started unit is active, every agent is offline, and each catalog is
        untouched or at its empty terminal version. */
    predicate Compensated()
      reads `executor, `capacity, `online, `active
    {
      active == {} && online == {} && executor in {0, 4} && capacity in {0, 2}
    }

    /** The executors are emptied last, and after they have been disabled the
        capacity is: no capacity is left without its executors. */
    predicate CatalogsInOrder()
      reads `executor, `capacity
    {
      (executor == 4 ==> capacity == 2) && (capacity == 2 ==> executor >= 3)
    }

    /** The committed phase bounds what has been changed outside. */
    ghost predicate Bounded()
      reads `phase, `executor, `capacity, `workspaceAdded, `profileSet, `registered, `online, `started, `active
    {
      && active <= started && online <= registered && CatalogsInOrder()
      && (phase < BASELINE_CAPTURED ==> !workspaceAdded && !profileSet)
      && (phase < WORKSPACE_READY ==> registered == {})
      && (phase < AGENTS_ONLINE ==> executor == 0 && capacity == 0)
      && (phase < EXECUTOR_V2_ENABLED ==> started == {})
      && (phase >= UNITS_QUIESCENT ==> active == {})
      && (phase == DONE ==> Compensated())
    }

    ghost predicate Inv()
      reads this
    {
      && LedgerOk() && TrailOk() && Bounded()
      && (if authUsed then phase >= SEALED else phase <= SEALED && trail == 0)
      && (phase == ABSENT ==> ledger == [] && tear == Whole)
      && (phase == ABSENT || steady ==> !phaseCut)
      && (phase != ABSENT ==> rootExists)
    }

    /** Between activation and `done` the token file never goes away. */
    ghost predicate TokenStays()
      reads `phase, `tokenFile
    {
      BASELINE_CAPTURED <= phase < DONE ==> tokenFile.Some?
    }

    /** Run directory, lock and outside world are as they were. */
    twostate predicate Untouched()
      reads this
    {
      && rootExists == old(rootExists) && ledger == old(ledger) && tear == old(tear) && trail == old(trail)
      && phase == old(phase) && phaseCut == old(phaseCut)
      && authUsed == old(authUsed) && tokenFile == old(tokenFile) && lock == old(lock)
      && executor == old(executor) && capacity == old(capacity)
      && workspaceAdded == old(workspaceAdded) && profileSet == old(profileSet)
      && registered == old(registered) && online == old(online) && started == old(started) && active == old(active)
    }

    /** A run that has not been prepared; somebody may hold the lock. */
    constructor (sha: string -> string, env: Environment, lock: Option<string>)
      ensures Inv() && TokenStays() && !rootExists && phase == ABSENT && !authUsed && tokenFile.None?
      ensures this.sha == sha && this.env == env && this.lock == lock
    {
      this.sha, this.env, this.lock, tokenFile := sha, env, lock, None;
      rootExists, authUsed, phase, phaseCut := false, false, ABSENT, false;
      ledger, tear, trail, cut := [], Whole, 0, false;
      workspaceAdded, profileSet := false, false;
      executor, capacity, registered, online, started, active := 0, 0, {}, {}, {}, {};
      releaseFailed, doneCommitFailed, handlerFailed := false, false, false;
    }

    /** `_phase_tail_agree`, with false for raising */
    predicate TailAgrees()
      reads `ledger, `phase, `phaseCut
    {
      if phaseCut then false
      else if ledger == [] then phase == ABSENT
      else Get(ledger[|ledger| - 1], "phase") == Str(Name(phase))
    }

    /** The tail of the ledger is of the phase on file, or already of `done`. */
    predicate TailKnown()
      reads `ledger, `phase, `phaseCut
    {
      TailAgrees() || (ledger != [] && Get(ledger[|ledger| - 1], "phase") == Str(Name(DONE)))
    }

    /** The lock is held, and the token file has the token or, if it was cut
        short, a beginning of it. */
    ghost predicate Held(token: string)
      reads `lock, `tokenFile
    {
      lock == Some(token) && tokenFile.Some? && tokenFile.value <= token && (steady ==> tokenFile == lock)
    }

    ghost predicate Freed()
      reads `lock, `tokenFile
    {
      lock.None? && tokenFile.None?
    }

    // ----- single steps, each of which may raise or crash -----

    /** A read, a check or a command whose effect is not modelled. */
    method Step() returns (o: Outcome)
      ensures steady ==> o.Ok?
    {
      o := *;
      o := if steady then Ok else o;
    }

    /** `_current_phase`, for which a phase file cut short is no JSON. */
    method ReadPhase() returns (o: Outcome)
      ensures o.Ok? ==> !phaseCut
      ensures steady ==> o == (if phaseCut then Raised else Ok)
    {
      o := Step();
      if o.Ok? && phaseCut {
        o := Raised;
      }
    }

    /** One `os.write`, which may write less than it is given. */
    method WriteOnce(line: string) returns (written: nat)
      ensures written <= |line| && (steady ==> written == |line|)
    {
      written := |line|;
      var short: nat := *;
      if !steady && short < |line| {
        written := short;
      }
    }

    /** `_append_ledger`: on failure the record may or may not have been written,
        and a short write is taken for a success. Reading the last line raises
        once it no longer parses. */
    method Append(name: string, event: string, evidence: Dict) returns (o: Outcome)
      requires ValidChain(sha, ledger) && (steady ==> !cut) && (!cut ==> tear == Whole)
      modifies `ledger, `tear, `cut
      ensures old(cut) ==> cut
      ensures ValidChain(sha, ledger) && old(ledger) <= ledger
      ensures (steady ==> !cut) && (!cut ==> tear == Whole)
      ensures ledger != old(ledger) ==>
        |ledger| == |old(ledger)| + 1 && IsEntry(ledger[|ledger| - 1], name, event, evidence)
      ensures o.Ok? && !cut ==> ledger != old(ledger)
      ensures old(tear) == Broken ==> !o.Ok? && ledger == old(ledger) && tear == Broken
      ensures steady ==> o.Ok?
    {
      hide ValidChain, NewRecord, IsEntry, Print;
      o := Step();
      if !o.Ok? || tear == Broken {
        return if o.Crashed? then Crashed else Raised;
      }
      var now: string := *;
      now := if now == "" then "0" else now;
      AppendKeepsChain(sha, ledger, name, event, evidence, now);
      EntryOfNewRecord(sha, ledger, name, event, evidence, now);
      var rec := NewRecord(sha, ledger, name, event, evidence, now);
      var line := Print(Obj(rec)) + "\n";
      var written := WriteOnce(line);
      cut := cut || written < |line|;
      if tear == NoBreak {
        tear := if written > 0 then Broken else NoBreak;
      } else if written >= |line| - 1 {
        ledger := ledger + [rec];
        tear := if written == |line| then Whole else NoBreak;
      } else {
        tear := if written > 0 then Broken else Whole;
      }
      o := Step();
    }

    /** Any other event than a transition. */
    method AppendEvent(name: string, event: string, evidence: Dict) returns (o: Outcome)
      requires LedgerOk() && event != TRANSITION
      modifies `ledger, `tear, `cut
      ensures old(cut) ==> cut
      ensures LedgerOk() && old(ledger) <= ledger
      ensures ledger == old(ledger)
              || (|ledger| == |old(ledger)| + 1 && Get(ledger[|ledger| - 1], "phase") == Str(name)
                  && IsEntry(ledger[|old(ledger)|], name, event, evidence))
      ensures o.Ok? && !cut ==> ledger != old(ledger)
      ensures name == Name(phase) && old(TailAgrees()) ==> TailAgrees()
      ensures name in {Name(phase), Name(DONE)} && old(TailKnown()) && !phaseCut ==> TailKnown()
      ensures (o.Ok? && !cut) || steady ==> ledger != [] && Get(ledger[|ledger| - 1], "phase") == Str(name)
      ensures old(tear) == Broken ==> !o.Ok? && ledger == old(ledger) && tear == Broken
      ensures steady ==> o.Ok? && ledger != old(ledger)
    {
      hide ValidChain, Transitions, Prefix, Name;
      ghost var before := ledger;
      o := Append(name, event, evidence);
      if ledger != before {
        assert ledger == before + [ledger[|ledger| - 1]];
        TransitionsAppend(before, ledger[|ledger| - 1]);
      }
    }

    method AppendTransition(source: int, target: int) returns (o: Outcome)
      requires LedgerOk() && 0 <= source == trail && target == source + 1
      modifies `ledger, `tear, `cut, `trail
      ensures old(cut) ==> cut
      ensures LedgerOk() && old(ledger) <= ledger
      ensures trail == old(trail) || trail == old(trail) + 1
      ensures trail == old(trail) ==> ledger == old(ledger)
      ensures trail == old(trail) + 1 ==> ledger != [] && Get(ledger[|ledger| - 1], "phase") == Str(Name(target))
      ensures o.Ok? && !cut ==> trail == old(trail) + 1
      ensures old(tear) == Broken ==> !o.Ok? && trail == old(trail) && tear == Broken
      ensures steady ==> o.Ok?
    {
      hide ValidChain, Transitions, Name, Evidence;
      ghost var before := ledger;
      o := Append(Name(target), TRANSITION, Evidence(Name(source), Name(target)));
      if ledger != before {
        assert ledger == before + [ledger[|ledger| - 1]];
        TransitionsAppend(before, ledger[|ledger| - 1]);
        TransitionEntry(ledger[|ledger| - 1], Name(source), Name(target));
        trail := trail + 1;
      }
    }

    /** `_write_phase`: refuses to go back; the failing directory sync comes
        after the file has been replaced, and a short write is taken for a
        success. Once the file has been cut short it is never written again. */
    method WritePhase(target: int) returns (o: Outcome)
      modifies `phase, `phaseCut, `doneCommitFailed
      ensures phase == old(phase) || (phase == target && target > old(phase))
      ensures phase == old(phase) ==> phaseCut == old(phaseCut)
      ensures old(phaseCut) ==> !o.Ok? && phase == old(phase)
      ensures o.Ok? ==> phase == target
      ensures doneCommitFailed == (old(doneCommitFailed) || (o.Raised? && phase == DONE && old(phase) != DONE))
      ensures steady && target > old(phase) && !old(phaseCut) ==>
        phase == target && !phaseCut && o == (if env == DoneSyncFails && target == DONE then Raised else Ok)
    {
      o := ReadPhase();
      :- o;
      if target <= phase {
        return Raised;
      }
      :- Step();
      var now: string := *;
      var content := Print(Obj(map["phase" := Str(Name(target)), "timestamp_utc" := Str(now)])) + "\n";
      var written := WriteOnce(content);
      :- Step();
      phase, phaseCut := target, written + 1 < |content|;
      o := Step();
      o := if env == DoneSyncFails && target == DONE then Raised else o;
      doneCommitFailed := doneCommitFailed || (o.Raised? && phase == DONE);
    }

    /** How a handler ends, and in which phase, if nothing fails by surprise. */
    function StepEnd(prev: int): Outcome {
      if env == FailsAt(prev) || (env == DoneSyncFails && prev == DONE - 1) then Raised else Ok
    }

    function StepPhase(prev: int): int {
      if env == FailsAt(prev) then prev else prev + 1
    }

    /** `_transition_to`: first the ledger, then the phase file. However it
        ends, they are at most one phase apart, and if they are, they visibly
        disagree. Reading them back may raise, and does once the ledger's last
        line no longer parses, or the phase file does not: then no transition
        succeeds any more. */
    method TransitionTo(target: int) returns (o: Outcome)
      requires LedgerOk() && 0 <= phase == trail && phase < DONE && TailAgrees()
      modifies `ledger, `tear, `cut, `trail, `phase, `phaseCut, `doneCommitFailed
      ensures old(cut) ==> cut
      ensures LedgerOk() && old(ledger) <= ledger
      ensures phase == old(phase) || phase == target == old(phase) + 1
      ensures trail == old(trail) || trail == old(trail) + 1
      ensures trail != phase || phaseCut ==> !o.Ok? && !TailAgrees()
      ensures phase == old(phase) || steady ==> !phaseCut
      ensures o.Ok? ==> phase == target == trail && TailAgrees()
      ensures old(tear) == Broken ==> !o.Ok? && phase == old(phase) && tear == Broken
      ensures tear == Broken ==> !o.Ok?
      ensures doneCommitFailed == (old(doneCommitFailed) || (o.Raised? && phase == DONE))
      ensures steady && target == old(phase) + 1 ==> o == StepEnd(old(phase)) && phase == StepPhase(old(phase))
    {
      assert !phaseCut;
      hide LedgerOk, TailAgrees, Name;
      o := Step();
      if !o.Ok? || target != phase + 1 {
        return if o.Crashed? then Crashed else Raised;
      }
      if env == FailsAt(phase) {
        return Raised;
      }
      :- Commit(target);
      o := Step();
      if !o.Ok? || tear == Broken || !TailAgrees() {
        o := if o.Crashed? then Crashed else Raised;
      }
      doneCommitFailed := doneCommitFailed || (o.Raised? && phase == DONE);
    }

    /** The two writes of a transition. */
    method Commit(target: int) returns (o: Outcome)
      requires LedgerOk() && 0 <= phase == trail && phase < DONE && TailAgrees() && target == phase + 1
      modifies `ledger, `tear, `cut, `trail, `phase, `phaseCut, `doneCommitFailed
      ensures old(cut) ==> cut
      ensures LedgerOk() && old(ledger) <= ledger
      ensures phase == old(phase) || phase == target
      ensures trail == old(trail) || trail == old(trail) + 1
      ensures trail == phase && !phaseCut <==> TailAgrees()
      ensures phase == old(phase) ==> !phaseCut
      ensures o.Ok? ==> phase == target
      ensures old(tear) == Broken ==> !o.Ok? && phase == old(phase) && trail == old(trail) && tear == Broken
      ensures doneCommitFailed == (old(doneCommitFailed) || (o.Raised? && phase == DONE))
      ensures steady ==>
        && phase == target == trail && tear == Whole && !phaseCut
        && o == (if env == DoneSyncFails && target == DONE then Raised else Ok)
    {
      hide ValidChain, Transitions, Prefix, Name;
      NextNameDiffers(phase);
      :- AppendTransition(phase, target);
      o := WritePhase(target);
    }

    // ----- commands that change the outside world -----

    /** `_sync_executor`: replaces the catalog or raises; a failing readback
        raises after the replacement. */
    method SyncExecutor(version: nat) returns (o: Outcome)
      modifies `executor
      ensures executor == old(executor) || executor == version
      ensures o.Ok? ==> executor == version
      ensures steady ==> o.Ok?
    {
      o := Step();
      :- o;
      executor := version;
      o := Step();
    }

    /** `_sync_capacity` */
    method SyncCapacity(version: nat) returns (o: Outcome)
      modifies `capacity
      ensures capacity == old(capacity) || capacity == version
      ensures o.Ok? ==> capacity == version
      ensures steady ==> o.Ok?
    {
      o := Step();
      :- o;
      capacity := version;
      o := Step();
    }

    /** Register and heartbeat of one agent. */
    method BringOnline(agent: Agent) returns (o: Outcome)
      requires online <= registered
      modifies `registered, `online
      ensures online <= registered
      ensures o.Ok? ==> online == old(online) + {agent}
      ensures steady ==> o.Ok?
    {
      o := Step();
      :- o;
      registered := registered + {agent};
      :- Step();
      online := online + {agent};
      o := Step();
    }

    method Deactivate(agent: Agent) returns (o: Outcome)
      modifies `online
      ensures online <= old(online)
      ensures o.Ok? ==> online == old(online) - {agent}
      ensures steady ==> o.Ok?
    {
      o := Step();
      :- o;
      online := online - {agent};
      o := Step();
    }

    /** The helper's start command: it logs the unit before it starts it. */
    method StartUnit(agent: Agent) returns (o: Outcome)
      requires active <= started
      modifies `started, `active
      ensures active <= started && old(started) <= started
      ensures o.Ok? ==> agent in active
      ensures steady ==> o.Ok?
    {
      o := Step();
      :- o;
      started := started + {agent};
      :- Step();
      active := active + {agent};
      o := Step();
    }

    /** The helper's stop command, graceful or not. */
    method StopUnit(agent: Agent) returns (o: Outcome)
      modifies `active
      ensures active <= old(active)
      ensures o.Ok? ==> active == old(active) - {agent}
      ensures steady ==> o.Ok?
    {
      o := Step();
      :- o;
      active := active - {agent};
      o := Step();
    }

    // ----- the handlers, each named after the phase it starts from -----

    /** The outside world of a run without failure, in a committed phase. */
    ghost predicate OnCourse()
      reads `phase, `executor, `capacity, `online, `workspaceAdded, `profileSet
    {
      && workspaceAdded == profileSet == (phase >= WORKSPACE_READY)
      && executor == (if phase < 6 then 0 else if phase < 8 then 1 else if phase < 13 then 2
                      else if phase < 15 then 3 else 4)
      && capacity == (if phase < 7 then 0 else if phase < 14 then 1 else 2)
      && online == (if AGENTS_ONLINE <= phase < AGENTS_OFFLINE then {E1, E2} else {})
    }

    /** The state at the start of a handler. */
    ghost predicate Ready(prev: int)
      reads this
    {
      Inv() && authUsed && phase == prev == trail && 0 <= prev < DONE && TailAgrees() && OnCourse()
    }

    /** Where a handler leaves the run directory, however it ends. */
    ghost predicate Left(prev: int, o: Outcome)
      reads this
    {
      && Inv() && (phase == prev || phase == prev + 1)
      && (o.Ok? ==> phase == prev + 1 == trail && TailAgrees() && OnCourse())
      && (steady ==> o == StepEnd(prev) && phase == StepPhase(prev))
    }

    method FromPreflightOk() returns (o: Outcome)
      requires Ready(PREFLIGHT_OK)
      modifies `ledger, `tear, `cut, `trail, `phase, `phaseCut, `doneCommitFailed
      ensures Left(PREFLIGHT_OK, o) && old(ledger) <= ledger && doneCommitFailed == old(doneCommitFailed)
    {
      hide LedgerOk, TailAgrees;
      :- Step();
      o := TransitionTo(LOCK_HELD);
    }

    method FromLockHeld() returns (o: Outcome)
      requires Ready(LOCK_HELD)
      modifies `ledger, `tear, `cut, `trail, `phase, `phaseCut, `doneCommitFailed
      ensures Left(LOCK_HELD, o) && old(ledger) <= ledger && doneCommitFailed == old(doneCommitFailed)
    {
      hide LedgerOk, TailAgrees;
      :- Step();
      :- Step();
      o := TransitionTo(BASELINE_CAPTURED);
    }

    /** Neither cleanup nor any later handler removes what this one adds. */
    method FromBaselineCaptured() returns (o: Outcome)
      requires Ready(BASELINE_CAPTURED)
      modifies `ledger, `tear, `cut, `trail, `phase, `phaseCut, `doneCommitFailed, `workspaceAdded, `profileSet
      ensures Left(BASELINE_CAPTURED, o) && old(ledger) <= ledger && doneCommitFailed == old(doneCommitFailed)
    {
      hide LedgerOk, TailAgrees;
      o := Step();
      :- o;
      workspaceAdded := true;
      :- Step();
      profileSet := true;
      :- Step();
      o := TransitionTo(WORKSPACE_READY);
    }

    method FromWorkspaceReady() returns (o: Outcome)
      requires Ready(WORKSPACE_READY)
      modifies `ledger, `tear, `cut, `trail, `phase, `phaseCut, `doneCommitFailed, `registered, `online
      ensures Left(WORKSPACE_READY, o) && old(ledger) <= ledger && doneCommitFailed == old(doneCommitFailed)
    {
      hide LedgerOk, TailAgrees;
      :- BringOnline(E1);
      :- BringOnline(E2);
      o := TransitionTo(AGENTS_ONLINE);
    }

    /** The two handlers that sync the executor catalog on the way in and the two
        on the way out differ in version only. */
    method SyncExecutorFrom(prev: int, version: nat) returns (o: Outcome)
      requires Ready(prev) && (prev, version) in {(5, 1), (7, 2), (12, 3), (14, 4)}
      modifies `ledger, `tear, `cut, `trail, `phase, `phaseCut, `doneCommitFailed, `executor
      ensures Left(prev, o) && old(ledger) <= ledger && doneCommitFailed == old(doneCommitFailed)
    {
      hide LedgerOk, TailAgrees;
      :- SyncExecutor(version);
      o := TransitionTo(prev + 1);
    }

    method SyncCapacityFrom(prev: int, version: nat) returns (o: Outcome)
      requires Ready(prev) && (prev, version) in {(6, 1), (13, 2)}
      modifies `ledger, `tear, `cut, `trail, `phase, `phaseCut, `doneCommitFailed, `capacity
      ensures Left(prev, o) && old(ledger) <= ledger && doneCommitFailed == old(doneCommitFailed)
    {
      hide LedgerOk, TailAgrees;
      :- SyncCapacity(version);
      o := TransitionTo(prev + 1);
    }

    /** `_run_five_job_matrix`, as any sequence of unit starts and stops,
        ledger events and other commands. */
    method RunMatrix() returns (o: Outcome)
      requires Ready(EXECUTOR_V2_ENABLED)
      modifies `ledger, `tear, `cut, `started, `active
      ensures Ready(EXECUTOR_V2_ENABLED) && old(ledger) <= ledger
      ensures steady ==> o.Ok?
    {
      hide LedgerOk;
      var steps: int := *;
      while steps > 0
        invariant Ready(EXECUTOR_V2_ENABLED) && old(ledger) <= ledger
      {
        steps := steps - 1;
        var agent: Agent, kind: int := *, *;
        if kind == 0 {
          o := StartUnit(agent);
          :- o;
        } else if kind == 1 {
          o := StopUnit(agent);
          :- o;
        } else if kind == 2 {
          var event: string, evidence: Dict := *, *;
          if event != TRANSITION {
            o := AppendEvent(Name(EXECUTOR_V2_ENABLED), event, evidence);
            :- o;
          }
        } else {
          o := Step();
          :- o;
        }
      }
      o := Step();
    }

    method FromExecutorV2Enabled() returns (o: Outcome)
      requires Ready(EXECUTOR_V2_ENABLED)
      modifies `ledger, `tear, `cut, `trail, `phase, `phaseCut, `doneCommitFailed, `started, `active
      ensures Left(EXECUTOR_V2_ENABLED, o) && old(ledger) <= ledger && doneCommitFailed == old(doneCommitFailed)
    {
      hide LedgerOk, TailAgrees;
      :- RunMatrix();
      o := TransitionTo(MATRIX_RUNNING);
    }

    /** The handlers that only check and record: from matrix-running,
        matrix-verified and agents-offline. */
    method RecordFrom(prev: int, event: string, evidence: Dict) returns (o: Outcome)
      requires Ready(prev) && event != TRANSITION && prev in {MATRIX_RUNNING, MATRIX_VERIFIED, AGENTS_OFFLINE}
      modifies `ledger, `tear, `cut, `trail, `phase, `phaseCut, `doneCommitFailed
      ensures Left(prev, o) && old(ledger) <= ledger && doneCommitFailed == old(doneCommitFailed)
      ensures o.Ok? && !cut ==> |ledger| > |old(ledger)| && IsEntry(ledger[|old(ledger)|], Name(prev), event, evidence)
    {
      hide LedgerOk, TailAgrees, Name, IsEntry;
      :- Step();
      :- AppendEvent(Name(prev), event, evidence);
      o := TransitionTo(prev + 1);
    }

    /** Stops either unit and checks that it is quiescent. */
    method StopBoth() returns (o: Outcome)
      modifies `active
      ensures active <= old(active)
      ensures o.Ok? ==> active == {}
      ensures steady ==> o.Ok?
    {
      o := StopUnit(E1);
      :- o;
      :- Step();
      :- StopUnit(E2);
      BothAgents(active);
      o := Step();
    }

    method FromIntakeFrozen() returns (o: Outcome)
      requires Ready(INTAKE_FROZEN)
      modifies `ledger, `tear, `cut, `trail, `phase, `phaseCut, `doneCommitFailed, `active
      ensures Left(INTAKE_FROZEN, o) && old(ledger) <= ledger && doneCommitFailed == old(doneCommitFailed)
      ensures o.Ok? && !cut ==>
        |ledger| > |old(ledger)| && IsEntry(ledger[|old(ledger)|], Name(INTAKE_FROZEN), "units.quiescent", map[])
    {
      hide IsEntry, LedgerOk, TailAgrees;
      :- Quiesce();
      o := TransitionTo(UNITS_QUIESCENT);
    }

    /** What is done and recorded before the transition to `units-quiescent`. */
    method Quiesce() returns (o: Outcome)
      requires Ready(INTAKE_FROZEN)
      modifies `ledger, `tear, `cut, `active
      ensures old(cut) ==> cut
      ensures Ready(INTAKE_FROZEN) && old(ledger) <= ledger
      ensures o.Ok? ==> active == {}
      ensures steady ==> o.Ok?
      ensures o.Ok? && !cut ==>
        |ledger| > |old(ledger)| && IsEntry(ledger[|old(ledger)|], Name(INTAKE_FROZEN), "units.quiescent", map[])
    {
      hide IsEntry, LedgerOk, TailAgrees, Name;
      :- StopBoth();
      :- Step();
      o := AppendEvent(Name(INTAKE_FROZEN), "units.quiescent", map[]);
    }

    method FromExecutorV4Empty() returns (o: Outcome)
      requires Ready(AGENTS_OFFLINE - 1)
      modifies `ledger, `tear, `cut, `trail, `phase, `phaseCut, `doneCommitFailed, `online
      ensures Left(AGENTS_OFFLINE - 1, o) && old(ledger) <= ledger && doneCommitFailed == old(doneCommitFailed)
    {
      hide LedgerOk, TailAgrees;
      :- Deactivate(E1);
      :- Deactivate(E2);
      o := TransitionTo(AGENTS_OFFLINE);
    }

    // ----- the lock -----

    /** `_require_owned_lock`, of a given token or else of that on file */
    method RequireOwnedLock(given: Option<string>) returns (o: Outcome)
      ensures var token := if given.Some? then given else tokenFile;
              && (o.Ok? ==> token.Some? && lock == token)
              && (steady && token.Some? && lock == token ==> o.Ok?)
    {
      o := Step();
      :- o;
      var token := if given.Some? then given else tokenFile;
      if token.None? || lock != token {
        return Raised;
      }
      o := Step();
    }

    /** `_acquire_lock`: on failure the lock may have been taken already, and
        the token file written, which a short write passes over. */
    method AcquireLock() returns (o: Outcome, token: string)
      modifies `lock, `tokenFile
      ensures o.Ok? ==> Held(token)
      ensures old(tokenFile).Some? || old(lock).Some? ==> !o.Ok? && lock == old(lock) && tokenFile == old(tokenFile)
      ensures steady && old(tokenFile).None? && old(lock).None? ==> o.Ok?
    {
      token := "";
      o := Step();
      if !o.Ok? || tokenFile.Some? || lock.Some? {
        o := if o.Ok? then Raised else o;
        return;
      }
      token := *;
      lock := Some(token);
      o := Step();
      if !o.Ok? {
        return;
      }
      var written := WriteOnce(token + "\n");
      tokenFile := Some(if written < |token| then token[..written] else token);
      o := Step();
      if o.Ok? {
        o := RequireOwnedLock(Some(token));
      }
    }

    /** `_release_lock` */
    method ReleaseLock() returns (o: Outcome)
      modifies `lock, `tokenFile, `releaseFailed
      ensures o.Ok? ==> Freed() && old(tokenFile).Some? && old(lock) == old(tokenFile)
      ensures old(lock) != old(tokenFile) ==> !o.Ok? && lock == old(lock) && tokenFile == old(tokenFile)
      ensures releaseFailed == (old(releaseFailed) || o.Raised?)
      ensures steady && old(tokenFile).Some? && old(lock) == old(tokenFile) ==> o.Ok?
    {
      o := Release();
      releaseFailed := releaseFailed || o.Raised?;
    }

    method Release() returns (o: Outcome)
      modifies `lock, `tokenFile
      ensures old(lock) != old(tokenFile) ==> !o.Ok? && lock == old(lock) && tokenFile == old(tokenFile)
      ensures o.Ok? ==> Freed() && old(tokenFile).Some? && old(lock) == old(tokenFile)
      ensures steady && old(tokenFile).Some? && old(lock) == old(tokenFile) ==> o.Ok?
    {
      o := Step();
      :- o;
      :- RequireOwnedLock(None);
      lock := None;
      :- Step();
      :- Step();
      tokenFile := None;
      o := Step();
    }

    // ----- the last handler, and cleanup -----

    /** Where the lock is left once the run has ended: given back if the phase
        is done, unless the file of that phase could not be written cleanly. */
    ghost predicate Settled(token: string)
      reads `phase, `lock, `tokenFile, `releaseFailed, `doneCommitFailed
    {
      !releaseFailed ==>
        && (doneCommitFailed ==> phase == DONE)
        && (if phase == DONE && !doneCommitFailed then Freed() else Held(token))
    }

    /** No fault has touched the lock before the phase `done`. */
    ghost predicate Underway(token: string)
      reads `phase, `lock, `tokenFile, `releaseFailed, `doneCommitFailed
    {
      phase < DONE ==> Held(token) && !releaseFailed && !doneCommitFailed
    }

    method FromCanonicalCompared(token: string) returns (o: Outcome)
      requires Ready(DONE - 1) && Held(token) && !doneCommitFailed && !releaseFailed
      modifies `ledger, `tear, `cut, `trail, `phase, `phaseCut, `doneCommitFailed, `lock, `tokenFile, `releaseFailed
      ensures Left(DONE - 1, o) && old(ledger) <= ledger
      ensures !o.Crashed? ==> Settled(token) && Underway(token)
      ensures o.Ok? ==> !doneCommitFailed && !releaseFailed
      ensures env == DoneSyncFails ==> doneCommitFailed && !releaseFailed
      ensures phase < DONE ==> tokenFile == old(tokenFile)
    {
      hide LedgerOk, TailAgrees;
      :- FinalGates();
      :- TransitionTo(DONE);
      o := ReleaseLock();
    }

    /** The checks ahead of the last transition. */
    method FinalGates() returns (o: Outcome)
      ensures o.Ok? ==> online == {} && executor == 4 && capacity == 2
      ensures steady && online == {} && executor == 4 && capacity == 2 ==> o.Ok?
    {
      o := Step();
      :- o;
      if online != {} || executor != 4 || capacity != 2 {
        return Raised;
      }
      o := Step();
    }

    /** `_execute_cleanup_suffix` */
    method CleanupSuffix(token: string) returns (o: Outcome)
      requires Inv() && authUsed && Settled(token) && Underway(token)
      modifies `ledger, `tear, `cut, `phase, `phaseCut, `doneCommitFailed, `lock, `tokenFile, `releaseFailed
      modifies `executor, `capacity, `online, `active
      ensures old(cut) ==> cut
      ensures Inv() && old(ledger) <= ledger
      ensures phase == old(phase) || phase == DONE
      ensures !o.Crashed? ==> Settled(token)
      ensures o.Ok? ==> phase == DONE && Compensated() && Freed() && !releaseFailed && !doneCommitFailed
      ensures old(phase) < BASELINE_CAPTURED || old(phase) == DONE ==>
        !o.Ok? && phase == old(phase) && ledger == old(ledger)
      ensures old(phase) == DONE ==>
        lock == old(lock) && tokenFile == old(tokenFile) && releaseFailed == old(releaseFailed)
        && doneCommitFailed == old(doneCommitFailed) && (steady ==> o.Raised?)
      ensures old(tear) == Broken || old(phaseCut) ==>
        && !o.Ok? && phase == old(phase) && executor == old(executor) && capacity == old(capacity)
        && online == old(online) && active == old(active) && tear == old(tear) && phaseCut == old(phaseCut)
      ensures mild && BASELINE_CAPTURED <= old(phase) < DONE ==> o.Ok? && TailAgrees()
      ensures old(TailKnown()) && phase == old(phase) && !phaseCut ==> TailKnown()
      ensures o.Ok? && !cut && !phaseCut ==> TailAgrees()
      ensures phase < DONE ==> tokenFile == old(tokenFile)
    {
      hide LedgerOk, TailAgrees, TailKnown, Compensated, Bounded, Name;
      o := ReadPhase();
      :- o;
      if phase < BASELINE_CAPTURED || phase == DONE {
        return Raised;
      }
      :- RequireOwnedLock(None);
      o := UndoAndConclude(token);
    }

    /** Cleanup once it has started. */
    method UndoAndConclude(token: string) returns (o: Outcome)
      requires Inv() && authUsed && BASELINE_CAPTURED <= phase < DONE && !phaseCut
      requires Held(token) && !releaseFailed && !doneCommitFailed
      modifies `ledger, `tear, `cut, `phase, `phaseCut, `doneCommitFailed, `lock, `tokenFile, `releaseFailed
      modifies `executor, `capacity, `online, `active
      ensures old(cut) ==> cut
      ensures Inv() && old(ledger) <= ledger
      ensures phase == old(phase) || phase == DONE
      ensures !o.Crashed? ==> Settled(token)
      ensures o.Ok? ==> phase == DONE && Compensated() && Freed() && !releaseFailed && !doneCommitFailed
      ensures old(tear) == Broken ==>
        && !o.Ok? && phase == old(phase) && executor == old(executor) && capacity == old(capacity)
        && online == old(online) && active == old(active) && tear == old(tear) && phaseCut == old(phaseCut)
      ensures old(TailKnown()) && phase == old(phase) && !phaseCut ==> TailKnown()
      ensures o.Ok? && !cut && !phaseCut ==> TailAgrees()
      ensures mild ==> o.Ok? && TailAgrees()
      ensures phase < DONE ==> tokenFile == old(tokenFile)
    {
      hide LedgerOk, Name;
      :- Undo();
      o := Conclude(token);
    }

    /** Cleanup between its first and its last ledger event. */
    method Undo() returns (o: Outcome)
      requires LedgerOk() && Bounded() && BASELINE_CAPTURED <= phase < DONE
      modifies `ledger, `tear, `cut, `executor, `capacity, `online, `active
      ensures old(cut) ==> cut
      ensures LedgerOk() && Bounded() && old(ledger) <= ledger
      ensures o.Ok? ==> Compensated()
      ensures ledger != old(ledger) && !cut ==>
        |ledger| > |old(ledger)| && IsEntry(ledger[|old(ledger)|], Name(phase), "cleanup.initiated", map[])
      ensures old(TailKnown()) && !phaseCut ==> TailKnown()
      ensures (o.Ok? && !cut) || steady ==> ledger != [] && Get(ledger[|ledger| - 1], "phase") == Str(Name(DONE))
      ensures old(tear) == Broken ==>
        && !o.Ok? && executor == old(executor) && capacity == old(capacity)
        && online == old(online) && active == old(active) && tear == Broken
      ensures steady ==> o.Ok?
    {
      hide LedgerOk, Compensated, Bounded, Name, IsEntry;
      :- AppendEvent(Name(phase), "cleanup.initiated", map[]);
      :- Compensate();
      :- Step();
      o := AppendEvent(Name(DONE), "cleanup.completed", map[]);
    }

    /** The last two steps of cleanup. */
    method Conclude(token: string) returns (o: Outcome)
      requires phase < DONE && !phaseCut && Held(token) && !releaseFailed && !doneCommitFailed
      modifies `phase, `phaseCut, `doneCommitFailed, `lock, `tokenFile, `releaseFailed
      ensures phase == old(phase) || phase == DONE
      ensures !o.Crashed? ==> Settled(token)
      ensures o.Ok? ==> phase == DONE && Freed() && !releaseFailed && !doneCommitFailed
      ensures steady ==> !phaseCut
      ensures mild ==> o.Ok?
      ensures phase < DONE ==> tokenFile == old(tokenFile)
    {
      o := WritePhase(DONE);
      :- o;
      o := ReleaseLock();
    }

    /** What cleanup undoes, from the committed phase on. */
    method Compensate() returns (o: Outcome)
      requires Bounded() && BASELINE_CAPTURED <= phase < DONE
      modifies `executor, `capacity, `online, `active
      ensures Bounded()
      ensures o.Ok? ==> Compensated()
      ensures steady ==> o.Ok?
    {
      o := StopRecorded();
      :- o;
      :- Step();
      if phase >= AGENTS_ONLINE {
        o := EmptyCatalogs();
        :- o;
      }
      if phase >= WORKSPACE_READY {
        o := Deactivate(E1);
        :- o;
        :- Deactivate(E2);
        BothAgents(online);
      }
      return Ok;
    }

    method EmptyCatalogs() returns (o: Outcome)
      modifies `executor, `capacity
      ensures o.Ok? ==> executor == 4 && capacity == 2
      ensures old(CatalogsInOrder()) ==> CatalogsInOrder()
      ensures steady ==> o.Ok?
    {
      o := SyncExecutor(3);
      :- o;
      :- SyncCapacity(2);
      :- SyncExecutor(4);
      return Ok;
    }

    /** Stops every unit the helper's event log names. */
    method StopRecorded() returns (o: Outcome)
      requires active <= started
      modifies `active
      ensures active <= old(active)
      ensures o.Ok? ==> active == {}
      ensures steady ==> o.Ok?
    {
      if E1 in started {
        o := StopUnit(E1);
        :- o;
      }
      if E2 in started {
        o := StopUnit(E2);
        :- o;
      }
      BothAgents(active);
      return Ok;
    }

    // ----- the state machine -----

    /** The handler registered for the current phase. */
    method RunHandler(token: string) returns (o: Outcome)
      requires Ready(phase) && PREFLIGHT_OK <= phase && Held(token) && !doneCommitFailed && !releaseFailed
      modifies this
      ensures Left(old(phase), o) && old(ledger) <= ledger && authUsed && handlerFailed == old(handlerFailed)
      ensures !o.Crashed? ==> Settled(token) && Underway(token)
      ensures o.Ok? ==> !doneCommitFailed && !releaseFailed
      ensures env == DoneSyncFails ==> doneCommitFailed == (phase == DONE) && !releaseFailed
      ensures phase < DONE ==> tokenFile == old(tokenFile)
    {
      hide Inv, TailAgrees, Compensated;
      match phase
      case 1 => o := FromPreflightOk();
      case 2 => o := FromLockHeld();
      case 3 => o := FromBaselineCaptured();
      case 4 => o := FromWorkspaceReady();
      case 5 => o := SyncExecutorFrom(5, 1);
      case 6 => o := SyncCapacityFrom(6, 1);
      case 7 => o := SyncExecutorFrom(7, 2);
      case 8 => o := FromExecutorV2Enabled();
      case 9 => o := RecordFrom(9, "matrix.verified", map[]);
      case 10 => o := RecordFrom(10, "intake.frozen", map[]);
      case 11 => o := FromIntakeFrozen();
      case 12 => o := SyncExecutorFrom(12, 3);
      case 13 => o := SyncCapacityFrom(13, 2);
      case 14 => o := SyncExecutorFrom(14, 4);
      case 15 => o := FromExecutorV4Empty();
      case 16 => o := RecordFrom(16, "canonical.compared", map[]);
      case _ => o := FromCanonicalCompared(token);
    }

    /** Validates the chain and compares its tail with the phase file. */
    method CheckLedger() returns (o: Outcome)
      requires LedgerOk()
      ensures o.Ok? ==> TailAgrees() && tear != Broken
      ensures steady && TailAgrees() ==> o.Ok?
    {
      hide ValidChain, Transitions, Prefix, TailAgrees;
      o := Step();
      :- o;
      var valid := ValidateLedgerChain(sha, ledger);
      if tear == Broken || !valid || !TailAgrees() {
        return Raised;
      }
      return Ok;
    }

    /** Where the loop of the state machine stops, and how, if nothing fails by
        surprise. */
    function MachinePhase(): int {
      if env.FailsAt? && PREFLIGHT_OK <= env.phase < DONE then env.phase else DONE
    }

    function MachineEnd(): Outcome {
      if env == DoneSyncFails || (env.FailsAt? && PREFLIGHT_OK <= env.phase < DONE) then Raised else Ok
    }

    /** The loop of `_execute_state_machine`. It ends, because every handler
        that returns has advanced the phase by one. */
    method ForwardPhases(token: string) returns (o: Outcome)
      requires Inv() && authUsed && PREFLIGHT_OK == phase == trail && TailAgrees() && OnCourse()
      requires Held(token) && !doneCommitFailed && !releaseFailed
      modifies this
      ensures Inv() && old(ledger) <= ledger && authUsed && handlerFailed == old(handlerFailed)
      ensures !o.Crashed? ==> Settled(token) && Underway(token) && phase >= PREFLIGHT_OK
      ensures o.Ok? ==> phase == DONE == trail && TailAgrees() && OnCourse() && !doneCommitFailed && !releaseFailed
      ensures old(tear) == Broken ==> !o.Ok? && phase == old(phase)
      ensures old(lock) != old(tokenFile) ==>
        !o.Ok? && phase == old(phase) && lock == old(lock) && tokenFile == old(tokenFile)
      ensures steady ==> phase == MachinePhase() && o == MachineEnd()
      ensures env == DoneSyncFails ==> doneCommitFailed && !releaseFailed
      ensures phase < DONE ==> tokenFile == old(tokenFile)
    {
      hide LedgerOk, TailAgrees, Compensated, Bounded;
      while phase != DONE
        invariant Inv() && old(ledger) <= ledger && authUsed && handlerFailed == old(handlerFailed)
        invariant PREFLIGHT_OK <= phase == trail && TailAgrees() && OnCourse()
        invariant Settled(token) && Underway(token) && !doneCommitFailed && !releaseFailed
        invariant phase < DONE ==> tokenFile == old(tokenFile)
        invariant old(tear) == Broken ==> tear == Broken && phase == old(phase)
        invariant old(lock) != old(tokenFile) ==>
          phase == old(phase) && lock == old(lock) && tokenFile == old(tokenFile)
        invariant env == DoneSyncFails ==> phase < DONE
        invariant steady && MachineEnd() == Raised ==> phase <= MachinePhase() && phase < DONE
        decreases DONE - phase
      {
        o := CheckLedger();
        :- o;
        :- RequireOwnedLock(None);
        :- Step();
        :- RunHandler(token);
        :- Step();
      }
      return Ok;
    }

    /** `_execute_state_machine`: a failure is recorded and cleaned up after
        unless nothing has been activated yet, and raised again in any case. */
    method ExecuteStateMachine(token: string) returns (o: Outcome)
      requires Inv() && authUsed && PREFLIGHT_OK == phase == trail && TailAgrees() && OnCourse()
      requires Held(token) && !doneCommitFailed && !releaseFailed
      modifies this
      ensures Inv() && old(ledger) <= ledger && authUsed && handlerFailed == old(handlerFailed)
      ensures !o.Crashed? ==> Settled(token) && phase >= SEALED
      ensures !o.Crashed? && phase <= LOCK_HELD ==> Underway(token)
      ensures o.Ok? ==> phase == DONE == trail && TailAgrees() && OnCourse() && !doneCommitFailed && !releaseFailed
      ensures old(lock) != old(tokenFile) ==>
        !o.Ok? && phase == old(phase) && lock == old(lock) && tokenFile == old(tokenFile)
      ensures steady ==>
        o == MachineEnd() && phase == (if MachinePhase() < BASELINE_CAPTURED then MachinePhase() else DONE)
      ensures mild ==> !releaseFailed && !doneCommitFailed && (phase == DONE ==> TailAgrees())
      ensures env == DoneSyncFails ==> doneCommitFailed && !releaseFailed
      ensures phase < DONE ==> tokenFile == old(tokenFile)
    {
      hide LedgerOk, TailAgrees, Compensated, Bounded, Name;
      o := ForwardPhases(token);
      if o.Raised? {
        var cleanup := CleanUpAfterFailure(token);
        if cleanup.Crashed? {
          return Crashed;
        }
      }
    }

    /** The exception handler of the state machine. Once the phase file or the
        ledger's last line no longer parses it cannot record the failure, and so
        cleans up nothing. */
    method CleanUpAfterFailure(token: string) returns (o: Outcome)
      requires Inv() && authUsed && Settled(token) && Underway(token)
      modifies `ledger, `tear, `cut, `phase, `phaseCut, `doneCommitFailed, `lock, `tokenFile, `releaseFailed
      modifies `executor, `capacity, `online, `active
      ensures Inv() && old(ledger) <= ledger
      ensures phase == old(phase) || phase == DONE
      ensures !o.Crashed? ==> Settled(token)
      ensures o.Ok? ==> phase == DONE && Compensated() && Freed() && !releaseFailed && !doneCommitFailed
      ensures old(phase) < BASELINE_CAPTURED ==>
        && !o.Ok? && phase == old(phase) && lock == old(lock) && tokenFile == old(tokenFile)
        && releaseFailed == old(releaseFailed) && doneCommitFailed == old(doneCommitFailed) && (steady ==> o.Raised?)
      ensures old(phase) == DONE ==>
        && !o.Ok? && lock == old(lock) && tokenFile == old(tokenFile) && releaseFailed == old(releaseFailed)
        && doneCommitFailed == old(doneCommitFailed) && (steady ==> o.Raised?)
      ensures old(tear) == Broken || old(phaseCut) ==>
        && !o.Ok? && phase == old(phase) && executor == old(executor) && capacity == old(capacity)
        && online == old(online) && active == old(active) && tear == old(tear) && phaseCut == old(phaseCut)
      ensures ledger != old(ledger) && !cut ==>
        |ledger| > |old(ledger)| && IsEntry(ledger[|old(ledger)|], Name(old(phase)), "machine.failure", map[])
      ensures old(TailKnown()) && phase == old(phase) && !phaseCut ==> TailKnown()
      ensures o.Ok? && !cut && !phaseCut ==> TailAgrees()
      ensures mild && BASELINE_CAPTURED <= old(phase) < DONE ==> o.Ok? && TailAgrees()
      ensures phase < DONE ==> tokenFile == old(tokenFile)
    {
      hide LedgerOk, TailAgrees, Compensated, Bounded, Name, IsEntry;
      o := ReadPhase();
      :- o;
      if phase < BASELINE_CAPTURED {
        return Raised;
      }
      :- AppendEvent(Name(phase), "machine.failure", map[]);
      o := CleanupSuffix(token);
    }

    /** What `cmd_run` does between taking the lock and its exception handler. */
    method RunUnderLock(token: string) returns (o: Outcome)
      requires Inv() && authUsed && phase == SEALED && trail == 0 && Held(token) && !doneCommitFailed && !releaseFailed
      modifies this
      ensures Inv() && old(ledger) <= ledger && authUsed && handlerFailed == old(handlerFailed)
      ensures !o.Crashed? ==> Settled(token) && phase >= SEALED
      ensures !o.Crashed? && phase <= LOCK_HELD ==> Underway(token)
      ensures o.Ok? ==> phase == DONE == trail && TailAgrees() && OnCourse() && !doneCommitFailed && !releaseFailed
      ensures !old(TailAgrees()) ==> !o.Ok? && phase == SEALED
      ensures old(lock) != old(tokenFile) ==>
        !o.Ok? && phase <= PREFLIGHT_OK && lock == old(lock) && tokenFile == old(tokenFile)
      ensures steady && old(TailAgrees()) ==> o == RunEnd() && phase == RunPhase()
      ensures mild && old(TailAgrees()) && phase == DONE ==> TailAgrees()
      ensures steady && old(TailAgrees()) ==> doneCommitFailed == (env == DoneSyncFails) && !releaseFailed
      ensures phase < DONE ==> tokenFile == old(tokenFile)
    {
      hide LedgerOk, TailAgrees, Compensated;
      o := CheckLedger();
      :- o;
      :- RequireOwnedLock(Some(token));
      :- Preflight();
      :- TransitionTo(PREFLIGHT_OK);
      o := ExecuteStateMachine(token);
    }

    /** The rest of the preflight. */
    method Preflight() returns (o: Outcome)
      ensures steady ==> o == (if env == EvidenceFails then Raised else Ok)
    {
      o := Step();
      o := if env == EvidenceFails then Raised else o;
    }

    /** How a run ends, and in which phase, if nothing fails by surprise. */
    function RunEnd(): Outcome {
      if env == Calm || (env.FailsAt? && !(0 <= env.phase < DONE)) then Ok else Raised
    }

    function RunPhase(): int {
      if env == EvidenceFails then SEALED
      else if env.FailsAt? && 0 <= env.phase < BASELINE_CAPTURED then env.phase
      else DONE
    }

    /** Each environment shows its case: the run that succeeds; the two kinds of
        run that keep the lock in a phase in which it should be free; and for
        every phase the run that fails there, after which the lock is free and,
        if anything had been activated, `done` is on record. */
    ghost predicate Exhibits(o: Outcome, token: string)
      reads `ledger, `phase, `phaseCut, `lock, `tokenFile, `releaseFailed, `doneCommitFailed, `handlerFailed
    {
      && o == RunEnd() && phase == RunPhase() && !releaseFailed
      && doneCommitFailed == (env == DoneSyncFails) && handlerFailed == (env == EvidenceFails)
      && (if mild then Freed() && (phase == DONE ==> TailAgrees()) else Held(token))
    }

    /** `cmd_run`. Once it holds the lock, however it ends short of a crash and
        of a failing release, the lock is free exactly in the phases before
        activation and in `done`, and held with its token otherwise - if and
        only if neither of two things failed: the commit of the phase `done`
        after the file was replaced, and the handler of a failure before
        activation ahead of its release. */
    method CmdRun() returns (o: Outcome, acquired: bool, token: string)
      requires Inv()
      modifies this
      ensures Inv() && old(ledger) <= ledger
      ensures old(phase) != SEALED || old(phaseCut) || old(authUsed) ==> !o.Ok? && !acquired && Untouched()
      ensures old(TokenStays()) ==> TokenStays()
      ensures o.Ok? ==> acquired && phase == DONE == trail && TailAgrees() && Freed()
      ensures o.Ok? ==> active == {} && online == {} && executor == 4 && capacity == 2
      ensures o.Ok? ==> !releaseFailed && !doneCommitFailed && !handlerFailed
      ensures acquired && !o.Crashed? && !releaseFailed ==>
        (GivenBackOrKept(token) <==> !doneCommitFailed && !handlerFailed)
      ensures acquired && !o.Crashed? && !releaseFailed && (doneCommitFailed || handlerFailed) ==> Held(token)
      ensures acquired && !o.Crashed? && doneCommitFailed ==> phase == DONE || releaseFailed
      ensures acquired && !old(TailAgrees()) ==> !o.Ok? && phase == SEALED
      ensures steady && old(phase) == SEALED && !old(authUsed) && old(TailAgrees()) && old(Freed()) ==>
        acquired && Exhibits(o, token)
    {
      hide LedgerOk, TailAgrees, Compensated;
      releaseFailed, doneCommitFailed, handlerFailed := false, false, false;
      acquired, token := false, "";
      o := Authorize();
      if !o.Ok? {
        return;
      }
      o, token := AcquireLock();
      if !o.Ok? {
        return;
      }
      acquired := true;
      o := RunAndGiveBack(token);
    }

    /** The checks of `cmd_run` and the copy of its authorization, which can be
        used once. */
    method Authorize() returns (o: Outcome)
      modifies `authUsed
      ensures phase != SEALED || phaseCut || old(authUsed) ==> !o.Ok? && authUsed == old(authUsed)
      ensures o.Ok? ==> authUsed
      ensures old(authUsed) ==> authUsed
      ensures steady && phase == SEALED && !phaseCut && !old(authUsed) ==> o.Ok?
    {
      o := ReadPhase();
      if !o.Ok? || phase != SEALED || authUsed {
        return if o.Crashed? then Crashed else Raised;
      }
      :- Step();
      authUsed := true;
      o := Step();
    }

    /** The rest of `cmd_run`, once it holds the lock. */
    method RunAndGiveBack(token: string) returns (o: Outcome)
      requires Inv() && authUsed && phase == SEALED && trail == 0 && Held(token)
      requires !doneCommitFailed && !releaseFailed && !handlerFailed
      modifies this
      ensures Inv() && old(ledger) <= ledger
      ensures o.Ok? ==> phase == DONE == trail && TailAgrees() && OnCourse()
      ensures o.Ok? ==> !releaseFailed && !doneCommitFailed && !handlerFailed && Freed()
      ensures !o.Crashed? && !releaseFailed ==> (GivenBackOrKept(token) <==> !doneCommitFailed && !handlerFailed)
      ensures !o.Crashed? && !releaseFailed && (doneCommitFailed || handlerFailed) ==> Held(token)
      ensures !o.Crashed? && doneCommitFailed ==> phase == DONE || releaseFailed
      ensures !old(TailAgrees()) ==> !o.Ok? && phase == SEALED
      ensures steady && old(TailAgrees()) ==> Exhibits(o, token)
      ensures old(lock) != old(tokenFile) ==>
        !o.Ok? && phase <= PREFLIGHT_OK && lock == old(lock) && tokenFile == old(tokenFile)
      ensures BASELINE_CAPTURED <= phase < DONE ==> tokenFile == old(tokenFile)
    {
      hide LedgerOk, TailAgrees, Bounded, OnCourse;
      o := RunUnderLock(token);
      if o.Raised? && phase <= LOCK_HELD {
        var handled := GiveBack();
        o := if handled.Crashed? then Crashed else Raised;
      }
    }

    /** The exception handler of `cmd_run` before activation. */
    method GiveBack() returns (o: Outcome)
      modifies `lock, `tokenFile, `releaseFailed, `handlerFailed
      ensures phaseCut || old(lock) != old(tokenFile) ==> !o.Ok? && lock == old(lock) && tokenFile == old(tokenFile)
      ensures env == EvidenceFails ==> o.Raised? && handlerFailed && releaseFailed == old(releaseFailed)
      ensures mild && !phaseCut && old(tokenFile).Some? && old(lock) == old(tokenFile) ==> o.Ok?
      ensures o.Ok? ==> Freed() && handlerFailed == old(handlerFailed) && releaseFailed == old(releaseFailed)
      ensures o.Raised? ==> (releaseFailed && handlerFailed == old(handlerFailed))
                            || (handlerFailed && lock == old(lock) && tokenFile == old(tokenFile)
                                && releaseFailed == old(releaseFailed))
    {
      o := ReadAndRecord();
      if !o.Ok? {
        handlerFailed := handlerFailed || o.Raised?;
        return;
      }
      o := ReleaseLock();
    }

    /** Reads the phase and writes the evidence of the failure. */
    method ReadAndRecord() returns (o: Outcome)
      ensures env == EvidenceFails ==> o.Raised?
      ensures phaseCut ==> !o.Ok?
      ensures steady && !phaseCut ==> o == (if env == EvidenceFails then Raised else Ok)
    {
      o := ReadPhase();
      :- o;
      o := Step();
      o := if env == EvidenceFails then Raised else o;
    }

    ghost predicate GivenBackOrKept(token: string)
      reads `phase, `lock, `tokenFile
    {
      if phase in {SEALED, PREFLIGHT_OK, LOCK_HELD, DONE} then Freed() else Held(token)
    }

    /** `cmd_cleanup`. It can only succeed if somebody else has removed the token
        file of the run and released the lock: while that file exists it does
        not start, and after every history of the commands it exists. */
    method CmdCleanup() returns (o: Outcome)
      requires Inv()
      modifies this
      ensures Inv() && old(ledger) <= ledger
      ensures old(TokenStays()) ==> !o.Ok? && Untouched() && TokenStays()
      ensures old(phaseCut) ==> !o.Ok? && Untouched()
      ensures old(tokenFile).Some? || old(lock).Some? || old(phase) < WORKSPACE_READY || old(phase) == DONE ==>
        !o.Ok? && Untouched()
      ensures o.Ok? ==> phase == DONE && Compensated() && Freed()
      ensures o.Ok? && !cut && !phaseCut ==> TailAgrees()
      ensures mild && WORKSPACE_READY <= old(phase) < DONE && old(lock).None? && old(tokenFile).None? ==> o.Ok?
    {
      hide LedgerOk, TailAgrees, Compensated, Bounded;
      releaseFailed, doneCommitFailed, handlerFailed := false, false, false;
      o := ReadPhase();
      if !o.Ok? || phase < WORKSPACE_READY || phase == DONE {
        return if o.Crashed? then Crashed else Raised;
      }
      var token: string;
      o, token := AcquireLock();
      if !o.Ok? {
        return;
      }
      o := CleanupSuffix(token);
    }

    /** `cmd_prepare`: first the phase file, then the ledger. Once the run
        directory exists it is refused, even if preparing it has failed, and so
        it is while anybody holds the lock. */
    method CmdPrepare() returns (o: Outcome)
      requires Inv()
      modifies `rootExists, `ledger, `tear, `cut, `phase, `phaseCut, `doneCommitFailed
      ensures Inv() && old(ledger) <= ledger
      ensures old(rootExists) || old(lock).Some? ==> !o.Ok? && Untouched()
      ensures old(TokenStays()) ==> TokenStays()
      ensures phase == old(phase) || (old(phase) == ABSENT && phase == SEALED)
      ensures o.Ok? ==> phase == SEALED && |ledger| <= 1 && (ledger != [] && !phaseCut ==> TailAgrees())
      ensures o.Ok? && !cut ==> |ledger| == 1
      ensures steady && !old(rootExists) && old(lock).None? ==> o.Ok? && |ledger| == 1 && TailAgrees()
    {
      hide LedgerOk, TailAgrees, Bounded;
      o := Step();
      if !o.Ok? || rootExists || lock.Some? {
        return if o.Crashed? then Crashed else Raised;
      }
      rootExists := true;
      :- Step();
      o := Seal();
    }

    /** The last two steps of prepare. */
    method Seal() returns (o: Outcome)
      requires Inv() && phase == ABSENT && rootExists
      modifies `ledger, `tear, `cut, `phase, `phaseCut, `doneCommitFailed
      ensures old(cut) ==> cut
      ensures Inv() && old(ledger) <= ledger && (phase == ABSENT || phase == SEALED)
      ensures o.Ok? ==> phase == SEALED && |ledger| <= 1 && (ledger != [] && !phaseCut ==> TailAgrees())
      ensures o.Ok? && !cut ==> |ledger| == 1
      ensures steady ==> o.Ok? && |ledger| == 1
      ensures ledger != [] ==> IsEntry(ledger[0], Name(SEALED), "prepare.completed", map[])
    {
      hide LedgerOk, Compensated, Name, IsEntry;
      :- WritePhase(SEALED);
      o := AppendEvent(Name(SEALED), "prepare.completed", map[]);
    }

    /** Any sequence of the three commands, each ending as it may, crashes
        included. No cleanup in it ever succeeds, and once a run has used its
        authorization no command changes anything any more: wherever it has
        stopped, by failure or crash, it stays. */
    method AnyCommands() returns (cleanedUp: bool)
      requires Inv() && TokenStays()
      modifies this
      ensures Inv() && TokenStays() && old(ledger) <= ledger
      ensures !cleanedUp
      ensures old(authUsed) || old(phaseCut) ==> Untouched()
    {
      hide LedgerOk, TrailOk, Bounded, Compensated;
      cleanedUp := false;
      var commands: int := *;
      while commands > 0
        invariant Inv() && TokenStays() && old(ledger) <= ledger
        invariant !cleanedUp
        invariant old(authUsed) || old(phaseCut) ==> Untouched()
      {
        commands := commands - 1;
        var kind: int := *;
        if kind == 0 {
          var prepared := CmdPrepare();
        } else if kind == 1 {
          var ran, acquired, token := CmdRun();
        } else {
          var cleaned := CmdCleanup();
          cleanedUp := cleanedUp || cleaned.Ok?;
        }
      }
    }
  }

  lemma BothAgents(agents: set<Agent>)
    requires E1 !in agents && E2 !in agents
    ensures agents == {}
  {
    forall a ensures a !in agents {
      match a {
        case E1 =>
        case E2 =>
      }
    }
  }

  lemma EntryOfNewRecord(sha: string -> string, records: seq<Record>, phase: string, event: string, evidence: Dict,
                         now: string)
    ensures IsEntry(NewRecord(sha, records, phase, event, evidence, now), phase, event, evidence)
  {
    hide NewRecord, RecordSha;
    NewRecordFields(sha, records, phase, event, evidence, now);
  }
}
