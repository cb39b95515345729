/** scripts/production-mutation-lock.py as file-system steps, interleaved
    between any number of calls of its acquire, release and recover commands. */
module LockProtocol {
  import opened Prelude

  type CallId = nat
  type Token = string

  /** What a release or recover call is about to do. */
  datatype Stage = CheckDir | CheckOwner | CheckEntries | ReadOwner | Probe | Audit | Unlink | Rmdir

  /** What a call is about to do. */
  datatype Pc =
    | Mkdir
    | Chown
    | ChownCleanup
    | NeedToken
    | CreateTemp(token: Token)
    | WriteTemp(token: Token)
    | Replace(token: Token)
    | SyncDir(token: Token)
    | DropTemp(token: Token)
    | List(token: Token)
    | ClearOwner(token: Token)
    | AcquireRmdir(token: Token)
    | Holding(token: Token)
    | Removing(stage: Stage, token: Token, recovering: bool)
    | Finished
  {
    /** An acquire call between its mkdir and its return. */
    predicate InFlight() {
      !Mkdir? && !Holding? && !Removing? && !Finished?
    }

    /** Before its temporary file can exist. */
    predicate Early() {
      Chown? || ChownCleanup? || NeedToken? || CreateTemp?
    }

    predicate Returned() {
      Holding? || Finished?
    }

    function Carried(): Option<Token> {
      if Mkdir? || Chown? || ChownCleanup? || NeedToken? || Finished? then None else Some(token)
    }
  }

  /** The lock directory, owner.json, the temporary files inside the directory
      (one per acquire call), the calls, and as a record of history the
      acquisitions whose directory has been made and not yet removed, each with
      the token it generated. */
  datatype State = State(
    dir: bool,
    owner: Option<Token>,
    temps: set<CallId>,
    calls: map<CallId, Pc>,
    tenure: map<CallId, Option<Token>>)

  const INITIAL := State(false, None, {}, map[], map[])

  /** Any system call may succeed, or fail without effect, and a call may die
      before any of them. A dead call does nothing more and no longer runs. */
  datatype Event =
    | StartAcquire(call: CallId)
    | StartRemove(call: CallId, token: Token, recovering: bool)
    | Generate(call: CallId, token: Token)
    | Succeeds(call: CallId)
    | Fails(call: CallId)
    | Dies(call: CallId)

  /** The assumption on tokens: no call still running carries this one. */
  ghost predicate Unshared(s: State, t: Token) {
    forall c :: c in s.calls && !s.calls[c].Returned() ==> s.calls[c].Carried() != Some(t)
  }

  /** The two places where it is assumed: a generated token is new to every
      running call, and nobody releases or recovers with a token that another
      running call carries. */
  ghost predicate Careful(s: State, e: Event) {
    match e
    case StartRemove(_, t, _) => Unshared(s, t)
    case Generate(_, t) => Unshared(s, t)
    case _ => true
  }

  predicate Possible(s: State, e: Event) {
    match e
    case StartAcquire(c) => c !in s.calls
    case StartRemove(c, _, _) => c !in s.calls
    case Generate(c, _) => c in s.calls && s.calls[c].NeedToken?
    case Succeeds(c) => c in s.calls && CanSucceed(s, c, s.calls[c])
    case Fails(c) => c in s.calls && !s.calls[c].Returned() && !s.calls[c].NeedToken?
    case Dies(c) => c in s.calls && !s.calls[c].Returned()
  }

  ghost predicate Enabled(s: State, e: Event) {
    Possible(s, e) && Careful(s, e)
  }

  /** When the pending system call finds what it needs. */
  predicate CanSucceed(s: State, c: CallId, pc: Pc) {
    match pc
    case Mkdir => !s.dir
    case Chown => s.dir
    case ChownCleanup => CanRmdir(s)
    case NeedToken => false
    case CreateTemp(_) => s.dir && c !in s.temps
    case WriteTemp(_) => c in s.temps
    case Replace(_) => s.dir && c in s.temps
    case SyncDir(_) => s.dir
    case DropTemp(_) => c in s.temps
    case List(_) => s.dir && s.temps == {}
    case ClearOwner(_) => true
    case AcquireRmdir(_) => CanRmdir(s)
    case Holding(_) => false
    case Removing(stage, t, _) => CanRemove(s, stage, t)
    case Finished => false
  }

  predicate CanRmdir(s: State) {
    s.dir && s.owner.None? && s.temps == {}
  }

  predicate CanRemove(s: State, stage: Stage, t: Token) {
    match stage
    case CheckDir => s.dir
    case CheckOwner => s.dir && s.owner.Some?
    case CheckEntries => s.dir && s.owner.Some? && s.temps == {}
    case ReadOwner => s.owner == Some(t)
    case Probe => true
    case Audit => true
    case Unlink => s.owner.Some?
    case Rmdir => CanRmdir(s)
  }

  function Goto(s: State, c: CallId, pc: Pc): State {
    s.(calls := s.calls[c := pc])
  }

  /** The tenure that ends when a call removes the directory: its own, or that
      of the acquisition whose token it carries. */
  function EndTenure(s: State, c: CallId, t: Option<Token>): State {
    s.(dir := false, tenure := map h | h in s.tenure && h != c && (t.None? || s.tenure[h] != t) :: s.tenure[h])
  }

  function Advance(s: State, c: CallId, pc: Pc): State {
    match pc
    case Mkdir => Goto(s, c, Chown).(dir := true, tenure := s.tenure[c := None])
    case Chown => Goto(s, c, NeedToken)
    case ChownCleanup => EndTenure(Goto(s, c, Finished), c, None)
    case CreateTemp(t) => Goto(s, c, WriteTemp(t)).(temps := s.temps + {c})
    case WriteTemp(t) => Goto(s, c, Replace(t))
    case Replace(t) => Goto(s, c, SyncDir(t)).(temps := s.temps - {c}, owner := Some(t))
    case SyncDir(t) => Goto(s, c, Holding(t))
    case DropTemp(t) => Goto(s, c, List(t)).(temps := s.temps - {c})
    case List(t) => Goto(s, c, ClearOwner(t))
    case ClearOwner(t) => Goto(s, c, AcquireRmdir(t)).(owner := None)
    case AcquireRmdir(t) => EndTenure(Goto(s, c, Finished), c, None)
    case Removing(stage, t, recovering) => AdvanceRemoval(s, c, stage, t, recovering)
    case _ => s
  }

  function AdvanceRemoval(s: State, c: CallId, stage: Stage, t: Token, recovering: bool): State {
    match stage
    case CheckDir => Goto(s, c, Removing(CheckOwner, t, recovering))
    case CheckOwner => Goto(s, c, Removing(CheckEntries, t, recovering))
    case CheckEntries => Goto(s, c, Removing(ReadOwner, t, recovering))
    case ReadOwner => Goto(s, c, Removing(if recovering then Probe else Unlink, t, recovering))
    case Probe => Goto(s, c, Removing(Audit, t, recovering))
    case Audit => Goto(s, c, Removing(Unlink, t, recovering))
    case Unlink => Goto(s, c, Removing(Rmdir, t, recovering)).(owner := None)
    case Rmdir => EndTenure(Goto(s, c, Finished), c, Some(t))
  }

  /** Where a call goes on when its pending step fails. */
  function Fallback(pc: Pc): Pc {
    match pc
    case Chown => ChownCleanup
    case CreateTemp(t) => DropTemp(t)
    case WriteTemp(t) => DropTemp(t)
    case Replace(t) => DropTemp(t)
    case SyncDir(t) => DropTemp(t)
    case DropTemp(t) => List(t)
    case _ => Finished
  }

  function Apply(s: State, e: Event): State {
    match e
    case StartAcquire(c) => Goto(s, c, Mkdir)
    case StartRemove(c, t, recovering) => Goto(s, c, Removing(CheckDir, t, recovering))
    case Generate(c, t) => Goto(s, c, CreateTemp(t)).(tenure := s.tenure[c := Some(t)])
    case Succeeds(c) => if c in s.calls then Advance(s, c, s.calls[c]) else s
    case Fails(c) => if c in s.calls then Goto(s, c, Fallback(s.calls[c])) else s
    case Dies(c) => Goto(s, c, Finished)
  }

  // ----- the invariant -----

  ghost predicate OneTenure(s: State) {
    && (forall a, b :: a in s.tenure && b in s.tenure ==> a == b)
    && (s.dir <==> s.tenure != map[])
    && s.temps <= s.tenure.Keys
    && (s.owner.Some? ==> s.dir && forall h :: h in s.tenure ==> s.tenure[h] == s.owner)
  }

  /** An acquire call in flight owns the tenure; one that has replaced
      owner.json finds its own token there, and one that has not yet created its
      temporary file has none. */
  ghost predicate FlightOk(s: State, c: CallId, pc: Pc) {
    && (pc.InFlight() ==> c in s.tenure && s.tenure[c] == pc.Carried())
    && (pc.SyncDir? ==> s.owner == pc.Carried())
    && (pc.Early() ==> c !in s.temps)
  }

  /** A removal past its check still finds the owner it has checked, and one
      past its unlink still finds that owner's directory. */
  ghost predicate RemovalOk(s: State, pc: Pc) {
    pc.Removing? ==>
      && (pc.stage in {Probe, Audit, Unlink} ==> s.owner == Some(pc.token))
      && (pc.stage == Rmdir ==> s.owner.None? && s.dir && forall h :: h in s.tenure ==> s.tenure[h] == Some(pc.token))
  }

  ghost predicate Differ(a: Pc, b: Pc) {
    !a.Returned() && !b.Returned() && a.Carried().Some? ==> a.Carried() != b.Carried()
  }

  /** Running calls carry different tokens. */
  ghost predicate Apart(s: State) {
    forall c, d :: c in s.calls && d in s.calls && c != d ==> Differ(s.calls[c], s.calls[d])
  }

  ghost predicate Inv(s: State) {
    && OneTenure(s)
    && Apart(s)
    && (forall c :: c in s.calls ==> FlightOk(s, c, s.calls[c]))
    && (forall c :: c in s.calls ==> RemovalOk(s, s.calls[c]))
  }

  /** A call that moves on with the token it has keeps the calls apart. */
  lemma ApartGoto(s: State, c: CallId, pc: Pc)
    requires Apart(s) && c in s.calls
    requires pc.Returned() || (!s.calls[c].Returned() && (pc.Carried() == s.calls[c].Carried() || pc.Carried().None?))
    ensures Apart(Goto(s, c, pc))
  {
  }

  /** Being apart is a matter of the calls alone. */
  lemma ApartCalls(a: State, b: State)
    requires Apart(a) && a.calls == b.calls
    ensures Apart(b)
  {
  }

  lemma ApartNew(s: State, c: CallId, pc: Pc)
    requires Apart(s) && (c !in s.calls || s.calls[c].NeedToken?)
    requires pc.Carried().Some? ==> Unshared(s, pc.Carried().value)
    ensures Apart(Goto(s, c, pc))
  {
    forall d | d in s.calls && d != c ensures Differ(s.calls[d], pc) && Differ(pc, s.calls[d]) {
      if pc.Carried().Some? && !s.calls[d].Returned() {
        assert s.calls[d].Carried() != pc.Carried();
      }
    }
  }

  /** Only the calling program counter changes. */
  lemma GotoKeeps(s: State, c: CallId, pc: Pc)
    requires Inv(s) && Apart(Goto(s, c, pc))
    requires FlightOk(s, c, pc) && RemovalOk(s, pc)
    ensures Inv(Goto(s, c, pc))
  {
    hide Apart;
    var n := Goto(s, c, pc);
    forall d | d in n.calls ensures FlightOk(n, d, n.calls[d]) && RemovalOk(n, n.calls[d]) {
    }
  }

  lemma MkdirKeeps(s: State, c: CallId)
    requires Inv(s) && c in s.calls && s.calls[c].Mkdir? && !s.dir
    ensures Inv(Advance(s, c, Mkdir))
  {
    hide Apart;
    ApartGoto(s, c, Chown);
    var n := Advance(s, c, Mkdir);
    ApartCalls(Goto(s, c, Chown), n);
    assert s.tenure == map[];
    forall d | d in n.calls ensures FlightOk(n, d, n.calls[d]) && RemovalOk(n, n.calls[d]) {
      if d != c {
        assert FlightOk(s, d, s.calls[d]) && RemovalOk(s, s.calls[d]);
      }
    }
  }

  predicate PastCheck(pc: Pc) {
    pc.Removing? && pc.stage in {Probe, Audit, Unlink, Rmdir}
  }

  /** While an acquire call is in flight no other call is in flight and no
      removal is past its check. */
  lemma FlightExcludes(s: State, c: CallId, d: CallId)
    requires Inv(s) && c in s.calls && s.calls[c].InFlight() && d in s.calls && d != c
    ensures !s.calls[d].InFlight() && !PastCheck(s.calls[d])
  {
    assert FlightOk(s, c, s.calls[c]) && FlightOk(s, d, s.calls[d]) && RemovalOk(s, s.calls[d]);
    assert Differ(s.calls[c], s.calls[d]) && Differ(s.calls[d], s.calls[c]);
  }

  /** While a removal is past its check no other one is. */
  lemma RemovalExcludes(s: State, c: CallId, d: CallId)
    requires Inv(s) && c in s.calls && PastCheck(s.calls[c]) && d in s.calls && d != c
    ensures !s.calls[d].InFlight() && !PastCheck(s.calls[d])
  {
    if s.calls[d].InFlight() {
      FlightExcludes(s, d, c);
    }
    assert RemovalOk(s, s.calls[c]) && RemovalOk(s, s.calls[d]) && Differ(s.calls[c], s.calls[d]);
    assert s.dir && s.tenure != map[];
    var h :| h in s.tenure;
  }

  /** A change by the one call that may make it: everybody else's conditions
      are about nothing that has changed. */
  lemma SoleChange(s: State, c: CallId, n: State)
    requires Inv(s) && c in s.calls && (s.calls[c].InFlight() || PastCheck(s.calls[c]))
    requires c in n.calls && n.calls == s.calls[c := n.calls[c]]
    requires Apart(n) && OneTenure(n) && FlightOk(n, c, n.calls[c]) && RemovalOk(n, n.calls[c])
    ensures Inv(n)
  {
    hide Apart, OneTenure;
    forall d | d in n.calls ensures FlightOk(n, d, n.calls[d]) && RemovalOk(n, n.calls[d]) {
      if d != c {
        if s.calls[c].InFlight() {
          FlightExcludes(s, c, d);
        } else {
          RemovalExcludes(s, c, d);
        }
      }
    }
  }

  lemma GenerateKeeps(s: State, c: CallId, t: Token)
    requires Inv(s) && Enabled(s, Generate(c, t))
    ensures Inv(Apply(s, Generate(c, t)))
  {
    hide Apart, Unshared;
    ApartNew(s, c, CreateTemp(t));
    var n := Apply(s, Generate(c, t));
    assert FlightOk(s, c, s.calls[c]);
    ApartCalls(Goto(s, c, CreateTemp(t)), n);
    SoleChange(s, c, n);
  }

  /** The steps of an acquire call in flight. */
  lemma FlightKeeps(s: State, c: CallId)
    requires Inv(s) && c in s.calls && s.calls[c].InFlight() && CanSucceed(s, c, s.calls[c])
    ensures Inv(Advance(s, c, s.calls[c]))
  {
    hide Apart;
    var pc := s.calls[c];
    var n := Advance(s, c, pc);
    assert FlightOk(s, c, pc);
    ApartGoto(s, c, n.calls[c]);
    ApartCalls(Goto(s, c, n.calls[c]), n);
    if pc.ChownCleanup? || pc.AcquireRmdir? {
      assert n.tenure == map[] by {
        assert forall h :: h !in n.tenure;
      }
    }
    SoleChange(s, c, n);
  }

  lemma RemovalKeeps(s: State, c: CallId)
    requires Inv(s) && c in s.calls && s.calls[c].Removing? && CanSucceed(s, c, s.calls[c])
    ensures Inv(Advance(s, c, s.calls[c]))
  {
    hide Apart;
    var pc := s.calls[c];
    var n := Advance(s, c, pc);
    assert RemovalOk(s, pc);
    ApartGoto(s, c, n.calls[c]);
    ApartCalls(Goto(s, c, n.calls[c]), n);
    if pc.stage == Rmdir {
      assert n.tenure == map[] by {
        assert forall h :: h !in n.tenure;
      }
    }
    if PastCheck(pc) {
      SoleChange(s, c, n);
    } else {
      GotoKeeps(s, c, n.calls[c]);
    }
  }

  lemma FailureKeeps(s: State, c: CallId)
    requires Inv(s) && c in s.calls && !s.calls[c].Returned() && !s.calls[c].NeedToken?
    ensures Inv(Goto(s, c, Fallback(s.calls[c])))
  {
    hide Apart;
    ApartGoto(s, c, Fallback(s.calls[c]));
    assert FlightOk(s, c, s.calls[c]);
    GotoKeeps(s, c, Fallback(s.calls[c]));
  }

  /** A death leaves the files as they are, for a removal to find. */
  lemma DeathKeeps(s: State, c: CallId)
    requires Inv(s) && c in s.calls && !s.calls[c].Returned()
    ensures Inv(Goto(s, c, Finished))
  {
    hide Apart;
    ApartGoto(s, c, Finished);
    GotoKeeps(s, c, Finished);
  }

  /** Every step keeps the invariant. */
  lemma StepKeeps(s: State, e: Event)
    requires Inv(s) && Enabled(s, e)
    ensures Inv(Apply(s, e))
  {
    hide Inv, Advance, CanSucceed, Unshared;
    match e
    case StartAcquire(c) =>
      StartKeeps(s, c, Mkdir);
    case StartRemove(c, t, recovering) =>
      StartKeeps(s, c, Removing(CheckDir, t, recovering));
    case Generate(c, t) =>
      GenerateKeeps(s, c, t);
    case Succeeds(c) =>
      if s.calls[c].Removing? {
        RemovalKeeps(s, c);
      } else if s.calls[c].Mkdir? {
        MkdirSucceeds(s, c);
        MkdirKeeps(s, c);
      } else {
        SucceedsInFlight(s, c, s.calls[c]);
        FlightKeeps(s, c);
      }
    case Fails(c) =>
      FailureKeeps(s, c);
    case Dies(c) =>
      DeathKeeps(s, c);
  }

  lemma MkdirSucceeds(s: State, c: CallId)
    requires CanSucceed(s, c, Mkdir)
    ensures !s.dir
  {
  }

  lemma SucceedsInFlight(s: State, c: CallId, pc: Pc)
    requires CanSucceed(s, c, pc) && !pc.Removing? && !pc.Mkdir?
    ensures pc.InFlight()
  {
  }

  lemma StartKeeps(s: State, c: CallId, pc: Pc)
    requires Inv(s) && c !in s.calls
    requires pc == Mkdir || (pc.Removing? && pc.stage == CheckDir && Unshared(s, pc.token))
    ensures Inv(Goto(s, c, pc))
  {
    hide Apart;
    ApartNew(s, c, pc);
    GotoKeeps(s, c, pc);
  }

  // ----- whole runs -----

  function RunFrom(s: State, events: seq<Event>): State
    decreases |events|
  {
    if events == [] then s else RunFrom(Apply(s, events[0]), events[1..])
  }

  ghost predicate LegalFrom(s: State, events: seq<Event>)
    decreases |events|
  {
    events == [] || (Enabled(s, events[0]) && LegalFrom(Apply(s, events[0]), events[1..]))
  }

  lemma {:induction false} RunKeeps(s: State, events: seq<Event>)
    requires Inv(s) && LegalFrom(s, events)
    ensures Inv(RunFrom(s, events))
    decreases |events|
  {
    hide Inv, Enabled, Apply;
    if events != [] {
      StepKeeps(s, events[0]);
      RunKeeps(Apply(s, events[0]), events[1..]);
    }
  }

  lemma InitialInv()
    ensures Inv(INITIAL)
  {
  }

  /** Mutual exclusion: in every run of any number of calls, with failures and
      deaths at any step, and releases and recoveries of what the dead have left
      behind, at most one acquisition is between its mkdir and the removal of
      its directory, and an owner.json that is present carries its token. */
  lemma MutualExclusion(events: seq<Event>)
    requires LegalFrom(INITIAL, events)
    ensures var s := RunFrom(INITIAL, events);
            && (forall a, b :: a in s.tenure && b in s.tenure ==> a == b)
            && (s.dir <==> s.tenure != map[])
            && (s.owner.Some? ==> exists c :: c in s.tenure && s.tenure[c] == s.owner)
  {
    hide LegalFrom, RunFrom;
    InitialInv();
    RunKeeps(INITIAL, events);
    var s := RunFrom(INITIAL, events);
    if s.owner.Some? {
      assert s.tenure != map[];
      var c :| c in s.tenure;
      assert s.tenure[c] == s.owner;
    }
  }

  /** Only the acquisition itself, or a release or recover carrying its token,
      takes away its owner.json or its directory: never another acquisition's
      cleanup, and never a removal with another token. */
  lemma OnlyOwnRemoval(s: State, e: Event, h: CallId)
    requires Inv(s) && Enabled(s, e) && h in s.tenure
    requires (s.owner.Some? && Apply(s, e).owner != s.owner) || (s.dir && !Apply(s, e).dir)
    ensures e.Succeeds? && e.call in s.calls
    ensures var pc := s.calls[e.call];
            || (e.call == h && pc.InFlight())
            || (pc.Removing? && s.tenure[h] == Some(pc.token))
    ensures Apply(s, e).dir <==> h in Apply(s, e).tenure
  {
    hide Apart, Careful;
    var pc := s.calls[e.call];
    assert FlightOk(s, e.call, pc) && RemovalOk(s, pc);
  }

  /** The lock is held for a token. */
  ghost predicate Held(s: State, c: CallId, t: Token) {
    c in s.calls && s.calls[c] == Holding(t) && c in s.tenure && s.owner == Some(t)
  }

  /** An acquire call that returns holds the lock. */
  lemma AcquireReturnsHolding(s: State, e: Event)
    requires Inv(s) && Enabled(s, e) && e.call in s.calls && !s.calls[e.call].Holding?
    requires e.call in Apply(s, e).calls && Apply(s, e).calls[e.call].Holding?
    ensures Held(Apply(s, e), e.call, Apply(s, e).calls[e.call].token)
  {
    hide Apart, OneTenure, Careful;
    assert FlightOk(s, e.call, s.calls[e.call]);
  }

  /** No event by a release or recover with this token. */
  ghost predicate Untouched(s: State, events: seq<Event>, t: Token)
    decreases |events|
  {
    events == [] || (!Touches(s, events[0], t) && Untouched(Apply(s, events[0]), events[1..], t))
  }

  predicate Touches(s: State, e: Event, t: Token) {
    e.Succeeds? && e.call in s.calls && s.calls[e.call].Removing? && s.calls[e.call].token == t
  }

  lemma HeldStep(s: State, e: Event, c: CallId, t: Token)
    requires Inv(s) && Enabled(s, e) && Held(s, c, t) && !Touches(s, e, t)
    ensures Held(Apply(s, e), c, t)
  {
    hide Apart, Careful;
    if e.call in s.calls {
      assert FlightOk(s, e.call, s.calls[e.call]) && RemovalOk(s, s.calls[e.call]);
    }
  }

  /** A held lock stays held, whatever every other call does, until a release
      or recover with its token acts. */
  lemma {:induction false} HeldUntilReleased(s: State, events: seq<Event>, c: CallId, t: Token)
    requires Inv(s) && LegalFrom(s, events) && Held(s, c, t) && Untouched(s, events, t)
    ensures Held(RunFrom(s, events), c, t)
    decreases |events|
  {
    hide Inv, Enabled, Apply, Held, Touches;
    if events != [] {
      StepKeeps(s, events[0]);
      HeldStep(s, events[0], c, t);
      HeldUntilReleased(Apply(s, events[0]), events[1..], c, t);
    }
  }

  // ----- undisturbed calls, and why the assumption on tokens is needed -----

  /** Runs in which every generated token is new but releases and recovers may
      use any token. */
  ghost predicate PossibleFrom(s: State, events: seq<Event>)
    decreases |events|
  {
    events == [] || (&& Possible(s, events[0]) && (events[0].Generate? ==> Careful(s, events[0]))
                     && PossibleFrom(Apply(s, events[0]), events[1..]))
  }

  /** One more event in front. */
  lemma Prepend(s: State, e: Event, rest: seq<Event>)
    requires Possible(s, e) && (e.Generate? ==> Careful(s, e)) && PossibleFrom(Apply(s, e), rest)
    ensures PossibleFrom(s, [e] + rest) && RunFrom(s, [e] + rest) == RunFrom(Apply(s, e), rest)
  {
    hide Apply, Possible, Careful;
    assert ([e] + rest)[1..] == rest;
  }

  lemma {:induction false} Append(s: State, first: seq<Event>, second: seq<Event>)
    requires PossibleFrom(s, first) && PossibleFrom(RunFrom(s, first), second)
    ensures PossibleFrom(s, first + second) && RunFrom(s, first + second) == RunFrom(RunFrom(s, first), second)
    decreases |first|
  {
    hide Apply, Possible, Careful;
    if first == [] {
      assert first + second == second;
    } else {
      Append(Apply(s, first[0]), first[1..], second);
      assert first + second == [first[0]] + (first[1..] + second);
      Prepend(s, first[0], first[1..] + second);
    }
  }

  function Successes(c: CallId, n: nat): seq<Event> {
    if n == 0 then [] else [Succeeds(c)] + Successes(c, n - 1)
  }

  /** An acquire up to its token, and then the rest. */
  function Begin(c: CallId, t: Token, rest: seq<Event>): seq<Event> {
    [StartAcquire(c)] + ([Succeeds(c)] + ([Succeeds(c)] + ([Generate(c, t)] + rest)))
  }

  function Begun(s: State, c: CallId, t: Token): State {
    State(true, None, {}, s.calls[c := CreateTemp(t)], s.tenure[c := Some(t)])
  }

  lemma Begins(s: State, c: CallId, t: Token, rest: seq<Event>)
    requires !s.dir && s.owner.None? && s.temps == {} && c !in s.calls && Unshared(s, t)
    requires PossibleFrom(Begun(s, c, t), rest)
    ensures PossibleFrom(s, Begin(c, t, rest)) && RunFrom(s, Begin(c, t, rest)) == RunFrom(Begun(s, c, t), rest)
  {
    hide PossibleFrom, RunFrom;
    var s1 := Goto(s, c, Mkdir);
    var s2 := State(true, None, {}, s.calls[c := Chown], s.tenure[c := None]);
    var s3 := s2.(calls := s.calls[c := NeedToken]);
    var s4 := Begun(s, c, t);
    assert s.calls[c := Mkdir][c := Chown] == s.calls[c := Chown];
    assert s.calls[c := Chown][c := NeedToken] == s.calls[c := NeedToken];
    assert s.calls[c := NeedToken][c := CreateTemp(t)] == s.calls[c := CreateTemp(t)];
    assert s.tenure[c := None][c := Some(t)] == s.tenure[c := Some(t)];
    Prepend(s3, Generate(c, t), rest);
    Prepend(s2, Succeeds(c), [Generate(c, t)] + rest);
    Prepend(s1, Succeeds(c), [Succeeds(c)] + ([Generate(c, t)] + rest));
    Prepend(s, StartAcquire(c), [Succeeds(c)] + ([Succeeds(c)] + ([Generate(c, t)] + rest)));
  }

  function AcquireEvents(c: CallId, t: Token): seq<Event> {
    Begin(c, t, Successes(c, 4))
  }

  /** The state after call `c` has acquired the free lock. */
  function AcquiredBy(s: State, c: CallId, t: Token): State {
    State(true, Some(t), s.temps, s.calls[c := Holding(t)], s.tenure[c := Some(t)])
  }

  /** The state after `n` steps of writing owner.json. */
  function Written(s: State, c: CallId, t: Token, n: nat): State
    requires n <= 4
  {
    if n == 0 then Goto(s, c, CreateTemp(t))
    else if n == 1 then Goto(s, c, WriteTemp(t)).(temps := {c})
    else if n == 2 then Goto(s, c, Replace(t)).(temps := {c})
    else if n == 3 then Goto(s, c, SyncDir(t)).(owner := Some(t))
    else Goto(s, c, Holding(t)).(owner := Some(t))
  }

  lemma WritesOn(s: State, c: CallId, t: Token, n: nat)
    requires s.dir && s.temps == {} && n < 4
    ensures Possible(Written(s, c, t, n), Succeeds(c))
    ensures Apply(Written(s, c, t, n), Succeeds(c)) == Written(s, c, t, n + 1)
  {
    var m := Written(s, c, t, n);
    assert forall pc :: Goto(m, c, pc).calls == Goto(s, c, pc).calls;
    assert n == 2 ==> m.temps - {c} == {};
  }

  lemma {:induction false} Writes(s: State, c: CallId, t: Token, k: nat, n: nat)
    requires s.dir && s.temps == {} && k <= n <= 4
    ensures PossibleFrom(Written(s, c, t, k), Successes(c, n - k))
    ensures RunFrom(Written(s, c, t, k), Successes(c, n - k)) == Written(s, c, t, n)
    decreases n - k
  {
    hide PossibleFrom, RunFrom, Written;
    if k == n {
      NoEvents(Written(s, c, t, n));
    } else {
      WritesOn(s, c, t, k);
      Writes(s, c, t, k + 1, n);
      Prepend(Written(s, c, t, k), Succeeds(c), Successes(c, n - k - 1));
    }
  }

  lemma NoEvents(s: State)
    ensures PossibleFrom(s, []) && RunFrom(s, []) == s
  {
  }

  /** An undisturbed acquire of the free lock obtains it. */
  lemma AcquireAlone(s: State, c: CallId, t: Token)
    requires !s.dir && s.owner.None? && s.temps == {} && c !in s.calls && Unshared(s, t)
    ensures PossibleFrom(s, AcquireEvents(c, t)) && RunFrom(s, AcquireEvents(c, t)) == AcquiredBy(s, c, t)
  {
    hide PossibleFrom, RunFrom, Successes;
    assert s.calls[c := CreateTemp(t)][c := Holding(t)] == s.calls[c := Holding(t)];
    assert Written(Begun(s, c, t), c, t, 0) == Begun(s, c, t);
    Writes(Begun(s, c, t), c, t, 0, 4);
    Begins(s, c, t, Successes(c, 4));
  }

  function CheckEvents(c: CallId, t: Token): seq<Event> {
    [StartRemove(c, t, false)] + Successes(c, 4)
  }

  /** A release whose token is in owner.json passes its checks. */
  lemma {:induction false} ChecksPass(s: State, c: CallId, t: Token)
    requires s.dir && s.owner == Some(t) && s.temps == {} && c !in s.calls
    ensures PossibleFrom(s, CheckEvents(c, t))
    ensures RunFrom(s, CheckEvents(c, t)) == Goto(s, c, Removing(Unlink, t, false))
  {
    hide PossibleFrom, RunFrom;
    var s1, s2 := Goto(s, c, Removing(CheckDir, t, false)), Goto(s, c, Removing(CheckOwner, t, false));
    var s3, s4 := Goto(s, c, Removing(CheckEntries, t, false)), Goto(s, c, Removing(ReadOwner, t, false));
    var s5 := Goto(s, c, Removing(Unlink, t, false));
    assert s1.calls[c := s2.calls[c]] == s2.calls && s2.calls[c := s3.calls[c]] == s3.calls;
    assert s3.calls[c := s4.calls[c]] == s4.calls && s4.calls[c := s5.calls[c]] == s5.calls;
    NoEvents(s5);
    Prepend(s4, Succeeds(c), Successes(c, 0));
    Prepend(s3, Succeeds(c), Successes(c, 1));
    Prepend(s2, Succeeds(c), Successes(c, 2));
    Prepend(s1, Succeeds(c), Successes(c, 3));
    Prepend(s, StartRemove(c, t, false), Successes(c, 4));
  }

  /** What a release leaves behind: the tenures of other tokens go on. */
  function TakenDown(s: State, c: CallId, t: Token): State {
    EndTenure(Goto(s, c, Finished).(owner := None), c, Some(t))
  }

  /** A release past its checks removes whatever owner.json it finds. */
  lemma {:induction false} TakesDown(s: State, c: CallId, t: Token, recovering: bool)
    requires s.dir && s.owner.Some? && s.temps == {} && c in s.calls && s.calls[c] == Removing(Unlink, t, recovering)
    ensures PossibleFrom(s, Successes(c, 2)) && RunFrom(s, Successes(c, 2)) == TakenDown(s, c, t)
  {
    hide PossibleFrom, RunFrom;
    var s1 := Goto(s, c, Removing(Rmdir, t, recovering)).(owner := None);
    assert s1.calls[c := Finished] == s.calls[c := Finished];
    NoEvents(TakenDown(s, c, t));
    Prepend(s1, Succeeds(c), Successes(c, 0));
    Prepend(s, Succeeds(c), Successes(c, 1));
  }

  /** An undisturbed release with the right token frees the lock. */
  lemma ReleaseAlone(s: State, c: CallId, t: Token)
    requires Inv(s) && s.owner == Some(t) && s.temps == {} && c !in s.calls
    ensures var events := CheckEvents(c, t) + Successes(c, 2);
            var n := RunFrom(s, events);
            && PossibleFrom(s, events) && !n.dir && n.owner.None? && n.tenure == map[] && n.temps == {}
            && n.calls == s.calls[c := Finished]
  {
    hide PossibleFrom, RunFrom, CheckEvents, Successes;
    var s1 := Goto(s, c, Removing(Unlink, t, false));
    ChecksPass(s, c, t);
    TakesDown(s1, c, t, false);
    Append(s, CheckEvents(c, t), Successes(c, 2));
    assert TakenDown(s1, c, t).tenure == map[] by {
      assert forall h :: h !in TakenDown(s1, c, t).tenure;
    }
    assert s1.calls[c := Finished] == s.calls[c := Finished];
  }

  /** Two releases of one token overlap, and the slower one takes down the lock
      of the next owner. */
  function OverlappingReleases(a: Token, b: Token, d: Token): seq<Event> {
    AcquireEvents(0, a) + (CheckEvents(1, a) + (CheckEvents(2, a) + (Successes(1, 2) + (
      AcquireEvents(3, b) + (Successes(2, 2) + AcquireEvents(4, d))))))
  }

  /** Without the second half of the assumption exclusion fails: after the run
      above two acquisitions hold the lock at once. */
  lemma OverlapBreaksExclusion(a: Token, b: Token, d: Token)
    requires a != b && b != d && a != d
    ensures PossibleFrom(INITIAL, OverlappingReleases(a, b, d))
    ensures var n := RunFrom(INITIAL, OverlappingReleases(a, b, d));
            && 3 in n.tenure && 4 in n.tenure && 3 in n.calls && 4 in n.calls
            && n.calls[3] == Holding(b) && n.calls[4] == Holding(d)
  {
    hide PossibleFrom, RunFrom, CheckEvents, Successes, AcquireEvents;
    var s1 := State(true, Some(a), {}, map[0 := Holding(a)], map[0 := Some(a)]);
    var s2 := Goto(s1, 1, Removing(Unlink, a, false));
    var s3 := Goto(s2, 2, Removing(Unlink, a, false));
    var s4 := TakenDown(s3, 1, a);
    var s5 := AcquiredBy(s4, 3, b);
    var s6 := TakenDown(s5, 2, a);
    AcquireAlone(INITIAL, 0, a);
    ChecksPass(s1, 1, a);
    ChecksPass(s2, 2, a);
    TakesDown(s3, 1, a, false);
    AcquireAlone(s4, 3, b);
    TakesDown(s5, 2, a, false);
    AcquireAlone(s6, 4, d);
    Append(s5, Successes(2, 2), AcquireEvents(4, d));
    Append(s4, AcquireEvents(3, b), Successes(2, 2) + AcquireEvents(4, d));
    Chain(s1, s2, s3, s4, a, AcquireEvents(3, b) + (Successes(2, 2) + AcquireEvents(4, d)));
    Append(INITIAL, AcquireEvents(0, a), CheckEvents(1, a) + (CheckEvents(2, a) + (Successes(1, 2) + (
      AcquireEvents(3, b) + (Successes(2, 2) + AcquireEvents(4, d))))));
  }

  lemma Chain(s1: State, s2: State, s3: State, s4: State, a: Token, rest: seq<Event>)
    requires PossibleFrom(s1, CheckEvents(1, a)) && RunFrom(s1, CheckEvents(1, a)) == s2
    requires PossibleFrom(s2, CheckEvents(2, a)) && RunFrom(s2, CheckEvents(2, a)) == s3
    requires PossibleFrom(s3, Successes(1, 2)) && RunFrom(s3, Successes(1, 2)) == s4
    requires PossibleFrom(s4, rest)
    ensures PossibleFrom(s1, CheckEvents(1, a) + (CheckEvents(2, a) + (Successes(1, 2) + rest)))
    ensures RunFrom(s1, CheckEvents(1, a) + (CheckEvents(2, a) + (Successes(1, 2) + rest))) == RunFrom(s4, rest)
  {
    hide PossibleFrom, RunFrom, CheckEvents, Successes;
    Append(s3, Successes(1, 2), rest);
    Append(s2, CheckEvents(2, a), Successes(1, 2) + rest);
    Append(s1, CheckEvents(1, a), CheckEvents(2, a) + (Successes(1, 2) + rest));
  }

  // ----- an acquire dies, and its lock is recovered -----

  /** A run without releases and recoveries is legal as soon as it is possible. */
  lemma {:induction false} LegalWithoutRemovals(s: State, events: seq<Event>)
    requires PossibleFrom(s, events) && forall e :: e in events ==> !e.StartRemove?
    ensures LegalFrom(s, events)
    decreases |events|
  {
    hide Apply, Possible, Unshared;
    if events != [] {
      assert events[0] in events;
      LegalWithoutRemovals(Apply(s, events[0]), events[1..]);
    }
  }

  lemma {:induction false} LegalAppend(s: State, first: seq<Event>, second: seq<Event>)
    requires LegalFrom(s, first) && LegalFrom(RunFrom(s, first), second)
    ensures LegalFrom(s, first + second) && RunFrom(s, first + second) == RunFrom(RunFrom(s, first), second)
    decreases |first|
  {
    hide Apply, Enabled;
    if first == [] {
      assert first + second == second;
    } else {
      LegalAppend(Apply(s, first[0]), first[1..], second);
      assert (first + second)[0] == first[0] && (first + second)[1..] == first[1..] + second;
    }
  }

  /** An acquire that dies between its replace and its return. */
  function FatalAcquire(c: CallId, t: Token): seq<Event> {
    Begin(c, t, FatalWrite(c))
  }

  function FatalWrite(c: CallId): seq<Event> {
    Successes(c, 3) + [Dies(c)]
  }

  /** What it leaves behind: the lock, held by nobody who runs. */
  function DiedHolding(s: State, c: CallId, t: Token): State {
    State(true, Some(t), s.temps, s.calls[c := Finished], s.tenure[c := Some(t)])
  }

  lemma DiesAfterReplace(s: State, c: CallId, t: Token)
    requires s.dir && c in s.calls && s.calls[c] == CreateTemp(t) && s.temps == {}
    ensures PossibleFrom(s, FatalWrite(c))
    ensures RunFrom(s, FatalWrite(c)) == Goto(s, c, Finished).(owner := Some(t))
  {
    hide PossibleFrom, RunFrom, Successes;
    var m := Written(s, c, t, 3);
    assert Written(s, c, t, 0) == s;
    Writes(s, c, t, 0, 3);
    assert m.calls[c := Finished] == s.calls[c := Finished];
    NoEvents(Apply(m, Dies(c)));
    Prepend(m, Dies(c), []);
    assert [Dies(c)] + [] == [Dies(c)];
    Append(s, Successes(c, 3), [Dies(c)]);
  }

  lemma AcquireDies(s: State, c: CallId, t: Token)
    requires !s.dir && s.owner.None? && s.temps == {} && c !in s.calls && Unshared(s, t)
    ensures LegalFrom(s, FatalAcquire(c, t)) && RunFrom(s, FatalAcquire(c, t)) == DiedHolding(s, c, t)
  {
    hide PossibleFrom, RunFrom, LegalFrom, FatalWrite;
    assert s.calls[c := CreateTemp(t)][c := Finished] == s.calls[c := Finished];
    DiesAfterReplace(Begun(s, c, t), c, t);
    Begins(s, c, t, FatalWrite(c));
    NoRemovalsInFatalAcquire(c, t);
    LegalWithoutRemovals(s, FatalAcquire(c, t));
  }

  lemma {:induction false} NoRemovalsInSuccesses(c: CallId, n: nat)
    ensures forall e :: e in Successes(c, n) ==> !e.StartRemove?
  {
    if n > 0 {
      NoRemovalsInSuccesses(c, n - 1);
    }
  }

  lemma NoRemovalsInFatalAcquire(c: CallId, t: Token)
    ensures forall e :: e in FatalAcquire(c, t) ==> !e.StartRemove?
  {
    NoRemovalsInSuccesses(c, 3);
  }

  function RecoverEvents(c: CallId, t: Token): seq<Event> {
    [StartRemove(c, t, true)] + (Successes(c, 6) + Successes(c, 2))
  }

  lemma {:induction false} RecoverPasses(s: State, c: CallId, t: Token)
    requires s.dir && s.owner == Some(t) && s.temps == {} && c in s.calls && s.calls[c] == Removing(CheckDir, t, true)
    ensures PossibleFrom(s, Successes(c, 6))
    ensures RunFrom(s, Successes(c, 6)) == Goto(s, c, Removing(Unlink, t, true))
  {
    hide PossibleFrom, RunFrom;
    var s1, s2 := Goto(s, c, Removing(CheckOwner, t, true)), Goto(s, c, Removing(CheckEntries, t, true));
    var s3, s4 := Goto(s, c, Removing(ReadOwner, t, true)), Goto(s, c, Removing(Probe, t, true));
    var s5, s6 := Goto(s, c, Removing(Audit, t, true)), Goto(s, c, Removing(Unlink, t, true));
    assert s1.calls[c := s2.calls[c]] == s2.calls && s2.calls[c := s3.calls[c]] == s3.calls;
    assert s3.calls[c := s4.calls[c]] == s4.calls && s4.calls[c := s5.calls[c]] == s5.calls;
    assert s5.calls[c := s6.calls[c]] == s6.calls;
    NoEvents(s6);
    Prepend(s5, Succeeds(c), Successes(c, 0));
    Prepend(s4, Succeeds(c), Successes(c, 1));
    Prepend(s3, Succeeds(c), Successes(c, 2));
    Prepend(s2, Succeeds(c), Successes(c, 3));
    Prepend(s1, Succeeds(c), Successes(c, 4));
    Prepend(s, Succeeds(c), Successes(c, 5));
  }

  /** An undisturbed recover with the token on file frees the lock, whether its
      acquire has returned or died. */
  lemma RecoverAlone(s: State, c: CallId, t: Token)
    requires Inv(s) && s.owner == Some(t) && s.temps == {} && c !in s.calls && Unshared(s, t)
    ensures LegalFrom(s, RecoverEvents(c, t))
    ensures RunFrom(s, RecoverEvents(c, t)) == State(false, None, {}, s.calls[c := Finished], map[])
  {
    hide PossibleFrom, RunFrom, LegalFrom, Successes, Unshared;
    var s0 := Goto(s, c, Removing(CheckDir, t, true));
    var s1 := Goto(s, c, Removing(Unlink, t, true));
    assert s0.calls[c := s1.calls[c]] == s1.calls;
    RecoverPasses(s0, c, t);
    TakesDown(s1, c, t, true);
    Append(s0, Successes(c, 6), Successes(c, 2));
    NoRemovalsInSuccesses(c, 6);
    NoRemovalsInSuccesses(c, 2);
    LegalWithoutRemovals(s0, Successes(c, 6) + Successes(c, 2));
    LegalPrepend(s, StartRemove(c, t, true), Successes(c, 6) + Successes(c, 2));
    var last := TakenDown(s1, c, t);
    assert last.tenure == map[] by {
      assert forall h :: h !in last.tenure;
    }
    assert s1.calls[c := Finished] == s.calls[c := Finished];
  }

  lemma LegalPrepend(s: State, e: Event, rest: seq<Event>)
    requires Enabled(s, e) && LegalFrom(Apply(s, e), rest)
    ensures LegalFrom(s, [e] + rest) && RunFrom(s, [e] + rest) == RunFrom(Apply(s, e), rest)
  {
    hide Apply, Enabled;
    assert ([e] + rest)[1..] == rest;
  }

  /** A legal run in which an acquire dies after its replace, a recover with its
      token frees the lock, and the next acquire holds it. */
  lemma DeadOwnerIsRecovered(a: Token, b: Token)
    requires a != b
    ensures var events := FatalAcquire(0, a) + (RecoverEvents(1, a) + AcquireEvents(2, b));
            && LegalFrom(INITIAL, events) && Held(RunFrom(INITIAL, events), 2, b)
  {
    hide PossibleFrom, RunFrom, LegalFrom, FatalAcquire, RecoverEvents, AcquireEvents;
    var s1 := DiedHolding(INITIAL, 0, a);
    AcquireDies(INITIAL, 0, a);
    InitialInv();
    RunKeeps(INITIAL, FatalAcquire(0, a));
    var s2 := State(false, None, {}, s1.calls[1 := Finished], map[]);
    RecoverAlone(s1, 1, a);
    AcquireAlone(s2, 2, b);
    NoRemovalsInAcquire(2, b);
    LegalWithoutRemovals(s2, AcquireEvents(2, b));
    LegalAppend(s1, RecoverEvents(1, a), AcquireEvents(2, b));
    LegalAppend(INITIAL, FatalAcquire(0, a), RecoverEvents(1, a) + AcquireEvents(2, b));
  }

  // ----- an acquire that fails cleans up -----

  /** An acquire that has made the directory, but not yet returned. */
  predicate Interrupted(pc: Pc) {
    pc.Chown? || pc.CreateTemp? || pc.WriteTemp? || pc.Replace? || pc.SyncDir?
  }

  /** Its pending step fails, and nothing else that can succeed does. A temporary
      file that is not there cannot be unlinked. */
  function FailureEvents(s: State, c: CallId): seq<Event>
    requires c in s.calls
  {
    if s.calls[c].Chown? then [Fails(c)] + Successes(c, 1)
    else [Fails(c)] + ([if c in s.temps then Succeeds(c) else Fails(c)] + Successes(c, 3))
  }

  /** From every state in which an acquire can fail, whatever the others have
      done and are about to do: it leaves no directory, no owner.json, no
      temporary file and no tenure behind. */
  lemma {:induction false} FailedAcquireCleansUp(s: State, c: CallId)
    requires Inv(s) && c in s.calls && Interrupted(s.calls[c])
    ensures LegalFrom(s, FailureEvents(s, c))
    ensures RunFrom(s, FailureEvents(s, c)) == State(false, None, {}, s.calls[c := Finished], map[])
  {
    hide PossibleFrom, RunFrom, LegalFrom, Successes;
    SoleTenure(s, c);
    var s1 := Goto(s, c, Fallback(s.calls[c]));
    if s.calls[c].Chown? {
      ChownCleansUp(s1, c);
      Prepend(s, Fails(c), Successes(c, 1));
    } else {
      CleansUp(s1, c);
      Prepend(s, Fails(c), [if c in s.temps then Succeeds(c) else Fails(c)] + Successes(c, 3));
    }
    assert s1.calls[c := Finished] == s.calls[c := Finished];
    NoRemovalsInSuccesses(c, 1);
    NoRemovalsInSuccesses(c, 3);
    LegalWithoutRemovals(s, FailureEvents(s, c));
  }

  lemma SoleTenure(s: State, c: CallId)
    requires Inv(s) && c in s.calls && s.calls[c].InFlight()
    ensures s.dir && s.temps <= {c} && s.tenure.Keys == {c}
    ensures s.calls[c].Chown? ==> s.owner.None? && s.temps == {}
  {
    assert FlightOk(s, c, s.calls[c]);
  }

  lemma {:induction false} ChownCleansUp(s: State, c: CallId)
    requires c in s.calls && s.calls[c].ChownCleanup? && s.dir && s.owner.None? && s.temps == {} && s.tenure.Keys == {c}
    ensures PossibleFrom(s, Successes(c, 1))
    ensures RunFrom(s, Successes(c, 1)) == State(false, None, {}, s.calls[c := Finished], map[])
  {
    hide PossibleFrom, RunFrom;
    var n := State(false, None, {}, s.calls[c := Finished], map[]);
    assert Apply(s, Succeeds(c)) == n;
    NoEvents(n);
    Prepend(s, Succeeds(c), Successes(c, 0));
  }

  lemma {:induction false} CleansUp(s: State, c: CallId)
    requires c in s.calls && s.calls[c].DropTemp? && s.dir && s.temps <= {c} && s.tenure.Keys == {c}
    ensures var events := [if c in s.temps then Succeeds(c) else Fails(c)] + Successes(c, 3);
            && PossibleFrom(s, events)
            && RunFrom(s, events) == State(false, None, {}, s.calls[c := Finished], map[])
  {
    hide PossibleFrom, RunFrom;
    var t := s.calls[c].token;
    var s1 := Goto(s, c, List(t)).(temps := {});
    var s2 := Goto(s, c, ClearOwner(t)).(temps := {});
    var s3 := Goto(s, c, AcquireRmdir(t)).(temps := {}, owner := None);
    var s4 := State(false, None, {}, s.calls[c := Finished], map[]);
    assert s1.calls[c := ClearOwner(t)] == s2.calls && s2.calls[c := AcquireRmdir(t)] == s3.calls;
    assert s3.calls[c := Finished] == s4.calls;
    assert c !in s.temps ==> s.temps == {};
    assert s.temps - {c} == {};
    assert Apply(s3, Succeeds(c)) == s4;
    NoEvents(s4);
    Prepend(s3, Succeeds(c), Successes(c, 0));
    Prepend(s2, Succeeds(c), Successes(c, 1));
    Prepend(s1, Succeeds(c), Successes(c, 2));
    Prepend(s, if c in s.temps then Succeeds(c) else Fails(c), Successes(c, 3));
  }

  /** A temporary file that cannot be unlinked keeps everything else in place. */
  lemma StuckTempStays(s: State, c: CallId)
    requires c in s.calls && s.calls[c].DropTemp? && c in s.temps
    ensures var n := Apply(s, Fails(c));
            && n == s.(calls := n.calls) && !Possible(n, Succeeds(c))
            && Apply(n, Fails(c)) == s.(calls := s.calls[c := Finished])
  {
    assert s.calls[c := List(s.calls[c].token)][c := Finished] == s.calls[c := Finished];
  }

  /** A release or recover stops at the first step that fails, and that step
      changes nothing: no failing check, probe or audit is passed over. */
  lemma FailedRemovalStops(s: State, c: CallId)
    requires c in s.calls && s.calls[c].Removing?
    ensures Apply(s, Fails(c)) == s.(calls := s.calls[c := Finished])
  {
  }

  /** So an acquire of the free lock that fails at any of its steps frees it. */
  lemma FailedAcquireAlone(s: State, c: CallId, t: Token, n: nat)
    requires Inv(s) && !s.dir && c !in s.calls && Unshared(s, t) && n < 4
    ensures var start := Begin(c, t, Successes(c, n));
            var m := RunFrom(s, start);
            && LegalFrom(s, start) && c in m.calls && Interrupted(m.calls[c])
            && m.calls[c] == [CreateTemp(t), WriteTemp(t), Replace(t), SyncDir(t)][n]
            && LegalFrom(s, start + FailureEvents(m, c))
            && RunFrom(s, start + FailureEvents(m, c)) == State(false, None, {}, s.calls[c := Finished], map[])
  {
    hide PossibleFrom, RunFrom, LegalFrom, Successes, FailureEvents, Inv;
    FreeLock(s);
    var b, m := Begun(s, c, t), Written(Begun(s, c, t), c, t, n);
    assert Written(b, c, t, 0) == b;
    Writes(b, c, t, 0, n);
    Begins(s, c, t, Successes(c, n));
    NoRemovalsInSuccesses(c, n);
    LegalWithoutRemovals(s, Begin(c, t, Successes(c, n)));
    RunKeeps(s, Begin(c, t, Successes(c, n)));
    FailedAcquireCleansUp(m, c);
    LegalAppend(s, Begin(c, t, Successes(c, n)), FailureEvents(m, c));
    assert m.calls[c := Finished] == s.calls[c := Finished];
  }

  lemma FreeLock(s: State)
    requires Inv(s) && !s.dir
    ensures s.owner.None? && s.temps == {} && s.tenure == map[]
  {
  }

  /** And so does one whose chown fails. */
  lemma FailedChownAlone(s: State, c: CallId)
    requires Inv(s) && !s.dir && c !in s.calls
    ensures var start := [StartAcquire(c)] + [Succeeds(c)];
            var m := RunFrom(s, start);
            && LegalFrom(s, start) && c in m.calls && m.calls[c] == Chown
            && LegalFrom(s, start + FailureEvents(m, c))
            && RunFrom(s, start + FailureEvents(m, c)) == State(false, None, {}, s.calls[c := Finished], map[])
  {
    hide PossibleFrom, RunFrom, LegalFrom, Successes, FailureEvents, Inv;
    FreeLock(s);
    var start := [StartAcquire(c)] + [Succeeds(c)];
    var s1, m := Goto(s, c, Mkdir), State(true, None, {}, s.calls[c := Chown], s.tenure[c := None]);
    assert s1.calls[c := Chown] == s.calls[c := Chown];
    NoEvents(m);
    Prepend(s1, Succeeds(c), []);
    assert [Succeeds(c)] + [] == [Succeeds(c)];
    Prepend(s, StartAcquire(c), [Succeeds(c)]);
    LegalWithoutRemovals(s, start);
    RunKeeps(s, start);
    FailedAcquireCleansUp(m, c);
    LegalAppend(s, start, FailureEvents(m, c));
    assert m.calls[c := Finished] == s.calls[c := Finished];
  }

  lemma NoRemovalsInAcquire(c: CallId, t: Token)
    ensures forall e :: e in AcquireEvents(c, t) ==> !e.StartRemove?
  {
    NoRemovalsInSuccesses(c, 4);
  }
}
