/** The renewal supervisor of multinexus/agentd/worker.py, over a monotonic
    clock. Durations and timestamps are in seconds. */
module Renewal {
  import opened Prelude
  import L = ExecutionLease

  const SAFETY_MARGIN: real := 5.0

  /** A server response with its timestamps: how long ago the server stamped it
      when the deadline is computed from it, and the time it grants. */
  datatype Stamp = Stamp(delay: real, remaining: real)

  datatype Response = TransportError | Malformed | Renewed(stamp: Stamp)

  /** What the outside does in one round: how long it takes to start it, whether
      the lease is found lost during the sleep, how late the timer fires, and
      when and how the renewal request is answered. */
  datatype Round = Round(pause: real, lostInSleep: bool, late: real, latency: real, response: Response)

  datatype Event =
    | Slept(start: real, until: real, deadline: real)
    | Requested(jobId: string, agentId: string, token: int, leaseId: string, at: real, late: real, deadline: real,
                expiry: real)
    | LeaseLost(at: real)

  function Min(a: real, b: real): real {
    if a < b then a else b
  }

  /** `_to_monotonic_deadline` */
  function Deadline(now: real, s: Stamp): real {
    now + s.remaining - SAFETY_MARGIN
  }

  /** When the lease ends on the server, on the local clock. */
  function Expiry(now: real, s: Stamp): real {
    now - s.delay + s.remaining
  }

  function SleepUntil(now: real, deadline: real, interval: int): real {
    Min(deadline, now + (if interval < 1 then 1 else interval) as real)
  }

  function Request(l: L.Lease, at: real, late: real, deadline: real, expiry: real): Event {
    Requested(l.id.jobId, l.id.agentId, l.id.attemptToken, l.id.leaseId, at, late, deadline, expiry)
  }

  /** One round, from the state of the loop to the events it adds and, if the
      lease is renewed, the next state. */
  datatype State = State(clock: real, deadline: real, expiry: real)

  function NextState(s: State, l: L.Lease, r: Round): (seq<Event>, Option<State>) {
    var now := s.clock + r.pause;
    if now >= s.deadline then ([LeaseLost(now)], None)
    else
      var until := SleepUntil(now, s.deadline, l.term.renewIntervalSeconds);
      if r.lostInSleep then ([Slept(now, until, s.deadline), LeaseLost(until)], None)
      else
        var at := until + r.late;
        var events := [Slept(now, until, s.deadline), Request(l, at, r.late, s.deadline, s.expiry)];
        var answered := at + r.latency;
        if !r.response.Renewed? then (events + [LeaseLost(answered)], None)
        else
          (events, Some(State(answered, Deadline(answered, r.response.stamp), Expiry(answered, r.response.stamp))))
  }

  /** The events of a run until it ends by itself or is cancelled, which it is
      when the rounds run out. */
  function Events(s: State, l: L.Lease, rounds: seq<Round>): seq<Event>
    decreases |rounds|
  {
    if rounds == [] then []
    else
      var (events, next) := NextState(s, l, rounds[0]);
      if next.None? then events else events + Events(next.value, l, rounds[1..])
  }

  function Start(clock: real, first: Stamp): State {
    State(clock, Deadline(clock, first), Expiry(clock, first))
  }

  /** `_renewal_supervisor`: returns whether it has set `lease_lost`. */
  method RenewalSupervisor(l: L.Lease, clock: real, first: Stamp, rounds: seq<Round>)
    returns (events: seq<Event>, lost: bool)
    ensures events == Events(Start(clock, first), l, rounds)
    ensures lost <==> events != [] && events[|events| - 1].LeaseLost?
  {
    hide Events, Deadline, Expiry;
    var deadline, expiry, now := Deadline(clock, first), Expiry(clock, first), clock;
    events, lost := [], false;
    var i := 0;
    while i < |rounds|
      invariant 0 <= i <= |rounds|
      invariant events + Events(State(now, deadline, expiry), l, rounds[i..]) == Events(Start(clock, first), l, rounds)
      invariant events != [] ==> !events[|events| - 1].LeaseLost?
    {
      var r := rounds[i];
      ghost var before, state := events, State(now, deadline, expiry);
      assert rounds[i..][0] == r && rounds[i..][1..] == rounds[i + 1..];
      OneRound(state, l, rounds[i..]);
      now := now + r.pause;
      if now >= deadline {
        events := events + [LeaseLost(now)];
        return events, true;
      }
      var until := SleepUntil(now, deadline, l.term.renewIntervalSeconds);
      var slept := Slept(now, until, deadline);
      if r.lostInSleep {
        events := events + [slept, LeaseLost(until)];
        return events, true;
      }
      now := until + r.late;
      var request := Request(l, now, r.late, deadline, expiry);
      now := now + r.latency;
      if !r.response.Renewed? {
        events := events + ([slept, request] + [LeaseLost(now)]);
        return events, true;
      }
      events := events + [slept, request];
      deadline, expiry := Deadline(now, r.response.stamp), Expiry(now, r.response.stamp);
      assert before + ([slept, request] + Events(State(now, deadline, expiry), l, rounds[i + 1..]))
          == events + Events(State(now, deadline, expiry), l, rounds[i + 1..]);
      i := i + 1;
    }
    assert rounds[i..] == [];
    NoRounds(State(now, deadline, expiry), l);
    assert events + [] == events;
  }

  lemma OneRound(s: State, l: L.Lease, rounds: seq<Round>)
    requires rounds != []
    ensures var (events, next) := NextState(s, l, rounds[0]);
            Events(s, l, rounds) == if next.None? then events else events + Events(next.value, l, rounds[1..])
  {
  }

  lemma NoRounds(s: State, l: L.Lease)
    ensures Events(s, l, []) == []
  {
  }

  /** Delays plus lateness never use up the safety margin. */
  ghost predicate InMargin(first: Stamp, rounds: seq<Round>) {
    forall i {:trigger DelayBefore(first, rounds, i)} :: 0 <= i < |rounds| ==>
      DelayBefore(first, rounds, i) + rounds[i].late <= SAFETY_MARGIN
  }

  /** The delay behind the deadline that is in force in round `i`. */
  function DelayBefore(first: Stamp, rounds: seq<Round>, i: nat): real
    requires i < |rounds|
  {
    if i == 0 then first.delay
    else if rounds[i - 1].response.Renewed? then rounds[i - 1].response.stamp.delay
    else 0.0
  }

  function Longest(l: L.Lease): int {
    if l.term.renewIntervalSeconds < 1 then 1 else l.term.renewIntervalSeconds
  }

  ghost predicate EventOk(e: Event, l: L.Lease) {
    match e
    case Slept(start, until, deadline) =>
      && start < deadline && start <= until <= deadline
      && until == Min(deadline, start + Longest(l) as real)
    case Requested(jobId, agentId, token, leaseId, at, late, deadline, _) =>
      && jobId == l.id.jobId && agentId == l.id.agentId && token == l.id.attemptToken && leaseId == l.id.leaseId
      && at <= deadline + late
    case LeaseLost(_) => true
  }

  /** No sleep starts at or past the deadline in force, none lasts beyond it,
      and every request goes out for this lease no later than that deadline
      plus the lateness of its timer, across any number of renewals. */
  lemma {:induction false} EveryEventOk(s: State, l: L.Lease, rounds: seq<Round>)
    ensures forall i :: 0 <= i < |Events(s, l, rounds)| ==> EventOk(Events(s, l, rounds)[i], l)
    decreases |rounds|
  {
    if rounds != [] {
      var (events, next) := NextState(s, l, rounds[0]);
      if next.Some? {
        EveryEventOk(next.value, l, rounds[1..]);
      }
    }
  }

  /** When every stamp is at most the margin old, lateness included, every
      request goes out before the lease has expired on the server. */
  lemma {:induction false} RequestsBeforeExpiry(clock: real, first: Stamp, l: L.Lease, rounds: seq<Round>)
    requires InMargin(first, rounds)
    ensures forall i :: 0 <= i < |Events(Start(clock, first), l, rounds)| ==>
              var e := Events(Start(clock, first), l, rounds)[i];
              e.Requested? ==> e.at <= e.expiry
    decreases |rounds|
  {
    if rounds != [] {
      var (events, next) := NextState(Start(clock, first), l, rounds[0]);
      assert DelayBefore(first, rounds, 0) + rounds[0].late <= SAFETY_MARGIN;
      if next.Some? {
        var second := rounds[0].response.stamp;
        assert next.value == Start(next.value.clock, second);
        forall i | 0 <= i < |rounds[1..]|
          ensures DelayBefore(second, rounds[1..], i) + rounds[1..][i].late <= SAFETY_MARGIN
        {
          assert DelayBefore(second, rounds[1..], i) == DelayBefore(first, rounds, i + 1);
        }
        RequestsBeforeExpiry(next.value.clock, second, l, rounds[1..]);
      }
    }
  }

  /** The margin is tight: with exact timers, and a renewal interval that does
      not end before the deadline, the first request meets the expiry exactly
      when the stamp was at most the margin old. */
  lemma MarginIsTight(clock: real, first: Stamp, l: L.Lease, latency: real)
    requires first.remaining > 5.0
    requires l.term.renewIntervalSeconds as real >= first.remaining - 5.0
    ensures var rounds := [Round(0.0, false, 0.0, latency, TransportError)];
            var events := Events(Start(clock, first), l, rounds);
            && |events| == 3 && events[1].Requested? && events[1].at == events[1].deadline
            && (events[1].at <= events[1].expiry <==> first.delay <= 5.0)
  {
    var rounds := [Round(0.0, false, 0.0, latency, TransportError)];
    assert NextState(Start(clock, first), l, rounds[0]).1.None?;
  }

  /** Every end but a cancellation marks the lease lost, and only the end does. */
  lemma {:induction false} EndsMarkTheLeaseLost(s: State, l: L.Lease, rounds: seq<Round>)
    ensures var events := Events(s, l, rounds);
            && (forall i :: 0 <= i < |events| - 1 ==> !events[i].LeaseLost?)
            && (events == [] || !events[|events| - 1].LeaseLost? ==>
                  forall i :: 0 <= i < |rounds| ==> rounds[i].response.Renewed? && !rounds[i].lostInSleep)
    decreases |rounds|
  {
    if rounds != [] {
      var (events, next) := NextState(s, l, rounds[0]);
      if next.Some? {
        EndsMarkTheLeaseLost(next.value, l, rounds[1..]);
      }
    }
  }

  // ----- when the lease is lost -----

  /** A round that renews: it starts before the deadline in force, nothing is
      heard during the sleep, and the server grants the request. */
  predicate RenewedInTime(s: State, r: Round) {
    s.clock + r.pause < s.deadline && !r.lostInSleep && r.response.Renewed?
  }

  /** When the request of a round goes out. */
  function SentAt(s: State, l: L.Lease, r: Round): real {
    Min(s.deadline, s.clock + r.pause + Longest(l) as real) + r.late
  }

  /** The clock, deadline and expiry in force in round `i`, if every round before
      it renews: each is counted from the answer of the last one. */
  function StateAt(s: State, l: L.Lease, rounds: seq<Round>, i: nat): State
    requires i <= |rounds| && forall k :: 0 <= k < i ==> rounds[k].response.Renewed?
  {
    if i == 0 then s
    else
      var before, stamp := StateAt(s, l, rounds, i - 1), rounds[i - 1].response.stamp;
      var answered := SentAt(before, l, rounds[i - 1]) + rounds[i - 1].latency;
      State(answered, answered + stamp.remaining - 5.0, answered + stamp.remaining - stamp.delay)
  }

  ghost predicate RenewsUpTo(s: State, l: L.Lease, rounds: seq<Round>, i: int) {
    && 0 <= i <= |rounds| && (forall k :: 0 <= k < i ==> rounds[k].response.Renewed?)
    && forall k :: 0 <= k < i ==> RenewedInTime(StateAt(s, l, rounds, k), rounds[k])
  }

  /** Round `i` is the first one that is not renewed in time. */
  ghost predicate FirstFailure(s: State, l: L.Lease, rounds: seq<Round>, i: int) {
    RenewsUpTo(s, l, rounds, i) && i < |rounds| && !RenewedInTime(StateAt(s, l, rounds, i), rounds[i])
  }

  lemma {:induction false} Shift(s: State, l: L.Lease, rounds: seq<Round>, i: nat)
    requires rounds != [] && rounds[0].response.Renewed? && i <= |rounds[1..]|
    requires forall k :: 0 <= k < i ==> rounds[1..][k].response.Renewed?
    ensures forall k :: 0 <= k < i + 1 ==> rounds[k].response.Renewed?
    ensures StateAt(s, l, rounds, i + 1) == StateAt(StateAt(s, l, rounds, 1), l, rounds[1..], i)
  {
    forall k | 0 <= k < i + 1 ensures rounds[k].response.Renewed? {
      assert k > 0 ==> rounds[k] == rounds[1..][k - 1];
    }
    if i > 0 {
      Shift(s, l, rounds, i - 1);
    }
  }

  lemma RenewsShift(s: State, l: L.Lease, rounds: seq<Round>, i: nat)
    requires rounds != [] && RenewedInTime(s, rounds[0]) && i < |rounds|
    ensures RenewsUpTo(s, l, rounds, i + 1) <==> RenewsUpTo(StateAt(s, l, rounds, 1), l, rounds[1..], i)
    ensures RenewsUpTo(s, l, rounds, i + 1) ==>
              StateAt(s, l, rounds, i + 1) == StateAt(StateAt(s, l, rounds, 1), l, rounds[1..], i)
  {
    hide StateAt, RenewedInTime;
    First(s, l, rounds);
    var second := StateAt(s, l, rounds, 1);
    if forall k :: 0 <= k < i ==> rounds[1..][k].response.Renewed? {
      forall k | 0 <= k <= i ensures StateAt(s, l, rounds, k + 1) == StateAt(second, l, rounds[1..], k) {
        Shift(s, l, rounds, k);
      }
      if RenewsUpTo(second, l, rounds[1..], i) {
        Shift(s, l, rounds, i);
        forall k | 0 <= k < i + 1 ensures RenewedInTime(StateAt(s, l, rounds, k), rounds[k]) {
          assert k > 0 ==> rounds[k] == rounds[1..][k - 1];
        }
      }
    } else {
      var k :| 0 <= k < i && !rounds[1..][k].response.Renewed?;
      assert rounds[k + 1] == rounds[1..][k];
    }
  }

  lemma First(s: State, l: L.Lease, rounds: seq<Round>)
    requires rounds != [] && RenewedInTime(s, rounds[0])
    ensures StateAt(s, l, rounds, 0) == s && rounds[0].response.Renewed?
    ensures NextState(s, l, rounds[0])
         == ([Sleep(s, l, rounds[0]), Ask(s, l, rounds[0])], Some(StateAt(s, l, rounds, 1)))
  {
  }

  function Sleep(s: State, l: L.Lease, r: Round): Event {
    Slept(s.clock + r.pause, SentAt(s, l, r) - r.late, s.deadline)
  }

  function Ask(s: State, l: L.Lease, r: Round): Event {
    Request(l, SentAt(s, l, r), r.late, s.deadline, s.expiry)
  }

  /** The run marks the lease lost exactly if some round is the first one that is
      not renewed in time. */
  lemma {:induction false} LostExactlyIf(s: State, l: L.Lease, rounds: seq<Round>)
    ensures var events := Events(s, l, rounds);
            events != [] && events[|events| - 1].LeaseLost? <==> exists i :: FirstFailure(s, l, rounds, i)
    decreases |rounds|
  {
    if rounds != [] && RenewedInTime(s, rounds[0]) {
      First(s, l, rounds);
      var second := StateAt(s, l, rounds, 1);
      LostExactlyIf(second, l, rounds[1..]);
      forall i ensures 0 <= i < |rounds[1..]| ==>
                         (FirstFailure(s, l, rounds, i + 1) <==> FirstFailure(second, l, rounds[1..], i)) {
        if 0 <= i < |rounds[1..]| {
          RenewsShift(s, l, rounds, i);
        }
      }
      assert !FirstFailure(s, l, rounds, 0);
      FailuresShift(s, l, second, rounds);
    } else if rounds != [] {
      assert FirstFailure(s, l, rounds, 0);
    }
  }

  lemma FailuresShift(s: State, l: L.Lease, second: State, rounds: seq<Round>)
    requires rounds != [] && !FirstFailure(s, l, rounds, 0)
    requires forall i {:trigger FirstFailure(second, l, rounds[1..], i)} :: 0 <= i < |rounds[1..]| ==>
               (FirstFailure(s, l, rounds, i + 1) <==> FirstFailure(second, l, rounds[1..], i))
    ensures (exists i :: FirstFailure(s, l, rounds, i)) <==> exists i :: FirstFailure(second, l, rounds[1..], i)
  {
    if i :| FirstFailure(s, l, rounds, i) {
      assert FirstFailure(second, l, rounds[1..], i - 1);
    }
  }

  /** One sleep and one request for each of the first `n` rounds, at the times
      the answers before them set. */
  function Rhythm(s: State, l: L.Lease, rounds: seq<Round>, n: nat): (events: seq<Event>)
    requires n <= |rounds| && forall k :: 0 <= k < n ==> rounds[k].response.Renewed?
    ensures |events| == 2 * n && forall e :: e in events ==> !e.LeaseLost?
  {
    if n == 0 then []
    else
      var here := StateAt(s, l, rounds, n - 1);
      Rhythm(s, l, rounds, n - 1) + [Sleep(here, l, rounds[n - 1]), Ask(here, l, rounds[n - 1])]
  }

  lemma {:induction false} RhythmShift(s: State, l: L.Lease, rounds: seq<Round>, n: nat)
    requires rounds != [] && rounds[0].response.Renewed? && n <= |rounds[1..]|
    requires forall k :: 0 <= k < n ==> rounds[1..][k].response.Renewed?
    ensures forall k :: 0 <= k < n + 1 ==> rounds[k].response.Renewed?
    ensures Rhythm(s, l, rounds, n + 1)
         == [Sleep(s, l, rounds[0]), Ask(s, l, rounds[0])] + Rhythm(StateAt(s, l, rounds, 1), l, rounds[1..], n)
  {
    hide Sleep, Ask;
    Shift(s, l, rounds, n);
    if n == 0 {
      assert Rhythm(s, l, rounds, 0) == [];
    } else {
      RhythmShift(s, l, rounds, n - 1);
      Shift(s, l, rounds, n - 1);
    }
  }

  /** A run whose every round is renewed in time keeps this rhythm to the end. */
  lemma {:induction false} RenewsForever(s: State, l: L.Lease, rounds: seq<Round>)
    requires RenewsUpTo(s, l, rounds, |rounds|)
    ensures Events(s, l, rounds) == Rhythm(s, l, rounds, |rounds|)
    decreases |rounds|
  {
    hide Sleep, Ask;
    if rounds != [] {
      assert RenewedInTime(StateAt(s, l, rounds, 0), rounds[0]);
      First(s, l, rounds);
      RenewsShift(s, l, rounds, |rounds| - 1);
      RenewsForever(StateAt(s, l, rounds, 1), l, rounds[1..]);
      RhythmShift(s, l, rounds, |rounds| - 1);
    }
  }
}
