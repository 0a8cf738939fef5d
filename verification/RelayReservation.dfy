/**
 The relay-reservation maintainer (internal/reachability/relay_reservation.go:89-243). A tick renews the
 reservation when the relay is disconnected or the renewal deadline has passed.
 */
module RelayReservation {
  import opened Units
  import opened Wrappers

  const DEFAULT_MARGIN: int := 60 * SECOND
  const MINIMUM_RENEW_DELAY: int := 30 * SECOND

  /** What the relay granted last, when, and whether it is usable. */
  datatype State = State(expires: Time, last: Time, ready: bool)

  /** nextRenewLocked */
  function NextRenew(expires: Time, last: Time, margin: int, minDelay: int): Time {
    var base := expires - margin;
    var floor := last + minDelay;
    if base > floor then base else floor
  }

  /** One tick: the clock, whether the relay is connected, and what maintenance would grant, if anything. */
  datatype Tick = Tick(now: Time, connected: bool, grant: Option<Time>)

  datatype Event = Silent | Ready | Failed

  predicate IsDue(s: State, t: Tick, margin: int, minDelay: int) {
    !t.connected || t.now >= NextRenew(s.expires, s.last, margin, minDelay)
  }

  /** One maintenance pass at `now` with the relay's answer. */
  function Maintained(s: State, now: Time, grant: Option<Time>, margin: int, minDelay: int): (State, Event) {
    match grant
    case None => (s.(ready := false), Failed)
    case Some(expires) =>
      var ok := NextRenew(expires, now, margin, minDelay) < expires;
      (State(expires, now, ok), if ok then Ready else Failed)
  }

  function OnTick(s: State, t: Tick, margin: int, minDelay: int): (State, Event) {
    if IsDue(s, t, margin, minDelay) then Maintained(s, t.now, t.grant, margin, minDelay) else (s, Silent)
  }

  /** The tick comes while the relay is connected, before the margin or before the minimum delay is over. */
  predicate TooEarly(s: State, t: Tick, margin: int, minDelay: int) {
    t.connected && (t.now < s.expires - margin || t.now < s.last + minDelay)
  }

  /** What one tick does, from s to n with event e. */
  predicate TickDoes(s: State, t: Tick, n: State, e: Event, margin: int, minDelay: int) {
    if TooEarly(s, t, margin, minDelay) then n == s && e == Silent
    else if t.grant.None? then n == State(s.expires, s.last, false) && e == Failed
    else
      && n == State(t.grant.value, t.now, t.grant.value > t.now + minDelay)
      && e == if t.grant.value > t.now + minDelay then Ready else Failed
  }

  lemma OnTickDoes(s: State, t: Tick, margin: int, minDelay: int)
    requires margin > 0
    ensures var (n, e) := OnTick(s, t, margin, minDelay); TickDoes(s, t, n, e, margin, minDelay)
  {}

  /** The state after the first k ticks. */
  function After(s: State, ticks: seq<Tick>, k: nat, margin: int, minDelay: int): State
    requires k <= |ticks|
  {
    if k == 0 then s else OnTick(After(s, ticks, k - 1, margin, minDelay), ticks[k - 1], margin, minDelay).0
  }

  /** These are the events of the first ticks, in order. */
  ghost predicate Traced(s: State, ticks: seq<Tick>, events: seq<Event>, margin: int, minDelay: int) {
    && |events| <= |ticks|
    && (forall k | 0 <= k < |events| ::
          events[k] == OnTick(After(s, ticks, k, margin, minDelay), ticks[k], margin, minDelay).1)
  }

  lemma Untraced(s: State, ticks: seq<Tick>, margin: int, minDelay: int)
    ensures Traced(s, ticks, [], margin, minDelay) && After(s, ticks, 0, margin, minDelay) == s
  {}

  lemma TracedStep(s: State, ticks: seq<Tick>, events: seq<Event>, margin: int, minDelay: int)
    requires Traced(s, ticks, events, margin, minDelay) && |events| < |ticks|
    ensures var k := |events|;
      var (n, e) := OnTick(After(s, ticks, k, margin, minDelay), ticks[k], margin, minDelay);
      && After(s, ticks, k + 1, margin, minDelay) == n
      && Traced(s, ticks, events + [e], margin, minDelay)
  {
    hide OnTick;
  }

  lemma TracedDo(s: State, ticks: seq<Tick>, events: seq<Event>, margin: int, minDelay: int)
    requires margin > 0 && Traced(s, ticks, events, margin, minDelay)
    ensures forall k | 0 <= k < |events| ::
      TickDoes(After(s, ticks, k, margin, minDelay), ticks[k], After(s, ticks, k + 1, margin, minDelay), events[k],
               margin, minDelay)
  {
    hide OnTick, TickDoes;
    forall k | 0 <= k < |events|
      ensures TickDoes(After(s, ticks, k, margin, minDelay), ticks[k], After(s, ticks, k + 1, margin, minDelay),
                       events[k], margin, minDelay)
    {
      OnTickDoes(After(s, ticks, k, margin, minDelay), ticks[k], margin, minDelay);
    }
  }

  class RelayReservation {
    const margin: int
    const minDelay: int := MINIMUM_RENEW_DELAY
    var expires: Time
    var lastMaintained: Time
    var ready: bool

    ghost function Model(): State
      reads this
    {
      State(expires, lastMaintained, ready)
    }

    constructor (margin: int)
      ensures this.margin == if margin <= 0 then DEFAULT_MARGIN else margin
      ensures this.margin > 0 && !ready
    {
      this.margin := if margin <= 0 then DEFAULT_MARGIN else margin;
      expires, lastMaintained, ready := 0, 0, false;
    }

    method Record(expiresAt: Time, now: Time) returns (ok: bool)
      modifies this
      ensures expires == expiresAt && lastMaintained == now && ready == old(ready)
      ensures margin > 0 ==> (ok <==> expiresAt > now + minDelay)
      ensures ok <==> NextRenew(expiresAt, now, margin, minDelay) < expiresAt
    {
      expires := expiresAt;
      lastMaintained := now;
      var next := NextRenew(expires, lastMaintained, margin, minDelay);
      return next < expiresAt;
    }

    method Maintain(now: Time, grant: Option<Time>) returns (e: Event)
      modifies this
      ensures (Model(), e) == Maintained(old(Model()), now, grant, margin, minDelay)
    {
      if grant.None? {
        ready := false;
        return Failed;
      }
      var ok := Record(grant.value, now);
      ready := ok;
      return if ok then Ready else Failed;
    }

    /** Acquire succeeds exactly when the relay grants a reservation that can be renewed before it expires. */
    method Acquire(now: Time, grant: Option<Time>) returns (ok: bool)
      requires margin > 0
      modifies this
      ensures ok == ready && (ok <==> grant.Some? && grant.value > now + minDelay)
      ensures ok ==> Model() == State(grant.value, now, true)
    {
      var e := Maintain(now, grant);
      return e == Ready;
    }

    /** Serve over a finite run of ticks; events[k] is the callback that tick k made. */
    method Serve(ticks: seq<Tick>) returns (events: seq<Event>)
      modifies this
      ensures Model() == After(old(Model()), ticks, |ticks|, margin, minDelay)
      ensures |events| == |ticks| && Traced(old(Model()), ticks, events, margin, minDelay)
      ensures margin > 0 ==> forall k | 0 <= k < |ticks| ::
        TickDoes(After(old(Model()), ticks, k, margin, minDelay), ticks[k],
                 After(old(Model()), ticks, k + 1, margin, minDelay), events[k], margin, minDelay)
    {
      hide TickDoes, Traced, After;
      events := [];
      assert Traced(Model(), ticks, [], margin, minDelay) && After(Model(), ticks, 0, margin, minDelay) == Model() by {
        Untraced(Model(), ticks, margin, minDelay);
      }
      for i := 0 to |ticks|
        invariant |events| == i && Model() == After(old(Model()), ticks, i, margin, minDelay)
        invariant Traced(old(Model()), ticks, events, margin, minDelay)
      {
        TracedStep(old(Model()), ticks, events, margin, minDelay);
        var t := ticks[i];
        if t.connected && t.now < NextRenew(expires, lastMaintained, margin, minDelay) {
          events := events + [Silent];
        } else {
          var e := Maintain(t.now, t.grant);
          events := events + [e];
        }
      }
      if margin > 0 {
        TracedDo(old(Model()), ticks, events, margin, minDelay);
      }
    }
  }

  /**
   The deadline lies in [last + minDelay, expires) exactly when record succeeds, which is exactly when
   the reservation outlives last + minDelay.
   */
  lemma RecordSucceedsIff(s: State, now: Time, expires: Time, margin: int, minDelay: int)
    requires margin > 0
    ensures var next := NextRenew(expires, now, margin, minDelay);
      && (now + minDelay <= next < expires <==> expires > now + minDelay)
      && (Maintained(s, now, Some(expires), margin, minDelay).1 == Ready <==> expires > now + minDelay)
  {}

  /** In every run, with failures and disconnections, ready means the renewal is scheduled before expiry. */
  lemma {:induction false} ReadyIsScheduled(s: State, ticks: seq<Tick>, k: nat, margin: int, minDelay: int)
    requires k <= |ticks|
    requires s.ready ==> NextRenew(s.expires, s.last, margin, minDelay) < s.expires
    ensures var n := After(s, ticks, k, margin, minDelay);
      n.ready ==> n.last + minDelay <= NextRenew(n.expires, n.last, margin, minDelay) < n.expires
  {
    if k > 0 {
      ReadyIsScheduled(s, ticks, k - 1, margin, minDelay);
    }
  }

  // ---- renewal before expiry

  /** Tick times start after `from` and are at most T apart. */
  predicate AtMostApart(ticks: seq<Tick>, from: Time, T: int) {
    && (ticks != [] ==> from < ticks[0].now <= from + T)
    && forall k | 0 <= k < |ticks| - 1 :: ticks[k].now < ticks[k + 1].now <= ticks[k].now + T
  }

  /** Maintenance always succeeds, with a reservation longer than minDelay + T. */
  predicate Generous(ticks: seq<Tick>, minDelay: int, T: int) {
    forall k | 0 <= k < |ticks| ::
        ticks[k].connected && ticks[k].grant.Some? && ticks[k].grant.value > ticks[k].now + minDelay + T
  }

  function TimeOf(s: State, ticks: seq<Tick>, k: nat): Time
    requires k <= |ticks|
  {
    if k == 0 then s.last else ticks[k - 1].now
  }

  /**
   In every connected run with ticks at most T apart, grants longer than minDelay + T and margin > T,
   every tick comes before the current reservation expires; so it is renewed in time, and stays ready.
   */
  lemma {:induction false} RenewedBeforeExpiry(s: State, ticks: seq<Tick>, k: nat, margin: int, minDelay: int, T: int)
    requires k <= |ticks| && margin > T && minDelay > 0
    requires s.ready && s.expires > s.last + minDelay + T
    requires AtMostApart(ticks, s.last, T) && Generous(ticks, minDelay, T)
    ensures var n := After(s, ticks, k, margin, minDelay);
      && n.ready && n.expires > n.last + minDelay + T
      && TimeOf(s, ticks, k) < NextRenew(n.expires, n.last, margin, minDelay)
      && (k < |ticks| ==> ticks[k].now < n.expires && OnTick(n, ticks[k], margin, minDelay).1 != Failed)
  {
    if k > 0 {
      RenewedBeforeExpiry(s, ticks, k - 1, margin, minDelay, T);
    }
  }

  /** Tick times that reach up to the deadline and then miss it by as much as T allows. */
  predicate Approaches(times: seq<Time>, last: Time, T: int) {
    && times != [] && last < times[0] <= last + T
    && forall k | 0 <= k < |times| - 1 :: times[k] < times[k + 1] <= times[k] + T
  }

  /** The tick that renews: the first at or after the deadline. */
  predicate RenewsAt(times: seq<Time>, deadline: Time, k: nat) {
    k < |times| && times[k] >= deadline && forall j | 0 <= j < k :: times[j] < deadline
  }

  function LateTicks(last: Time, deadline: Time, T: int): (times: seq<Time>)
    requires last < deadline && T >= 1
    ensures Approaches(times, last, T) && RenewsAt(times, deadline, deadline - 1 - last)
    ensures times[deadline - 1 - last] == deadline - 1 + T
  {
    seq(deadline - 1 - last, i => last + 1 + i) + [deadline - 1 + T]
  }

  /**
   Exactly when a reservation is renewed before it expires however its ticks fall: when T - 1 past the
   deadline is still before its expiry.
   */
  lemma RenewedInTimeIff(expires: Time, last: Time, margin: int, minDelay: int, T: int)
    requires minDelay > 0 && T >= 1
    ensures var deadline := NextRenew(expires, last, margin, minDelay);
      (forall times: seq<Time>, k: nat | Approaches(times, last, T) && RenewsAt(times, deadline, k) ::
          times[k] < expires)
      <==> deadline - 1 + T < expires
  {
    var deadline := NextRenew(expires, last, margin, minDelay);
    var late := LateTicks(last, deadline, T);
    assert Approaches(late, last, T) && RenewsAt(late, deadline, deadline - 1 - last);
    forall times: seq<Time>, k: nat | Approaches(times, last, T) && RenewsAt(times, deadline, k)
      ensures times[k] <= deadline - 1 + T
    {
      if k > 0 {
        assert times[k - 1] < deadline;
      }
    }
  }

  /** The shipped bounds: 5s ticks, a minute's margin, and any grant longer than 35s. */
  lemma DefaultsRenewInTime(s: State, ticks: seq<Tick>, k: nat)
    requires k < |ticks| && s.ready && s.expires > s.last + 35 * SECOND
    requires AtMostApart(ticks, s.last, 5 * SECOND) && Generous(ticks, MINIMUM_RENEW_DELAY, 5 * SECOND)
    ensures ticks[k].now < After(s, ticks, k, DEFAULT_MARGIN, MINIMUM_RENEW_DELAY).expires
  {
    RenewedBeforeExpiry(s, ticks, k, DEFAULT_MARGIN, MINIMUM_RENEW_DELAY, 5 * SECOND);
  }
}
