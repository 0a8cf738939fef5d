/**
 The periodic sync owner (internal/runtime/sync.go:71-107 and 146-212): it holds the scope-sync lease,
 extends it while it waits and while an attempt runs, and starts each attempt one cadence after the
 previous one ended. Time is virtual: only waits and attempts take any.
 */
module SyncController {
  import opened Units
  import opened Wrappers
  import opened TimeText
  import opened SyncLease

  datatype Settings = Settings(cadence: int, ttl: int, renew: int, timeout: int)

  const DEFAULTS := Settings(60 * SECOND, 45 * SECOND, 10 * SECOND, 20 * SECOND)

  function OrDefault(value: int, default: int): int {
    if value == 0 then default else value
  }

  /** settings(): zero fields take the defaults, the others are kept; then the bounds are checked. */
  function Resolve(c: Settings): (r: Option<Settings>)
    ensures r.Some? ==> Filled(c, r.value) && Accepted(r.value)
    ensures r.None? ==> forall s | Filled(c, s) :: !Accepted(s)
  {
    var s := Settings(OrDefault(c.cadence, DEFAULTS.cadence), OrDefault(c.ttl, DEFAULTS.ttl),
                      OrDefault(c.renew, DEFAULTS.renew), OrDefault(c.timeout, DEFAULTS.timeout));
    if s.cadence <= 0 || s.ttl <= s.timeout || s.renew <= 0 || s.renew >= s.ttl || s.timeout <= 0 then None else Some(s)
  }

  predicate Filled(c: Settings, s: Settings) {
    && s.cadence == (if c.cadence != 0 then c.cadence else 60 * SECOND)
    && s.ttl == (if c.ttl != 0 then c.ttl else 45 * SECOND)
    && s.renew == (if c.renew != 0 then c.renew else 10 * SECOND)
    && s.timeout == (if c.timeout != 0 then c.timeout else 20 * SECOND)
  }

  predicate Accepted(s: Settings) {
    s.cadence > 0 && 0 < s.timeout < s.ttl && 0 < s.renew < s.ttl
  }

  /**
   What the environment decides about one attempt: how long it runs, whether a tick that falls on its
   end is served first, whether the call reports a lost lease, the jitter, and the stored next retry.
   */
  datatype Round = Round(duration: int, tickFirst: bool, reportsLost: bool, jitter: int, nextRetry: Option<Time>)

  predicate Legal(s: Settings, r: Round) {
    0 <= r.duration <= s.timeout && 0 <= r.jitter <= s.cadence / 10
  }

  /** The owner's state, and the times of its lease extensions and attempts. */
  datatype Owner = Owner(
    lease: Lease, now: Time, due: Time, row: Option<LeaseRow>, lost: bool,
    extensions: seq<Time>, attempts: seq<(Time, Time)>)

  /** The owner right after its acquisition committed. */
  function Acquired(l: Lease, start: Time, s: Settings): Owner {
    Owner(l, start, start, Some(LeaseRow(l, start, start, start + s.ttl)), false, [start], [])
  }

  function Renewal(o: Owner, s: Settings): Owner {
    if Renews(o.row, o.lease, o.now, s.ttl)
    then o.(row := Renew(o.row, o.lease, o.now, s.ttl), extensions := o.extensions + [o.now])
    else o.(lost := true)
  }

  /** attempt: a ticker renews until the call is done. */
  function Ticks(o: Owner, s: Settings, next: Time, end: Time, tickFirst: bool): Owner
    requires s.renew > 0
    decreases end - next + 1
  {
    if o.lost then o
    else if next < end || (next == end && tickFirst) then
      Ticks(Renewal(o.(now := next), s), s, next + s.renew, end, tickFirst)
    else o.(now := end)
  }

  function NextDue(r: Round, fallback: Time): Time {
    if r.nextRetry.Some? && r.nextRetry.value > fallback then r.nextRetry.value else fallback
  }

  function AttemptOf(o: Owner, s: Settings, r: Round): Owner
    requires s.renew > 0
  {
    var t := Ticks(o, s, o.now + s.renew, o.now + r.duration, r.tickFirst);
    var e := t.(attempts := t.attempts + [(o.now, t.now)]);
    if t.lost then e
    else if r.reportsLost then e.(lost := true)
    else e.(due := NextDue(r, e.now + s.cadence + r.jitter))
  }

  /** One wait of runOwner, and the renewal after it unless the attempt is due. */
  function WaitOnce(o: Owner, s: Settings): Owner
    requires o.now < o.due
  {
    var w := o.(now := o.now + if o.due - o.now > s.renew then s.renew else o.due - o.now);
    if w.now < w.due then Renewal(w, s) else w
  }

  function WaitUntilDue(o: Owner, s: Settings): Owner
    requires s.renew > 0
    decreases o.due - o.now
  {
    if o.lost || o.now >= o.due then o else WaitUntilDue(WaitOnce(o, s), s)
  }

  function RunRounds(o: Owner, s: Settings, rounds: seq<Round>): Owner
    requires s.renew > 0
    decreases |rounds|
  {
    if o.lost || rounds == [] then o
    else
      var w := WaitUntilDue(o, s);
      if w.lost then w else RunRounds(AttemptOf(w, s, rounds[0]), s, rounds[1..])
  }

  lemma OneWait(o: Owner, s: Settings, rounds: seq<Round>)
    requires s.renew > 0 && !o.lost && o.now < o.due && rounds != []
    ensures RunRounds(o, s, rounds) == RunRounds(WaitOnce(o, s), s, rounds)
  {
    var w := WaitOnce(o, s);
    assert WaitUntilDue(o, s) == WaitUntilDue(w, s);
    assert w.lost ==> WaitUntilDue(w, s) == w;
  }

  // ---- the loops, as they run

  class SyncOwner {
    const lease: Lease
    const s: Settings
    var now: Time
    var due: Time
    var row: Option<LeaseRow>
    var lost: bool
    ghost var extensions: seq<Time>
    ghost var attempts: seq<(Time, Time)>

    ghost function Model(): Owner
      reads this
    {
      Owner(lease, now, due, row, lost, extensions, attempts)
    }

    constructor (lease: Lease, start: Time, s: Settings)
      ensures Model() == Acquired(lease, start, s) && this.s == s
    {
      this.lease, this.s, now, due := lease, s, start, start;
      row, lost := Some(LeaseRow(lease, start, start, start + s.ttl)), false;
      extensions, attempts := [start], [];
    }

    method RenewLease()
      modifies this
      ensures Model() == Renewal(old(Model()), s)
    {
      if Renews(row, lease, now, s.ttl) {
        row := Renew(row, lease, now, s.ttl);
        extensions := extensions + [now];
      } else {
        lost := true;
      }
    }

    method Attempt(r: Round)
      requires s.renew > 0 && !lost
      modifies this
      ensures Model() == AttemptOf(old(Model()), s, r)
    {
      hide Renews, Renew;
      var start := now;
      var end := now + r.duration;
      var next := now + s.renew;
      while !lost && (next < end || (next == end && r.tickFirst))
        invariant Ticks(Model(), s, next, end, r.tickFirst)
               == Ticks(old(Model()), s, start + s.renew, end, r.tickFirst)
        decreases end - next + 1
      {
        now := next;
        RenewLease();
        next := next + s.renew;
      }
      if !lost {
        now := end;
      }
      attempts := attempts + [(start, now)];
      if !lost {
        if r.reportsLost {
          lost := true;
        } else {
          due := NextDue(r, now + s.cadence + r.jitter);
        }
      }
    }

    /** Runs until the lease is lost or the rounds are over; the result is whether it is still owned. */
    method RunOwner(rounds: seq<Round>) returns (owned: bool)
      requires s.renew > 0
      modifies this
      ensures Model() == RunRounds(old(Model()), s, rounds) && owned == !lost
    {
      hide Renews, Renew, AttemptOf;
      var i := 0;
      while !lost && i < |rounds|
        invariant i <= |rounds|
        invariant RunRounds(Model(), s, rounds[i..]) == RunRounds(old(Model()), s, rounds)
        decreases |rounds| - i, due - now
      {
        if now >= due {
          assert rounds[i..][1..] == rounds[i + 1..];
          Attempt(rounds[i]);
          i := i + 1;
        } else {
          OneWait(Model(), s, rounds[i..]);
          now := now + if due - now > s.renew then s.renew else due - now;
          if now < due {
            RenewLease();
          }
        }
      }
      return !lost;
    }
  }

  // ---- how far apart the extensions are

  function Min(a: int, b: int): int {
    if a < b then a else b
  }

  /** The longest time between two extensions: the wait before an attempt, the attempt, the wait after it. */
  function Worst(s: Settings): int {
    2 * s.renew + Min(s.renew, s.timeout)
  }

  function Last(o: Owner): Time
    requires o.extensions != []
  {
    o.extensions[|o.extensions| - 1]
  }

  predicate Spaced(times: seq<Time>, gap: int) {
    forall k | 0 <= k < |times| - 1 :: times[k] <= times[k + 1] <= times[k] + gap
  }

  /** Each attempt starts at least one cadence after the previous one ended. */
  predicate Paced(attempts: seq<(Time, Time)>, cadence: int) {
    forall k | 0 <= k < |attempts| - 1 :: attempts[k].1 + cadence <= attempts[k + 1].0
  }

  predicate Histories(o: Owner, s: Settings) {
    && o.extensions != [] && Spaced(o.extensions, Worst(s)) && Last(o) <= o.now
    && Paced(o.attempts, s.cadence)
    && (o.attempts != [] && !o.lost ==> o.attempts[|o.attempts| - 1].1 + s.cadence <= o.due)
  }

  /** The row is still this owner's, as its last extension wrote it. */
  predicate Holding(o: Owner, s: Settings)
    requires o.extensions != []
  {
    o.row.Some? && o.row.value.lease == o.lease && o.row.value.expiresAt == Last(o) + s.ttl
  }

  /** Before an attempt is due the owner has just extended, or has a whole renew interval to wait. */
  predicate Timely(o: Owner, s: Settings)
    requires o.extensions != []
  {
    if o.now >= o.due then o.now - Last(o) <= s.renew
    else o.now == Last(o) || (o.now - Last(o) <= s.renew + Min(s.renew, s.timeout) && o.due - o.now > s.renew)
  }

  predicate Invariant(o: Owner, s: Settings) {
    Histories(o, s) && Holding(o, s) && (o.lost || Timely(o, s))
  }

  predicate Regular(s: Settings) {
    Accepted(s) && s.cadence > s.renew
  }

  /** A lease that lasts a second more than the longest gap; the second covers the order of stored text. */
  predicate Ample(l: Lease, s: Settings) {
    ValidFence(l) && ValidInput(l.scope, l.holder, l.process, s.ttl) && s.ttl >= Worst(s) + SECOND
  }

  /** The store would refuse to extend the row now. */
  predicate Refused(o: Owner, s: Settings) {
    !Renews(o.row, o.lease, o.now, s.ttl)
  }

  lemma RenewalKeeps(o: Owner, s: Settings)
    requires Regular(s) && !o.lost && o.extensions != [] && Spaced(o.extensions, Worst(s)) && Holding(o, s)
    requires Last(o) <= o.now <= Last(o) + Worst(s)
    ensures var n := Renewal(o, s);
      && n.now == o.now && n.due == o.due && n.attempts == o.attempts && n.lease == o.lease
      && n.extensions != [] && Spaced(n.extensions, Worst(s)) && Holding(n, s)
      && Last(n) == (if n.lost then Last(o) else o.now)
      && (Ample(o.lease, s) ==> !n.lost) && (n.lost ==> Refused(n, s))
  {
    hide Less, Suffix;
  }

  lemma WaitOnceKeeps(o: Owner, s: Settings)
    requires Regular(s) && Invariant(o, s) && !o.lost && o.now < o.due
    ensures var n := WaitOnce(o, s);
      && Invariant(n, s) && n.lease == o.lease && n.attempts == o.attempts && n.due == o.due
      && (Ample(o.lease, s) ==> !n.lost) && (n.lost ==> Refused(n, s))
  {
    hide Renewal, Ample, Refused;
    var w := o.(now := o.now + if o.due - o.now > s.renew then s.renew else o.due - o.now);
    RenewalKeeps(w, s);
  }

  lemma {:induction false} WaitKeeps(o: Owner, s: Settings)
    requires Regular(s) && Invariant(o, s)
    ensures var n := WaitUntilDue(o, s);
      && Invariant(n, s) && n.lease == o.lease && (n.lost || n.now >= n.due)
      && (Ample(o.lease, s) && !o.lost ==> !n.lost) && (n.lost && !o.lost ==> Refused(n, s))
    decreases o.due - o.now
  {
    hide WaitOnce, Ample, Invariant, Refused;
    if !o.lost && o.now < o.due {
      WaitOnceKeeps(o, s);
      WaitOnceMoves(o, s);
      WaitKeeps(WaitOnce(o, s), s);
    }
  }

  lemma WaitOnceMoves(o: Owner, s: Settings)
    requires s.renew > 0 && o.now < o.due
    ensures var n := WaitOnce(o, s); n.due == o.due && o.now < n.now <= n.due
  {}

  lemma {:induction false} TicksKeep(o: Owner, s: Settings, start: Time, next: Time, end: Time, tickFirst: bool)
    requires Regular(s) && !o.lost && o.extensions != [] && Spaced(o.extensions, Worst(s)) && Holding(o, s)
    requires Last(o) <= o.now <= end && o.now <= next
    requires Last(o) == next - s.renew
      || (next == start + s.renew && start - Last(o) <= s.renew && end <= start + s.timeout)
    ensures var n := Ticks(o, s, next, end, tickFirst);
      && n.lease == o.lease && n.attempts == o.attempts
      && n.extensions != [] && Spaced(n.extensions, Worst(s)) && Holding(n, s) && Last(n) <= n.now
      && (!n.lost ==> n.now == end && end - Last(n) <= s.renew + Min(s.renew, s.timeout))
      && (Ample(o.lease, s) ==> !n.lost) && (n.lost ==> Refused(n, s))
    decreases end - next + 1
  {
    hide Renewal, Ample, Spaced, Holding, Refused;
    if next < end || (next == end && tickFirst) {
      var r := Renewal(o.(now := next), s);
      RenewalKeeps(o.(now := next), s) by { SameHolding(o, s, next); }
      if !r.lost {
        TicksKeep(r, s, start, next + s.renew, end, tickFirst);
      }
    } else {
      SameHolding(o, s, end);
    }
  }

  lemma SameHolding(o: Owner, s: Settings, now: Time)
    requires o.extensions != [] && Holding(o, s)
    ensures Holding(o.(now := now), s)
  {}

  lemma AttemptKeeps(o: Owner, s: Settings, r: Round)
    requires Regular(s) && Legal(s, r) && Invariant(o, s) && !o.lost && o.now >= o.due
    ensures var n := AttemptOf(o, s, r);
      && Invariant(n, s) && n.lease == o.lease
      && (Ample(o.lease, s) && !r.reportsLost ==> !n.lost) && (n.lost && !r.reportsLost ==> Refused(n, s))
  {
    hide Ticks, Ample, Renews;
    TicksKeep(o, s, o.now, o.now + s.renew, o.now + r.duration, r.tickFirst);
  }

  /**
   Whatever the attempts do: successive extensions are at most Worst(s) <= 3 * renew apart, and each
   attempt starts at least one cadence after the previous one ended. With an ample lease the owner
   never loses it, unless an attempt itself reports it lost.
   */
  lemma {:induction false} RunKeeps(o: Owner, s: Settings, rounds: seq<Round>)
    requires Regular(s) && Invariant(o, s) && forall r | r in rounds :: Legal(s, r)
    ensures var n := RunRounds(o, s, rounds);
      && Invariant(n, s) && n.lease == o.lease
      && (!o.lost && (forall r | r in rounds :: !r.reportsLost) ==>
            (Ample(o.lease, s) ==> !n.lost) && (n.lost ==> Refused(n, s)))
    decreases |rounds|
  {
    hide WaitUntilDue, AttemptOf, Ample, Invariant, Legal, Refused;
    if !o.lost && rounds != [] {
      WaitKeeps(o, s);
      var w := WaitUntilDue(o, s);
      if !w.lost {
        AttemptKeeps(w, s, rounds[0]);
        RunKeeps(AttemptOf(w, s, rounds[0]), s, rounds[1..]);
      }
    }
  }

  lemma OwnerTimeline(l: Lease, start: Time, s: Settings, rounds: seq<Round>)
    requires Regular(s) && forall r | r in rounds :: Legal(s, r)
    ensures var n := RunRounds(Acquired(l, start, s), s, rounds);
      && Spaced(n.extensions, 3 * s.renew) && Paced(n.attempts, s.cadence)
      && (Ample(l, s) && (forall r | r in rounds :: !r.reportsLost) ==> !n.lost)
  {
    hide RunRounds, Ample;
    RunKeeps(Acquired(l, start, s), s, rounds);
  }

  /** The defaults are ample: 3 * 10s and a second are within 45s. */
  lemma DefaultsAreAmple(l: Lease)
    requires ValidFence(l) && ValidInput(l.scope, l.holder, l.process, DEFAULTS.ttl)
    ensures Resolve(Settings(0, 0, 0, 0)) == Some(DEFAULTS) && Regular(DEFAULTS) && Ample(l, DEFAULTS)
  {}

  // ---- the exact timeline

  /** Evenly spaced times from `first` on. */
  predicate Progression(times: seq<Time>, first: Time, step: int) {
    && (times != [] ==> times[0] == first)
    && forall k | 0 <= k < |times| - 1 :: times[k + 1] == times[k] + step
  }

  /** The time after these. */
  function After(times: seq<Time>, first: Time, step: int): Time {
    if times == [] then first else times[|times| - 1] + step
  }

  /** The tick at this time is served before the attempt is done. */
  predicate Served(tick: Time, end: Time, tickFirst: bool) {
    tick < end || (tick == end && tickFirst)
  }

  /** A run of renewals at these times: the row moves with the last one and nothing else moves. */
  predicate RenewedAt(o: Owner, n: Owner, s: Settings, times: seq<Time>) {
    && n.extensions == o.extensions + times && n.attempts == o.attempts && n.due == o.due && n.lease == o.lease
    && (times == [] ==> n.row == o.row)
    && (times != [] ==> n.row.Some? && n.row.value.renewedAt == times[|times| - 1]
                        && n.row.value.expiresAt == times[|times| - 1] + s.ttl && n.row.value.lease == o.lease)
  }

  lemma RenewalTimeline(o: Owner, s: Settings)
    ensures var n := Renewal(o, s);
      && n.now == o.now
      && (if Refused(o, s) then n == o.(lost := true) else RenewedAt(o, n, s, [o.now]) && n.lost == o.lost)
  {
    hide TextLess;
  }

  lemma PrependTick(o: Owner, m: Owner, n: Owner, s: Settings, first: Time, rest: seq<Time>)
    requires RenewedAt(o, m, s, [first]) && RenewedAt(m, n, s, rest) && Progression(rest, first + s.renew, s.renew)
    ensures RenewedAt(o, n, s, [first] + rest) && Progression([first] + rest, first, s.renew)
    ensures After([first] + rest, first, s.renew) == After(rest, first + s.renew, s.renew)
  {
    assert o.extensions + [first] + rest == o.extensions + ([first] + rest);
    var all := [first] + rest;
    forall k | 0 <= k < |all| - 1
      ensures all[k + 1] == all[k] + s.renew
    {
      assert all[k + 1] == rest[k];
      if k > 0 {
        assert rest[k] == rest[k - 1] + s.renew && all[k] == rest[k - 1];
      }
    }
  }

  /** The ticker renews at every served tick in turn, up to the first refusal. */
  lemma {:induction false} TicksTimeline(o: Owner, s: Settings, next: Time, end: Time, tickFirst: bool)
    returns (ticks: seq<Time>)
    requires s.renew > 0 && !o.lost
    ensures var n := Ticks(o, s, next, end, tickFirst);
      && RenewedAt(o, n, s, ticks) && Progression(ticks, next, s.renew)
      && (forall k | 0 <= k < |ticks| :: Served(ticks[k], end, tickFirst))
      && (if n.lost then n.now == After(ticks, next, s.renew) && Served(n.now, end, tickFirst) && Refused(n, s)
          else n.now == end && !Served(After(ticks, next, s.renew), end, tickFirst))
    decreases end - next + 1
  {
    hide Renewal, RenewedAt, Progression, Refused;
    var n := Ticks(o, s, next, end, tickFirst);
    ticks := [];
    NoTicks(o, n.now, s, next);
    if Served(next, end, tickFirst) {
      var m := Renewal(o.(now := next), s);
      RenewalTimeline(o.(now := next), s);
      if m.lost {
        RefusedStill(o.(now := next), s);
        NoTicksLost(o, next, s);
      } else {
        var rest := TicksTimeline(m, s, next + s.renew, end, tickFirst);
        SameTimeline(o, next, m, s, [next]);
        PrependTick(o, m, n, s, next, rest);
        ticks := [next] + rest;
      }
    }
  }

  lemma RefusedStill(o: Owner, s: Settings)
    requires Refused(o, s)
    ensures Refused(o.(lost := true), s)
  {}

  lemma NoTicks(o: Owner, now: Time, s: Settings, next: Time)
    ensures RenewedAt(o, o.(now := now), s, []) && Progression([], next, s.renew) && After([], next, s.renew) == next
  {}

  lemma NoTicksLost(o: Owner, now: Time, s: Settings)
    ensures RenewedAt(o, o.(now := now, lost := true), s, [])
  {}

  lemma SameTimeline(o: Owner, now: Time, n: Owner, s: Settings, times: seq<Time>)
    requires RenewedAt(o.(now := now), n, s, times)
    ensures RenewedAt(o, n, s, times)
  {}

  /**
   One attempt, exactly: renewals every renew interval from its start until it is done; it lasts its
   duration; the lease counts as lost if and only if a renewal was refused or the call reported it; and
   the next attempt is due at the stored retry or one cadence and the jitter later, whichever is later.
   */
  lemma AttemptTimeline(o: Owner, s: Settings, r: Round) returns (ticks: seq<Time>)
    requires s.renew > 0 && !o.lost
    ensures var n := AttemptOf(o, s, r);
      var end := o.now + r.duration;
      var next := After(ticks, o.now + s.renew, s.renew);
      && n.extensions == o.extensions + ticks && Progression(ticks, o.now + s.renew, s.renew)
      && (forall k | 0 <= k < |ticks| :: Served(ticks[k], end, r.tickFirst))
      && n.attempts == o.attempts + [(o.now, n.now)]
      && (|| (n.now == next && Served(next, end, r.tickFirst) && Refused(n, s) && n.lost)
          || (&& n.now == end && !Served(next, end, r.tickFirst) && n.lost == r.reportsLost
              && (!n.lost ==> && n.due >= end + s.cadence + r.jitter
                              && (r.nextRetry.Some? ==> n.due >= r.nextRetry.value)
                              && (n.due == end + s.cadence + r.jitter || Some(n.due) == r.nextRetry))))
  {
    hide Ticks, Progression, Renews;
    ticks := TicksTimeline(o, s, o.now + s.renew, o.now + r.duration, r.tickFirst);
  }

  /** One wait, exactly: renewals every renew interval strictly before the due time, then the due time. */
  lemma {:induction false} WaitTimeline(o: Owner, s: Settings) returns (ticks: seq<Time>)
    requires s.renew > 0 && !o.lost
    ensures var n := WaitUntilDue(o, s);
      var next := After(ticks, o.now + s.renew, s.renew);
      && RenewedAt(o, n, s, ticks) && Progression(ticks, o.now + s.renew, s.renew)
      && (forall k | 0 <= k < |ticks| :: ticks[k] < o.due)
      && (if n.lost then n.now == next < o.due && Refused(n, s)
          else next >= o.due && n.now == if o.now < o.due then o.due else o.now)
    decreases o.due - o.now
  {
    hide Renewal, RenewedAt, Progression, Refused;
    ticks := [];
    NoTicks(o, if o.now < o.due then o.due else o.now, s, o.now + s.renew);
    if o.now < o.due {
      var w := WaitOnce(o, s);
      if o.now + s.renew < o.due {
        var next := o.now + s.renew;
        RenewalTimeline(o.(now := next), s);
        if w.lost {
          RefusedStill(o.(now := next), s);
          NoTicksLost(o, next, s);
        } else {
          SameTimeline(o, next, w, s, [next]);
          SameDue(o, w, s, [next]);
          var rest := WaitTimeline(w, s);
          PrependTick(o, w, WaitUntilDue(o, s), s, next, rest);
          ticks := [next] + rest;
        }
      } else {
        assert w == o.(now := o.due);
      }
    }
  }

  lemma SameDue(o: Owner, n: Owner, s: Settings, times: seq<Time>)
    requires RenewedAt(o, n, s, times)
    ensures n.due == o.due
  {}

  // ---- with any shorter lease some run loses it

  /** At a whole second, a stored expiry less than a second ahead sorts before the text of now. */
  lemma AlignedRefused(now: Time, expires: Time)
    requires now % SECOND == 0 && expires < now + SECOND
    ensures !TextLess(now, expires)
  {
    if expires > now {
      assert Pow10(9) == SECOND by { assert Pow10(5) == 100_000; }
      assert expires % SECOND == expires - now;
      EmptyFraction(0, 9);
      EmptyFraction(expires % SECOND, 9);
    }
    TextOrderIsTimeOrderIff(now, expires);
  }

  /** So many renew intervals fit before an attempt that the stored next retry puts off. */
  function Waits(s: Settings): nat
    requires Regular(s)
  {
    s.cadence / s.renew + 1
  }

  /** From the acquisition to the renewal after the second attempt. */
  function Elapsed(s: Settings): nat
    requires Regular(s)
  {
    (Waits(s) - 1) * s.renew + Worst(s)
  }

  /** The acquisition is timed so that this renewal falls on a whole second. */
  function LosingStart(s: Settings): Time
    requires Regular(s)
  {
    SECOND * Elapsed(s) - Elapsed(s)
  }

  function LosingRounds(s: Settings): seq<Round>
    requires Regular(s)
  {
    [Round(0, false, false, 0, Some(LosingStart(s) + Waits(s) * s.renew)),
     Round(Min(s.renew, s.timeout), false, false, 0, None),
     Round(0, false, false, 0, None)]
  }

  lemma DivPast(c: int, r: int)
    requires 0 < r < c
    ensures (c / r + 1) * r > c && c / r >= 1
  {
    hide *;
    assert c == r * (c / r) + c % r;
  }

  lemma WaitsPastCadence(s: Settings)
    requires Regular(s)
    ensures Waits(s) * s.renew > s.cadence && Waits(s) >= 2
    ensures (LosingStart(s) + Waits(s) * s.renew - s.renew + Worst(s)) % SECOND == 0
  {
    hide Worst;
    DivPast(s.cadence, s.renew);
    OneFewer(Waits(s), s.renew);
    Multiple(Elapsed(s));
  }

  lemma OneFewer(k: int, n: int)
    ensures (k - 1) * n == k * n - n
  {}

  lemma Multiple(k: int)
    ensures (SECOND * k) % SECOND == 0
  {}

  /** Waiting a whole number of renew intervals from an extension ends one interval after the last one. */
  lemma {:induction false} WaitMultiple(o: Owner, s: Settings, k: nat)
    requires Regular(s) && !o.lost && o.extensions != [] && Holding(o, s) && o.now == Last(o)
    requires k >= 1 && o.due == o.now + k * s.renew
    ensures var w := WaitUntilDue(o, s);
      w.lost || (w.now == o.due == w.due && w.extensions != [] && Holding(w, s) && Last(w) == o.due - s.renew)
    decreases k
  {
    hide Renews;
    var w := WaitOnce(o, s);
    if k == 1 {
      assert w.now == o.due;
      assert WaitUntilDue(w, s) == w;
    } else {
      assert k * s.renew == (k - 1) * s.renew + s.renew;
      Positive(k - 1, s.renew);
      assert w.now == o.now + s.renew < o.due;
      if !w.lost {
        WaitMultiple(w, s, k - 1);
      }
    }
  }

  lemma Positive(k: int, n: int)
    requires k >= 1 && n > 0
    ensures k * n >= n
  {}

  lemma FirstAttempt(l: Lease, s: Settings)
    requires Regular(s)
    ensures var o := Acquired(l, LosingStart(s), s);
      AttemptOf(o, s, LosingRounds(s)[0]) == o.(due := o.now + Waits(s) * s.renew, attempts := [(o.now, o.now)])
  {
    hide Worst, Elapsed;
    WaitsPastCadence(s);
  }

  /** The lease is gone after three rounds. */
  lemma Unroll(o: Owner, s: Settings, rounds: seq<Round>)
    requires s.renew > 0 && |rounds| == 3 && !o.lost && WaitUntilDue(o, s) == o
    ensures var first := AttemptOf(o, s, rounds[0]);
      var w := WaitUntilDue(first, s);
      && (w.lost ==> RunRounds(o, s, rounds).lost)
      && (WaitUntilDue(AttemptOf(w, s, rounds[1]), s).lost ==> RunRounds(o, s, rounds).lost)
  {
    hide WaitUntilDue, AttemptOf;
    var first := AttemptOf(o, s, rounds[0]);
    var w := WaitUntilDue(first, s);
    assert rounds[1..][0] == rounds[1] && rounds[1..][1..] == [rounds[2]];
    assert RunRounds(o, s, rounds) == RunRounds(first, s, rounds[1..]);
    if !first.lost && !w.lost {
      assert RunRounds(first, s, rounds[1..]) == RunRounds(AttemptOf(w, s, rounds[1]), s, [rounds[2]]);
    }
  }

  lemma ShortLeaseIsLost(l: Lease, s: Settings)
    requires Regular(s) && s.ttl < Worst(s) + SECOND
    ensures RunRounds(Acquired(l, LosingStart(s), s), s, LosingRounds(s)).lost
  {
    hide RunRounds, AttemptOf, WaitUntilDue, Worst, LosingStart, Waits;
    var rounds := LosingRounds(s);
    var o := Acquired(l, LosingStart(s), s);
    WaitsPastCadence(s);
    assert WaitUntilDue(o, s) == o by { AlreadyDue(o, s); }
    FirstAttempt(l, s);
    var first := AttemptOf(o, s, rounds[0]);
    WaitMultiple(first, s, Waits(s));
    var w := WaitUntilDue(first, s);
    if !w.lost {
      SecondIsLost(w, s, rounds[1]);
    }
    Unroll(o, s, rounds);
  }

  lemma AlreadyDue(o: Owner, s: Settings)
    requires s.renew > 0 && o.now >= o.due
    ensures WaitUntilDue(o, s) == o
  {}

  /** An attempt too short for a tick, then a wait, ends at a whole second Worst(s) after the last extension. */
  lemma SecondIsLost(w: Owner, s: Settings, r: Round)
    requires Regular(s) && s.ttl < Worst(s) + SECOND
    requires !w.lost && w.extensions != [] && Holding(w, s) && Last(w) == w.now - s.renew
    requires r == Round(Min(s.renew, s.timeout), false, false, 0, None)
    requires (Last(w) + Worst(s)) % SECOND == 0
    ensures WaitUntilDue(AttemptOf(w, s, r), s).lost
  {
    hide TextLess;
    var second := AttemptOf(w, s, r);
    var late := second.(now := second.now + s.renew);
    assert late.now == Last(w) + Worst(s);
    AlignedRefused(late.now, Last(w) + s.ttl);
    assert WaitOnce(second, s) == late.(lost := true);
  }

  // ---- with a cadence of at most the renew interval no wait extends the lease

  const INSTANT := Round(0, false, false, 0, None)

  function Instants(n: nat): (rounds: seq<Round>)
    ensures |rounds| == n && forall r | r in rounds :: r == INSTANT
  {
    seq(n, _ => INSTANT)
  }

  /** Attempts of no duration, one cadence apart, and nothing else. */
  lemma {:induction false} NeverExtends(o: Owner, s: Settings, n: nat)
    requires Accepted(s) && s.cadence <= s.renew && !o.lost && o.now <= o.due <= o.now + s.cadence
    ensures var w := RunRounds(o, s, Instants(n));
      && !w.lost && w.lease == o.lease && w.extensions == o.extensions
      && w.now <= w.due <= w.now + s.cadence
      && (n > 0 ==> w.due == o.due + n * s.cadence)
    decreases n
  {
    if n > 0 {
      hide Renews;
      var rounds := Instants(n);
      var w := WaitUntilDue(o, s);
      assert w == o.(now := o.due) by { WaitsToDue(o, s); }
      var next := AttemptOf(w, s, INSTANT);
      assert next == w.(attempts := w.attempts + [(w.now, w.now)], due := w.now + s.cadence);
      assert rounds[0] == INSTANT && rounds[1..] == Instants(n - 1);
      NeverExtends(next, s, n - 1);
      OneFewer(n, s.cadence);
    }
  }

  lemma WaitsToDue(o: Owner, s: Settings)
    requires Accepted(s) && !o.lost && o.now <= o.due <= o.now + s.renew
    ensures WaitUntilDue(o, s) == o.(now := o.due)
  {
    if o.now < o.due {
      assert WaitOnce(o, s) == o.(now := o.due);
      assert WaitUntilDue(WaitOnce(o, s), s) == WaitOnce(o, s);
    }
  }

  /** So the row runs out under an owner that still takes it for its own. */
  lemma SlowRenewalRunsOut(l: Lease, start: Time, s: Settings)
    requires Accepted(s) && s.cadence <= s.renew
    ensures var n := RunRounds(Acquired(l, start, s), s, Instants(s.ttl + 1));
      !n.lost && n.extensions == [start] && n.now >= start + s.ttl
  {
    hide RunRounds;
    NeverExtends(Acquired(l, start, s), s, s.ttl + 1);
    AtLeast(s.ttl, s.cadence);
  }

  lemma AtLeast(k: int, n: int)
    requires k >= 0 && n >= 1
    ensures (k + 1) * n - n >= k
  {}

  // ---- whether a rival can take the lease

  /** Legal rounds in which no attempt reports a lost lease. */
  predicate Quiet(s: Settings, rounds: seq<Round>) {
    forall r | r in rounds :: Legal(s, r) && !r.reportsLost
  }

  /** The row from the owner's k-th extension on. */
  function RowAt(n: Owner, start: Time, s: Settings, k: nat): LeaseRow
    requires k < |n.extensions|
  {
    LeaseRow(n.lease, start, n.extensions[k], n.extensions[k] + s.ttl)
  }

  /** Until when that row stands: the next extension, or where the run has got to. */
  function StandsUntil(n: Owner, k: nat): Time
    requires k < |n.extensions|
  {
    if k + 1 < |n.extensions| then n.extensions[k + 1] else n.now
  }

  /** At no instant of the run does the rival's acquisition win. */
  ghost predicate NeverTaken(n: Owner, start: Time, s: Settings, rival: Lease, ttl: int) {
    forall k: nat, now: Time | k < |n.extensions| && n.extensions[k] <= now <= StandsUntil(n, k) ::
      Acquire(Some(RowAt(n, start, s, k)), rival, now, ttl) == Some(RowAt(n, start, s, k))
  }

  lemma AcquireLosesIff(row: LeaseRow, rival: Lease, now: Time, ttl: int)
    requires ValidInput(rival.scope, rival.holder, rival.process, ttl) && rival != row.lease
    ensures Acquire(Some(row), rival, now, ttl) == Some(row) <==> TextLess(now, row.expiresAt)
  {}

  /** An ample lease is never taken, from its acquisition to wherever the run has got to. */
  lemma RivalNeverAcquires(l: Lease, start: Time, s: Settings, rounds: seq<Round>, rival: Lease, ttl: int)
    requires Regular(s) && Ample(l, s) && Quiet(s, rounds)
    ensures var n := RunRounds(Acquired(l, start, s), s, rounds);
      !n.lost && NeverTaken(n, start, s, rival, ttl)
  {
    hide RunRounds, Less, Suffix;
    RunKeeps(Acquired(l, start, s), s, rounds);
  }

  /** The instant at which a renewal is refused is one at which a rival wins. */
  lemma RefusedIsTaken(n: Owner, start: Time, s: Settings, rival: Lease, ttl: int)
    requires ValidFence(n.lease) && ValidInput(n.lease.scope, n.lease.holder, n.lease.process, s.ttl)
    requires ValidInput(rival.scope, rival.holder, rival.process, ttl) && rival != n.lease
    requires n.extensions != [] && Last(n) <= n.now && Holding(n, s) && Refused(n, s)
    ensures !NeverTaken(n, start, s, rival, ttl)
  {
    hide TextLess;
    var k := |n.extensions| - 1;
    AcquireLosesIff(RowAt(n, start, s, k), rival, n.now, ttl);
  }

  lemma RunOutIsTaken(n: Owner, start: Time, s: Settings, rival: Lease, ttl: int)
    requires s.ttl > 0 && ValidInput(rival.scope, rival.holder, rival.process, ttl) && rival != n.lease
    requires n.extensions == [start] && n.now >= start + s.ttl
    ensures !NeverTaken(n, start, s, rival, ttl)
  {
    AcquireLosesIff(RowAt(n, start, s, 0), rival, start + s.ttl, ttl);
    TextOrderIsTimeOrderIff(start + s.ttl, start + s.ttl);
  }

  lemma TakenInSomeRun(l: Lease, s: Settings, rival: Lease, ttl: int) returns (start: Time, rounds: seq<Round>)
    requires Accepted(s) && ValidFence(l) && ValidInput(l.scope, l.holder, l.process, s.ttl)
    requires ValidInput(rival.scope, rival.holder, rival.process, ttl) && rival != l
    requires s.cadence <= s.renew || s.ttl < Worst(s) + SECOND
    ensures Quiet(s, rounds) && !NeverTaken(RunRounds(Acquired(l, start, s), s, rounds), start, s, rival, ttl)
  {
    hide RunRounds, Worst, NeverTaken;
    if s.cadence <= s.renew {
      start, rounds := 0, Instants(s.ttl + 1);
      SlowRenewalRunsOut(l, start, s);
      NeverExtends(Acquired(l, start, s), s, s.ttl + 1);
      RunOutIsTaken(RunRounds(Acquired(l, start, s), s, rounds), start, s, rival, ttl);
    } else {
      start, rounds := LosingStart(s), LosingRounds(s);
      ShortLeaseIsLost(l, s);
      RunKeeps(Acquired(l, start, s), s, rounds);
      RefusedIsTaken(RunRounds(Acquired(l, start, s), s, rounds), start, s, rival, ttl);
    }
  }

  /**
   Of the bounds that settings() accepts, exactly these keep the lease from every rival, at every instant
   of every run from every start: a cadence above the renew interval, and a TTL of at least a second more
   than twice the renew interval and the shorter of renew interval and attempt timeout.
   */
  lemma KeepsLeaseIff(l: Lease, s: Settings, rival: Lease, ttl: int)
    requires Accepted(s) && ValidFence(l) && ValidInput(l.scope, l.holder, l.process, s.ttl)
    requires ValidInput(rival.scope, rival.holder, rival.process, ttl) && rival != l
    ensures (forall start: Time, rounds: seq<Round> | Quiet(s, rounds) ::
               NeverTaken(RunRounds(Acquired(l, start, s), s, rounds), start, s, rival, ttl))
       <==> s.cadence > s.renew && s.ttl >= Worst(s) + SECOND
  {
    hide RunRounds, Worst, Acquired, NeverTaken;
    if s.cadence > s.renew && s.ttl >= Worst(s) + SECOND {
      forall start: Time, rounds: seq<Round> | Quiet(s, rounds)
        ensures NeverTaken(RunRounds(Acquired(l, start, s), s, rounds), start, s, rival, ttl)
      {
        RivalNeverAcquires(l, start, s, rounds, rival, ttl);
      }
    } else {
      var start, rounds := TakenInSomeRun(l, s, rival, ttl);
    }
  }
}
