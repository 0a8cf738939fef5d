/**
 The scope-sync lease: one row per scope names the owner of periodic cache writes
 (internal/store/store.go:1160-1240 and 1276-1296). The guards of acquire and renew compare stored
 text; the guard of a fenced write parses the stored time and compares exactly.
 */
module SyncLease {
  import opened Units
  import opened Wrappers
  import opened TimeText

  const MAX_TTL: int := 300 * SECOND

  /** What an owner holds after acquiring: every fencing field of the row. */
  datatype Lease = Lease(scope: string, holder: string, process: string, token: string)

  datatype LeaseRow = LeaseRow(lease: Lease, acquiredAt: Time, renewedAt: Time, expiresAt: Time)

  predicate ValidInput(scope: string, holder: string, process: string, ttl: int) {
    && !Blank(scope) && |scope| <= 255 && !Blank(holder) && |holder| <= 255
    && !Blank(process) && |process| <= 4096
    && 0 < ttl <= MAX_TTL
  }

  predicate ValidFence(l: Lease) {
    l.scope != "" && l.holder != "" && l.process != "" && l.token != ""
  }

  /** The row after an acquisition attempt with a new token; it changes only when the attempt wins. */
  function Acquire(row: Option<LeaseRow>, l: Lease, now: Time, ttl: int): Option<LeaseRow> {
    if !ValidInput(l.scope, l.holder, l.process, ttl) then row
    else if row.Some? && !TextLessEq(row.value.expiresAt, now) then row
    else Some(LeaseRow(l, now, now, now + ttl))
  }

  /** The update of a renewal matches the row. */
  predicate Renews(row: Option<LeaseRow>, l: Lease, now: Time, ttl: int) {
    && ValidFence(l) && ValidInput(l.scope, l.holder, l.process, ttl)
    && row.Some? && row.value.lease == l && TextLess(now, row.value.expiresAt)
  }

  function Renew(row: Option<LeaseRow>, l: Lease, now: Time, ttl: int): Option<LeaseRow> {
    if Renews(row, l, now, ttl) then Some(row.value.(renewedAt := now, expiresAt := now + ttl)) else row
  }

  function Release(row: Option<LeaseRow>, l: Lease): Option<LeaseRow> {
    if ValidFence(l) && row.Some? && row.value.lease == l then None else row
  }

  /** The table row of one scope, updated by single statements. */
  class ScopeLease {
    var row: Option<LeaseRow>

    constructor ()
      ensures row == None
    {
      row := None;
    }

    /** `lease` carries the token drawn for this attempt; the insert or its guarded update changes one row or none. */
    method AcquireScopeSyncLease(lease: Lease, now: Time, ttl: int) returns (acquired: bool)
      modifies this
      ensures row == Acquire(old(row), lease, now, ttl)
      ensures acquired <==> ValidInput(lease.scope, lease.holder, lease.process, ttl)
                            && (old(row).None? || TextLessEq(old(row).value.expiresAt, now))
      ensures acquired ==>
        && !Blank(lease.scope) && |lease.scope| <= 255 && !Blank(lease.holder) && |lease.holder| <= 255
        && !Blank(lease.process) && |lease.process| <= 4096 && 0 < ttl <= 300 * SECOND
      ensures !acquired ==>
        || Blank(lease.scope) || |lease.scope| > 255 || Blank(lease.holder) || |lease.holder| > 255
        || Blank(lease.process) || |lease.process| > 4096 || ttl <= 0 || ttl > 300 * SECOND
        || (old(row).Some? && TextLess(now, old(row).value.expiresAt))
      ensures row == if acquired then Some(LeaseRow(lease, now, now, now + ttl)) else old(row)
    {
      if !ValidInput(lease.scope, lease.holder, lease.process, ttl) {
        return false;
      }
      if row.Some? && !TextLessEq(row.value.expiresAt, now) {
        return false;
      }
      row := Some(LeaseRow(lease, now, now, now + ttl));
      return true;
    }

    method RenewScopeSyncLease(lease: Lease, now: Time, ttl: int) returns (renewed: bool)
      modifies this
      ensures row == Renew(old(row), lease, now, ttl) && renewed == Renews(old(row), lease, now, ttl)
      ensures renewed <==>
        && old(row).Some? && old(row).value.lease == lease && TextLess(now, old(row).value.expiresAt)
        && !Blank(lease.scope) && |lease.scope| <= 255 && !Blank(lease.holder) && |lease.holder| <= 255
        && !Blank(lease.process) && |lease.process| <= 4096 && lease.token != "" && 0 < ttl <= 300 * SECOND
      ensures row == if renewed then Some(LeaseRow(lease, old(row).value.acquiredAt, now, now + ttl)) else old(row)
    {
      if !ValidFence(lease) || !ValidInput(lease.scope, lease.holder, lease.process, ttl) {
        return false;
      }
      if row.None? || row.value.lease != lease || !TextLess(now, row.value.expiresAt) {
        return false;
      }
      row := Some(row.value.(renewedAt := now, expiresAt := now + ttl));
      return true;
    }

    method ReleaseScopeSyncLease(lease: Lease) returns (released: bool)
      modifies this
      ensures row == Release(old(row), lease)
      ensures released <==> ValidFence(lease) && old(row).Some? && old(row).value.lease == lease
      ensures released <==>
        && lease.scope != "" && lease.holder != "" && lease.process != "" && lease.token != ""
        && old(row).Some? && old(row).value.lease == lease
      ensures row == if released then None else old(row)
    {
      if !ValidFence(lease) || row.None? || row.value.lease != lease {
        return false;
      }
      row := None;
      return true;
    }
  }

  /** leaseCurrentTx: a write fenced by l may commit. */
  predicate Current(row: Option<LeaseRow>, l: Lease, now: Time) {
    ValidFence(l) && row.Some? && row.value.lease == l && row.value.expiresAt > now
  }

  /** What a fence demands of the row: the same four fields, none empty, and an expiry after now. */
  predicate Fenced(row: Option<LeaseRow>, scope: string, holder: string, process: string, token: string, now: Time) {
    && scope != "" && holder != "" && process != "" && token != ""
    && row.Some? && now < row.value.expiresAt
    && row.value.lease.scope == scope && row.value.lease.holder == holder
    && row.value.lease.process == process && row.value.lease.token == token
  }

  /** The two times share a second, and the text of `now` sorts after the text of a later `expires`. */
  ghost predicate Misordered(now: Time, expires: Time) {
    Whole(now) == Whole(expires) && ProperPrefix(FractionOf(now), FractionOf(expires))
  }

  /**
   A live owner does not always win: an acquisition at `now` takes an unexpired lease, and a
   renewal of one is refused, exactly when the text of its expiry sorts before the text of `now`,
   which is within its last second.
   */
  lemma LiveOwnerLosesIffTextMisordered(row: LeaseRow, l: Lease, now: Time, ttl: int)
    requires row.expiresAt > now && l != row.lease
    requires ValidInput(l.scope, l.holder, l.process, ttl)
    requires ValidFence(row.lease) && ValidInput(row.lease.scope, row.lease.holder, row.lease.process, ttl)
    ensures Acquire(Some(row), l, now, ttl) != Some(row) <==> Misordered(now, row.expiresAt)
    ensures Renew(Some(row), row.lease, now, ttl) ==
              Some(if Misordered(now, row.expiresAt) then row
                   else LeaseRow(row.lease, row.acquiredAt, now, now + ttl))
  {
    TextOrderIsTimeOrderIff(now, row.expiresAt);
    TextOrderIsTimeOrderIff(row.expiresAt, now);
  }

  /** Half a second before it expires at 5.5s, a lease is lost to an acquisition at 5s. */
  lemma LiveOwnerCanLose(row: LeaseRow, l: Lease, ttl: int)
    requires row.expiresAt == 5_500_000_000 && l != row.lease
    requires ValidInput(l.scope, l.holder, l.process, ttl)
    ensures Acquire(Some(row), l, 5 * SECOND, ttl) == Some(LeaseRow(l, 5 * SECOND, 5 * SECOND, 5 * SECOND + ttl))
  {
    assert FractionOf(5 * SECOND) == "";
    EmptyFraction(500_000_000, 9) by { assert Pow10(5) == 100_000; }
    TextOrderIsTimeOrderIff(5 * SECOND, row.expiresAt);
  }

  // ---- runs

  datatype Event =
    | AcquireAt(lease: Lease, now: Time, ttl: int)
    | RenewAt(lease: Lease, now: Time, ttl: int)
    | ReleaseOf(lease: Lease)
    | WriteAt(lease: Lease, now: Time)

  /** The row, the tokens in the order they were won, and for each fenced write the token that wrote. */
  datatype State = State(row: Option<LeaseRow>, won: seq<string>, used: set<string>, writes: seq<string>)

  const INIT := State(None, [], {}, [])

  /** Any process, any clock reading; an acquisition draws a token never drawn before. */
  function Next(s: State, e: Event): State {
    match e
    case AcquireAt(l, now, ttl) =>
      if l.token in s.used then s
      else
        var row := Acquire(s.row, l, now, ttl);
        State(row, if row != s.row then s.won + [l.token] else s.won, s.used + {l.token}, s.writes)
    case RenewAt(l, now, ttl) => s.(row := Renew(s.row, l, now, ttl))
    case ReleaseOf(l) => s.(row := Release(s.row, l))
    case WriteAt(l, now) => if Current(s.row, l, now) then s.(writes := s.writes + [l.token]) else s
  }

  function Run(events: seq<Event>): State {
    if events == [] then INIT else Next(Run(events[..|events| - 1]), events[|events| - 1])
  }

  /** Where a token comes in acquisition order. */
  ghost predicate Tenure(s: State, token: string, i: int) {
    0 <= i < |s.won| && s.won[i] == token
  }

  ghost predicate Inv(s: State) {
    && (forall i | 0 <= i < |s.won| :: s.won[i] in s.used)
    && (forall i, j | 0 <= i < j < |s.won| :: s.won[i] != s.won[j])
    && (s.row.Some? ==> |s.won| > 0 && s.row.value.lease.token == s.won[|s.won| - 1])
    && (forall w | 0 <= w < |s.writes| :: s.writes[w] in s.won)
    && (forall v, w, i, j | 0 <= v <= w < |s.writes| && Tenure(s, s.writes[v], i) && Tenure(s, s.writes[w], j) ::
        i <= j)
  }

  lemma NextInv(s: State, e: Event)
    requires Inv(s)
    ensures Inv(Next(s, e))
  {
    var n := Next(s, e);
    assert forall t, i | Tenure(s, t, i) :: Tenure(n, t, i);
    assert forall i, t | Tenure(n, t, i) && i < |s.won| :: Tenure(s, t, i);
    forall v, w, i, j | 0 <= v <= w < |n.writes| && Tenure(n, n.writes[v], i) && Tenure(n, n.writes[w], j)
      ensures i <= j
    {
      if w < |s.writes| {
        assert n.writes[v] == s.writes[v] && n.writes[w] == s.writes[w];
        assert s.writes[v] in s.used && s.writes[w] in s.used;
        assert i < |s.won| && j < |s.won|;
      } else {
        assert n.writes[w] == s.won[|s.won| - 1];
      }
    }
  }

  lemma {:induction false} RunInv(events: seq<Event>)
    ensures Inv(Run(events))
  {
    if events != [] {
      RunInv(events[..|events| - 1]);
      NextInv(Run(events[..|events| - 1]), events[|events| - 1]);
    }
  }

  /** Fenced writes group into tenures, in the order in which the lease was won. */
  lemma WritesFollowAcquisitionOrder(events: seq<Event>, v: nat, w: nat, i: int, j: int)
    requires v <= w < |Run(events).writes|
    requires Tenure(Run(events), Run(events).writes[v], i) && Tenure(Run(events), Run(events).writes[w], j)
    ensures i <= j
  {
    RunInv(events);
  }

  /** Each write belongs to exactly one tenure. */
  lemma WriteHasOneTenure(events: seq<Event>, w: nat)
    requires w < |Run(events).writes|
    ensures exists i :: Tenure(Run(events), Run(events).writes[w], i)
    ensures forall i, j | Tenure(Run(events), Run(events).writes[w], i) && Tenure(Run(events), Run(events).writes[w], j)
              :: i == j
  {
    var s := Run(events);
    RunInv(events);
    var i :| 0 <= i < |s.won| && s.won[i] == s.writes[w];
    assert Tenure(s, s.writes[w], i);
  }

  /** Once superseded, for ever silent: after a later acquisition commits, no write fenced by an earlier token does. */
  lemma {:induction false} SupersededTokenNeverWrites(before: seq<Event>, after: seq<Event>, token: string, i: int)
    requires Tenure(Run(before), token, i) && i < |Run(before).won| - 1
    ensures var s := Run(before + after);
      && Tenure(s, token, i) && i < |s.won| - 1
      && |Run(before).writes| <= |s.writes|
      && (forall w | |Run(before).writes| <= w < |s.writes| :: s.writes[w] != token)
    decreases |after|
  {
    if after == [] {
      assert before + after == before;
    } else {
      var k := |after| - 1;
      SupersededTokenNeverWrites(before, after[..k], token, i);
      assert (before + after)[..|before + after| - 1] == before + after[..k];
      RunInv(before + after[..k]);
      StepKeepsSilence(Run(before + after[..k]), after[k], token, i);
    }
  }

  lemma StepKeepsSilence(s: State, e: Event, token: string, i: int)
    requires Inv(s) && Tenure(s, token, i) && i < |s.won| - 1
    ensures var n := Next(s, e);
      && Tenure(n, token, i) && i < |n.won| - 1
      && (n.writes == s.writes || (|n.writes| == |s.writes| + 1 && n.writes[..|s.writes|] == s.writes
                                   && n.writes[|s.writes|] != token))
  {}

  /** Every fenced write that commits finds exactly its lease in the row, unexpired; no other does. */
  lemma WriteCommitsIffFenced(s: State, l: Lease, now: Time)
    ensures |Next(s, WriteAt(l, now)).writes| ==
              |s.writes| + (if Fenced(s.row, l.scope, l.holder, l.process, l.token, now) then 1 else 0)
  {}
}
