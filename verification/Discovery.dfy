/**
 An authority and a member's cache of its scope, over a network that may delay, repeat and
 reorder snapshot responses (internal/runtime/authority.go:472-522, internal/runtime/client.go:223-271).

 Clock readings, the outcome of record verification, and what else happens to the member's store
 are arguments of the actions. The authority's store caches nothing of its own scope.
 */
module Discovery {
  import opened Units
  import opened Wrappers
  import opened TimeText
  import SyncLease
  import opened DiscoveryTables

  type Content = map<string, PipeRecord>

  /** What a response shows of the authority's rows. */
  function Shown(c: Content): Content {
    map p | p in c && c[p].visibility == Discoverable :: c[p]
  }

  ghost predicate Lists(rs: seq<PipeRecord>, c: Content) {
    && (forall r | r in rs :: r.pipe in c && c[r.pipe] == r)
    && (forall p | p in c :: c[p].pipe == p && c[p] in rs)
  }

  predicate Local(rows: Rows, p: string) {
    p in rows && !rows[p].discovered
  }

  /** The cache a member should hold: the content less what it owns itself and what has expired by text. */
  function Replica(rows: Rows, c: Content, now: Time): Content {
    map p | p in c && !Local(rows, p) && TextLess(now, c[p].expiresAt) :: c[p]
  }

  // ---- what one reconcile does

  ghost predicate Unchanged(rows: Rows, u: Rows, p: string) {
    (p in u <==> p in rows) && (p in u ==> u[p] == rows[p])
  }

  lemma PutDiscoveredEffect(rows: Rows, r: PipeRecord, now: Time, p: string)
    requires Keyed(rows) && PutDiscovered(rows, r, now).Success?
    ensures var u := PutDiscovered(rows, r, now).value;
      && Keyed(u)
      && (p != r.pipe || Local(rows, p) ==> Unchanged(rows, u, p))
      && (p == r.pipe && !Local(rows, p) ==> p in u && u[p] == Row(r, true))
  {}

  lemma {:induction false} PutAllEffect(rows: Rows, rs: seq<PipeRecord>, now: Time, p: string)
    requires Keyed(rows) && NoDuplicates(rs) && PutAll(rows, rs, now).Success?
    ensures var u := PutAll(rows, rs, now).value;
      && Keyed(u)
      && (p !in Pipes(rs) || Local(rows, p) ==> Unchanged(rows, u, p))
      && (forall r | r in rs && r.pipe == p && !Local(rows, p) :: p in u && u[p] == Row(r, true))
  {
    hide PutDiscovered, Keyed;
    if rs != [] {
      var k := |rs| - 1;
      var u := PutAll(rows, rs[..k], now).value;
      assert rs == rs[..k] + [rs[k]];
      PutAllEffect(rows, rs[..k], now, p);
      PutDiscoveredEffect(u, rs[k], now, p);
      assert p == rs[k].pipe ==> p !in Pipes(rs[..k]);
    }
  }

  /** A successful reconcile leaves exactly the replica of its snapshot and touches no local row. */
  lemma ReconcileMakesReplica(t: Tables, s: Snapshot, lease: Option<SyncLease.Lease>, now: Time, c: Content)
    requires Keyed(t.rows) && Reconcile(t, s, lease, now).Success? && Lists(s.records, c)
    ensures var u := Reconcile(t, s, lease, now).value;
      && Keyed(u.rows)
      && Held(u.rows, true) == Replica(t.rows, c, now)
      && Held(u.rows, false) == Held(t.rows, false)
      && u.freshness == Some(Refreshed(s, now))
  {
    hide Held, Replica, SameAt, PutAll, DropExpired, KeepListed, Lists;
    var u := Reconcile(t, s, lease, now).value;
    forall p
      ensures p in u.rows ==> u.rows[p].record.pipe == p
      ensures SameAt(Held(u.rows, true), Replica(t.rows, c, now), p)
      ensures SameAt(Held(u.rows, false), Held(t.rows, false), p)
    {
      ReconcileKey(t, s, lease, now, c, p);
    }
    SameEverywhere(Held(u.rows, true), Replica(t.rows, c, now));
    SameEverywhere(Held(u.rows, false), Held(t.rows, false));
  }

  lemma SameEverywhere(a: Content, b: Content)
    requires forall p :: SameAt(a, b, p)
    ensures a == b
  {
    assert forall p | p in a :: SameAt(a, b, p);
    assert forall p | p in b :: SameAt(a, b, p);
  }

  ghost predicate SameAt(a: Content, b: Content, p: string) {
    (p in a <==> p in b) && (p in a ==> a[p] == b[p])
  }

  lemma ReconcileKey(t: Tables, s: Snapshot, lease: Option<SyncLease.Lease>, now: Time, c: Content, p: string)
    requires Keyed(t.rows) && Reconcile(t, s, lease, now).Success? && Lists(s.records, c)
    ensures var u := Reconcile(t, s, lease, now).value;
      && (p in u.rows ==> u.rows[p].record.pipe == p)
      && SameAt(Held(u.rows, true), Replica(t.rows, c, now), p)
      && SameAt(Held(u.rows, false), Held(t.rows, false), p)
  {
    PutAllEffect(t.rows, s.records, now, p);
    assert p in c ==> c[p] in s.records;
    assert p in Pipes(s.records) <==> p in c;
  }

  // ---- runs

  datatype System = System(
    authority: Tables,
    member: Tables,
    sent: set<Snapshot>,
    history: map<nat, Content>,   // the authority's rows at each generation
    tenure: SyncLease.State       // the member's sync lease, and the tokens it was won with
  )

  const EMPTY := Tables(map[], None, None, None)
  const INIT := System(EMPTY, EMPTY, {}, map[], SyncLease.INIT)

  datatype Action =
    | Initialize
    | Publish(record: PipeRecord, now: Time)
    | Answer(now: Time, listing: seq<PipeRecord>, sendable: bool)
    | Deliver(response: Snapshot, lease: Option<SyncLease.Lease>, now: Time, verified: bool,
              errorClass: string, retry: Option<Time>)
    | MemberPut(record: PipeRecord, now: Time)
    | MemberPrune(now: Time)
    | MemberLease(move: SyncLease.Event)

  function SetAuthority(s: System, t: Tables): System {
    s.(authority := t,
       history := if t.counter.None? || t.counter == s.authority.counter then s.history
                  else s.history[t.counter.value.generation := Held(t.rows, false)])
  }

  function DoInitialize(s: System): System {
    if s.authority.counter.Some? then s
    else SetAuthority(s, s.authority.(counter := Some(Counter(1, 1))))
  }

  function DoPublish(s: System, r: PipeRecord, now: Time): System {
    match PutAuthoritative(s.authority, r, now)
    case Failure(_) => s
    case Success(t) => SetAuthority(s, t)
  }

  /** processSnapshot: the prune commits even when no response can be sent. */
  ghost function DoAnswer(s: System, now: Time, listing: seq<PipeRecord>, sendable: bool): System {
    match SnapshotTx(s.authority, now)
    case Failure(_) => s
    case Success(t) =>
      var n := SetAuthority(s, t);
      if sendable && |t.rows| <= MAX_SNAPSHOT_RECORDS && NoDuplicates(listing)
          && Lists(listing, Shown(Held(t.rows, false)))
      then n.(sent := n.sent + {Snapshot(t.counter.value.generation, t.counter.value.highWater, listing)})
      else n
  }

  /** The receiver: a response that fails verification or reconciliation only marks the refresh as failed. */
  function DoDeliver(m: Tables, r: Snapshot, lease: Option<SyncLease.Lease>, now: Time, verified: bool,
                     errorClass: string, retry: Option<Time>): Tables {
    if verified && Reconcile(m, r, lease, now).Success? then Reconcile(m, r, lease, now).value
    else
      match RecordFailure(m, errorClass, retry, lease, now)
      case Success(t) => t
      case Failure(_) => m
  }

  ghost function Next(s: System, a: Action): System {
    match a
    case Initialize => DoInitialize(s)
    case Publish(r, now) => DoPublish(s, r, now)
    case Answer(now, listing, sendable) => DoAnswer(s, now, listing, sendable)
    case Deliver(r, lease, now, verified, errorClass, retry) =>
      if r in s.sent then s.(member := DoDeliver(s.member, r, lease, now, verified, errorClass, retry)) else s
    case MemberPut(r, now) =>
      (match Put(s.member.rows, r, false, now)
       case Success(rows) => s.(member := s.member.(rows := rows))
       case Failure(_) => s)
    case MemberPrune(now) => s.(member := s.member.(rows := DropExpired(s.member.rows, true, now)))
    case MemberLease(move) =>
      var tenure := SyncLease.Next(s.tenure, move);
      s.(tenure := tenure, member := s.member.(lease := tenure.row))
  }

  ghost predicate IsRun(actions: seq<Action>, tr: seq<System>) {
    && |tr| == |actions| + 1 && tr[0] == INIT
    && forall i {:trigger actions[i]} | 0 <= i < |actions| :: tr[i + 1] == Next(tr[i], actions[i])
  }

  ghost predicate AuthorityInv(s: System) {
    && Keyed(s.authority.rows)
    && (forall p | p in s.authority.rows :: !s.authority.rows[p].discovered)
    && (s.authority.counter.None? ==> s.authority.rows == map[] && s.history == map[])
    && (s.authority.counter.Some? ==>
          var c := s.authority.counter.value;
          && c.generation == c.highWater >= 1
          && c.generation in s.history && s.history[c.generation] == Held(s.authority.rows, false)
          && (forall g | g in s.history :: 1 <= g <= c.generation))
  }

  ghost predicate SentInv(s: System) {
    forall r | r in s.sent ::
      && r.generation in s.history && r.highWater == r.generation
      && NoDuplicates(r.records) && Lists(r.records, Shown(s.history[r.generation]))
  }

  /** The member holds nothing, or records of one generation of the authority. */
  ghost predicate MemberInv(s: System) {
    && Keyed(s.member.rows)
    && (s.member.freshness.None? || s.member.freshness.value.digest.None? ==>
          && Held(s.member.rows, true) == map[]
          && (s.member.freshness.Some? ==>
              s.member.freshness.value.generation == s.member.freshness.value.highWater == 0))
    && (s.member.freshness.Some? && s.member.freshness.value.digest.Some? ==>
          var f := s.member.freshness.value;
          && f.generation in s.history && f.highWater == f.generation
          && var c := Shown(s.history[f.generation]);
             && f.digest.value == c.Values
             && (forall p | p in Held(s.member.rows, true) :: p in c && Held(s.member.rows, true)[p] == c[p]))
  }

  /** The lease row is the one that acquire, renew and release left. */
  ghost predicate TenureInv(s: System) {
    SyncLease.Inv(s.tenure) && s.member.lease == s.tenure.row
  }

  ghost predicate Inv(s: System) {
    AuthorityInv(s) && SentInv(s) && MemberInv(s) && TenureInv(s)
  }

  /** History is never rewritten. */
  ghost predicate Remembers(s: System, n: System) {
    && s.sent <= n.sent
    && (forall g | g in s.history :: g in n.history && n.history[g] == s.history[g])
  }

  function Generation(m: Tables): nat {
    if m.freshness.Some? then m.freshness.value.generation else 0
  }

  lemma SetAuthorityInv(s: System, t: Tables)
    requires AuthorityInv(s)
    requires Keyed(t.rows) && (forall p | p in t.rows :: !t.rows[p].discovered)
    requires t.counter.Some?
    requires t.counter == s.authority.counter ==> t.rows == s.authority.rows
    requires t.counter != s.authority.counter ==> Advance(s.authority.counter) == Success(t.counter.value)
    ensures AuthorityInv(SetAuthority(s, t)) && Remembers(s, SetAuthority(s, t))
  {}

  lemma PublishInv(s: System, r: PipeRecord, now: Time)
    requires AuthorityInv(s)
    ensures AuthorityInv(DoPublish(s, r, now)) && Remembers(s, DoPublish(s, r, now))
  {
    match PutAuthoritative(s.authority, r, now)
    case Failure(_) =>
    case Success(t) => SetAuthorityInv(s, t);
  }

  lemma AnswerInv(s: System, now: Time, listing: seq<PipeRecord>, sendable: bool)
    requires AuthorityInv(s) && SentInv(s)
    ensures var n := DoAnswer(s, now, listing, sendable); AuthorityInv(n) && Remembers(s, n) && SentInv(n)
  {
    match SnapshotTx(s.authority, now)
    case Failure(_) =>
    case Success(t) => SetAuthorityInv(s, t);
  }

  lemma RememberedMember(s: System, n: System)
    requires MemberInv(s) && Remembers(s, n) && n.member == s.member
    ensures MemberInv(n)
  {}

  lemma DigestIsContent(rs: seq<PipeRecord>, c: Content)
    requires Lists(rs, c)
    ensures DigestOf(rs) == c.Values
  {
    forall r | r in c.Values
      ensures r in DigestOf(rs)
    {
      var p :| p in c && c[p] == r;
    }
  }

  lemma DeliverInv(s: System, a: Action)
    requires Inv(s) && a.Deliver? && a.response in s.sent
    ensures MemberInv(Next(s, a))
  {
    if a.verified && Reconcile(s.member, a.response, a.lease, a.now).Success? {
      var c := Shown(s.history[a.response.generation]);
      ReconcileMakesReplica(s.member, a.response, a.lease, a.now, c);
      DigestIsContent(a.response.records, c);
    }
  }

  lemma MemberStepInv(s: System, a: Action)
    requires MemberInv(s) && (a.MemberPut? || a.MemberPrune? || a.MemberLease?)
    ensures MemberInv(Next(s, a))
  {
    var n := Next(s, a);
    assert forall p | p in Held(n.member.rows, true) ::
      p in Held(s.member.rows, true) && Held(n.member.rows, true)[p] == Held(s.member.rows, true)[p];
  }

  lemma NextTenure(s: System, a: Action)
    requires TenureInv(s)
    ensures TenureInv(Next(s, a))
  {
    hide SyncLease.Inv, SyncLease.Next;
    if a.MemberLease? {
      SyncLease.NextInv(s.tenure, a.move);
    }
  }

  lemma NextInv(s: System, a: Action)
    requires Inv(s)
    ensures Inv(Next(s, a)) && Remembers(s, Next(s, a))
  {
    hide TenureInv;
    NextTenure(s, a);
    match a
    case Initialize =>
      if s.authority.counter.None? {
        SetAuthorityInv(s, s.authority.(counter := Some(Counter(1, 1))));
        RememberedMember(s, Next(s, a));
      }
    case Publish(r, now) =>
      PublishInv(s, r, now);
      RememberedMember(s, Next(s, a));
    case Answer(now, listing, sendable) =>
      AnswerInv(s, now, listing, sendable);
      RememberedMember(s, Next(s, a));
    case Deliver(r, _, _, _, _, _) =>
      if r in s.sent {
        DeliverInv(s, a);
      }
    case _ => MemberStepInv(s, a);
  }

  lemma {:induction false} RunInv(actions: seq<Action>, tr: seq<System>, n: nat)
    requires IsRun(actions, tr) && n <= |actions|
    ensures Inv(tr[n])
  {
    hide Inv, Next;
    if n == 0 {
      assert Inv(INIT) by { InitInv(); }
    } else {
      RunInv(actions, tr, n - 1);
      NextInv(tr[n - 1], actions[n - 1]);
    }
  }

  lemma InitInv()
    ensures Inv(INIT)
  {}

  lemma {:induction false} RunRemembers(actions: seq<Action>, tr: seq<System>, m: nat, n: nat)
    requires IsRun(actions, tr) && m <= n <= |actions|
    ensures Remembers(tr[m], tr[n])
  {
    hide Inv, Next;
    if m < n {
      RunRemembers(actions, tr, m, n - 1);
      RunInv(actions, tr, n - 1);
      NextInv(tr[n - 1], actions[n - 1]);
    }
  }

  // ---- main results

  /** The authority's generation determines what a response carries. */
  lemma GenerationDeterminesContent(actions: seq<Action>, tr: seq<System>, n: nat, a: Snapshot, b: Snapshot)
    requires IsRun(actions, tr) && n <= |actions|
    requires a in tr[n].sent && b in tr[n].sent && a.generation == b.generation
    ensures a.highWater == b.highWater && DigestOf(a.records) == DigestOf(b.records)
  {
    hide Next;
    RunInv(actions, tr, n);
    var c := Shown(tr[n].history[a.generation]);
    DigestIsContent(a.records, c);
    DigestIsContent(b.records, c);
  }

  /** So no response of such an authority, however late or often it arrives, is ever ambiguous. */
  lemma NeverAmbiguous(
    actions: seq<Action>, tr: seq<System>, n: nat, r: Snapshot, lease: Option<SyncLease.Lease>, now: Time)
    requires IsRun(actions, tr) && n <= |actions| && r in tr[n].sent
    ensures Reconcile(tr[n].member, r, lease, now) != Failure(Ambiguous)
  {
    hide Next;
    RunInv(actions, tr, n);
    assert tr[n].member.freshness.Some? && tr[n].member.freshness.value.generation == r.generation ==>
      tr[n].member.freshness.value.digest.Some?;
    DigestIsContent(r.records, Shown(tr[n].history[r.generation]));
    ReconcileCommitsIff(tr[n].member, r, lease, now);
  }

  ghost predicate Accepted(s: System, a: Action)
    requires a.Deliver?
  {
    a.verified && Reconcile(s.member, a.response, a.lease, a.now).Success?
  }

  /** What delivering this response did to the member. */
  ghost predicate Delivered(s: System, n: System, a: Action)
    requires a.Deliver?
  {
    var g := a.response.generation;
    if Accepted(s, a) then
      && Generation(s.member) <= Generation(n.member) == g && g in s.history
      && Held(n.member.rows, true) == Replica(s.member.rows, Shown(s.history[g]), a.now)
      && Held(n.member.rows, false) == Held(s.member.rows, false)
      && n.member.freshness.value.complete && n.member.freshness.value.lastSuccess == Some(a.now)
    else
      && n.member.rows == s.member.rows && Generation(n.member) == Generation(s.member)
      && (a.errorClass != "" && FencedBy(s.member.lease, a.lease, a.now) ==>
            && n.member.freshness.Some? && !n.member.freshness.value.complete
            && n.member.freshness.value.errorClass == a.errorClass && n.member.freshness.value.nextRetry == a.retry)
  }

  /**
   The replica. A response that is accepted leaves the member's cached rows equal to the
   discoverable rows the authority held at the response's generation, minus those the member owns
   itself and those already expired by text; one that is rejected changes no record row.
   */
  lemma DeliveryRefreshesReplica(actions: seq<Action>, tr: seq<System>, n: nat)
    requires IsRun(actions, tr) && n < |actions| && actions[n].Deliver? && actions[n].response in tr[n].sent
    ensures Delivered(tr[n], tr[n + 1], actions[n])
  {
    RunInv(actions, tr, n);
    DeliverEffect(tr[n], actions[n]);
  }

  lemma DeliverEffect(s: System, a: Action)
    requires Inv(s) && a.Deliver? && a.response in s.sent
    ensures Delivered(s, Next(s, a), a)
  {
    if Accepted(s, a) {
      ReconcileMakesReplica(s.member, a.response, a.lease, a.now, Shown(s.history[a.response.generation]));
    } else {
      FailureKeepsPosition(s.member, a.errorClass, a.retry, a.lease, a.now);
    }
  }

  /** The store owns this very record, and it is discoverable. */
  predicate Offers(t: Tables, r: PipeRecord) {
    r.pipe in t.rows && t.rows[r.pipe] == Row(r, false) && r.visibility == Discoverable
  }

  /** A response is sent only when it is complete, and it carries the authority's current generation. */
  lemma AnswerIsComplete(s: System, a: Action, r: Snapshot)
    requires r in Next(s, a).sent && r !in s.sent
    ensures a.Answer? && a.sendable && |Next(s, a).authority.rows| <= 256
    ensures Next(s, a).authority.counter == Some(Counter(r.generation, r.highWater))
    ensures forall x :: x in r.records <==> Offers(Next(s, a).authority, x)
  {
    hide PutAuthoritative, DoDeliver, Put;
    var t := SnapshotTx(s.authority, a.now).value;
    var c := Shown(Held(t.rows, false));
    assert Lists(r.records, c);
    forall x
      ensures x in r.records <==> Offers(t, x)
    {
      assert Offers(t, x) ==> x.pipe in c && c[x.pipe] == x;
    }
  }

  lemma NextGeneration(s: System, a: Action)
    ensures Generation(s.member) <= Generation(Next(s, a).member)
  {}

  /** Over any run with delayed, repeated or reordered responses the member's generation never goes back. */
  lemma {:induction false} GenerationNeverGoesBack(actions: seq<Action>, tr: seq<System>, m: nat, n: nat)
    requires IsRun(actions, tr) && m <= n <= |actions|
    ensures Generation(tr[m].member) <= Generation(tr[n].member)
  {
    hide Next, Generation;
    if m < n {
      GenerationNeverGoesBack(actions, tr, m, n - 1);
      NextGeneration(tr[n - 1], actions[n - 1]);
    }
  }

  /**
   At every moment the member's whole cache comes from one generation, and the history is true:
   what it records for a generation is what the authority's rows were while it was current.
   */
  lemma CacheIsOneGeneration(actions: seq<Action>, tr: seq<System>, m: nat, n: nat, p: string)
    requires IsRun(actions, tr) && m <= n <= |actions|
    ensures p in Held(tr[n].member.rows, true) ==>
      var g := Generation(tr[n].member);
      && g in tr[n].history && p in Shown(tr[n].history[g])
      && Held(tr[n].member.rows, true)[p] == Shown(tr[n].history[g])[p]
      && p in tr[n].history[g] && Held(tr[n].member.rows, true)[p] == tr[n].history[g][p]
      && tr[n].history[g][p].visibility == Discoverable
    ensures tr[m].authority.counter.Some? ==>
      var g := tr[m].authority.counter.value.generation;
      g in tr[n].history && tr[n].history[g] == Held(tr[m].authority.rows, false)
  {
    hide Next;
    RunInv(actions, tr, n);
    RunInv(actions, tr, m);
    RunRemembers(actions, tr, m, n);
  }

  // ---- the fence of the sync owner

  lemma DeliveryFenced(m: Tables, a: Action)
    requires a.Deliver? && a.lease.Some?
    requires DoDeliver(m, a.response, a.lease, a.now, a.verified, a.errorClass, a.retry) != m
    ensures var l := a.lease.value;
      && m.lease.Some? && m.lease.value.lease == l && a.now < m.lease.value.expiresAt
      && l.scope != "" && l.holder != "" && l.process != "" && l.token != ""
  {
    hide Reconcile, RecordFailure, ValidSnapshot, Older, Contradicts, NoReplay;
    ReconcileCommitsIff(m, a.response, a.lease, a.now);
    FailureKeepsPosition(m, a.errorClass, a.retry, a.lease, a.now);
  }

  /** In every run, a fenced delivery that changes the member is the one of the token won last, before it expires. */
  lemma FencedDeliveryIsTheOwners(actions: seq<Action>, tr: seq<System>, n: nat)
    requires IsRun(actions, tr) && n < |actions| && actions[n].Deliver? && actions[n].lease.Some?
    requires tr[n + 1].member != tr[n].member
    ensures var won, row := tr[n].tenure.won, tr[n].tenure.row;
      && row.Some? && row.value.lease == actions[n].lease.value && actions[n].now < row.value.expiresAt
      && |won| > 0 && won[|won| - 1] == actions[n].lease.value.token
  {
    hide DoDeliver;
    RunTenure(actions, tr, n);
    DeliveryFenced(tr[n].member, actions[n]);
  }

  lemma RunTenure(actions: seq<Action>, tr: seq<System>, n: nat)
    requires IsRun(actions, tr) && n <= |actions|
    ensures TenureInv(tr[n])
  {
    hide Next;
    RunInv(actions, tr, n);
  }

  lemma OnlyMovesTenure(s: System, a: Action)
    ensures Next(s, a).tenure == if a.MemberLease? then SyncLease.Next(s.tenure, a.move) else s.tenure
  {}

  lemma {:induction false} StaysSuperseded(actions: seq<Action>, tr: seq<System>, m: nat, n: nat, token: string, i: int)
    requires IsRun(actions, tr) && m <= n <= |actions|
    requires SyncLease.Tenure(tr[m].tenure, token, i) && i < |tr[m].tenure.won| - 1
    ensures SyncLease.Tenure(tr[n].tenure, token, i) && i < |tr[n].tenure.won| - 1
  {
    hide Next, SyncLease.Next;
    if m < n {
      StaysSuperseded(actions, tr, m, n - 1, token, i);
      RunTenure(actions, tr, n - 1);
      OnlyMovesTenure(tr[n - 1], actions[n - 1]);
      if actions[n - 1].MemberLease? {
        SyncLease.StepKeepsSilence(tr[n - 1].tenure, actions[n - 1].move, token, i);
      }
    }
  }

  /** Once another process has acquired the lease, no delivery fenced by the earlier token changes the member. */
  lemma SupersededDeliveryChangesNothing(
    actions: seq<Action>, tr: seq<System>, m: nat, n: nat, token: string, i: int)
    requires IsRun(actions, tr) && m <= n < |actions|
    requires SyncLease.Tenure(tr[m].tenure, token, i) && i < |tr[m].tenure.won| - 1
    requires actions[n].Deliver? && actions[n].lease.Some? && actions[n].lease.value.token == token
    ensures tr[n + 1].member == tr[n].member
  {
    hide Next, Inv;
    StaysSuperseded(actions, tr, m, n, token, i);
    RunTenure(actions, tr, n);
    if tr[n + 1].member != tr[n].member {
      FencedDeliveryIsTheOwners(actions, tr, n);
    }
  }

  // ---- a store that caches its own scope

  predicate Caches(t: Tables, r: PipeRecord) {
    r.pipe in t.rows && t.rows[r.pipe] == Row(r, true)
  }

  /**
   Publishing a record always advances the generation. The next snapshot, taken before the record expires,
   lists it exactly when the record is discoverable and the store did not already cache that very record:
   a cached copy keeps its flag.
   */
  lemma PublishedUnlessCached(t: Tables, r: PipeRecord, now: Time, later: Time, listing: seq<PipeRecord>)
    requires Keyed(t.rows) && PutAuthoritative(t, r, now).Success?
    requires SnapshotTx(PutAuthoritative(t, r, now).value, later).Success? && TextLess(later, r.expiresAt)
    requires Lists(listing, Shown(Held(SnapshotTx(PutAuthoritative(t, r, now).value, later).value.rows, false)))
    ensures Advance(t.counter) == Success(PutAuthoritative(t, r, now).value.counter.value)
    ensures r in listing <==> r.visibility == Discoverable && !Caches(t, r)
  {
    hide TextLess;
    var v := PutAuthoritative(t, r, now).value;
    var w := SnapshotTx(v, later).value;
    assert r.pipe in v.rows && (Caches(t, r) || v.rows[r.pipe] == Row(r, false));
    assert r.pipe in w.rows && w.rows[r.pipe] == v.rows[r.pipe];
    var c := Shown(Held(w.rows, false));
    assert r.pipe in c ==> c[r.pipe] in listing;
  }

  lemma ReconcileCaches(t: Tables, s: Snapshot, lease: Option<SyncLease.Lease>, now: Time, r: PipeRecord)
    requires Keyed(t.rows) && Reconcile(t, s, lease, now).Success? && r in s.records && !Local(t.rows, r.pipe)
    requires TextLess(now, r.expiresAt)
    ensures Keyed(Reconcile(t, s, lease, now).value.rows) && Caches(Reconcile(t, s, lease, now).value, r)
  {
    hide TextLess, PutAll;
    var u := Reconcile(t, s, lease, now).value;
    var c := map x | x in s.records :: x.pipe := x;
    assert Lists(s.records, c);
    ReconcileMakesReplica(t, s, lease, now, c);
    assert r.pipe in Held(u.rows, true) && Held(u.rows, true)[r.pipe] == r;
  }

  /**
   So a record that was reconciled into the store and is then published there is in no snapshot, though
   the generation is a new one.
   */
  lemma CachedThenPublishedIsMissing(
    t: Tables, s: Snapshot, lease: Option<SyncLease.Lease>, now: Time, r: PipeRecord, at: Time, later: Time,
    listing: seq<PipeRecord>)
    requires Keyed(t.rows) && Reconcile(t, s, lease, now).Success? && r in s.records && !Local(t.rows, r.pipe)
    requires TextLess(now, r.expiresAt) && TextLess(later, r.expiresAt)
    requires var u := Reconcile(t, s, lease, now).value;
      && PutAuthoritative(u, r, at).Success? && SnapshotTx(PutAuthoritative(u, r, at).value, later).Success?
      && Lists(listing, Shown(Held(SnapshotTx(PutAuthoritative(u, r, at).value, later).value.rows, false)))
    ensures r !in listing
    ensures var u := Reconcile(t, s, lease, now).value;
      Advance(u.counter) == Success(PutAuthoritative(u, r, at).value.counter.value)
  {
    hide TextLess, Reconcile, PutAuthoritative, SnapshotTx, Lists, Shown, Held, Keyed, Caches;
    ReconcileCaches(t, s, lease, now, r);
    PublishedUnlessCached(Reconcile(t, s, lease, now).value, r, at, later, listing);
  }

  const RECORD := PipeRecord("p", "n", 10 * SECOND, 1, Discoverable, "b")

  /** One such store: it reconciles this record, publishes it, and answers with an empty listing. */
  lemma CachedThenPublishedHappens()
    ensures var s := Snapshot(1, 1, [RECORD]);
      && Reconcile(EMPTY, s, None, SECOND).Success?
      && var u := Reconcile(EMPTY, s, None, SECOND).value;
         && PutAuthoritative(u, RECORD, SECOND).Success?
         && SnapshotTx(PutAuthoritative(u, RECORD, SECOND).value, SECOND).Success?
         && Lists([], Shown(Held(SnapshotTx(PutAuthoritative(u, RECORD, SECOND).value, SECOND).value.rows, false)))
  {
    hide Less, Suffix;
    assert !IsSpace(RECORD.pipe[0]);
    var s := Snapshot(1, 1, [RECORD]);
    assert s.records[..0] == [] && s.records[1..] == [];
    assert PutAll(map[], [], SECOND) == Success(map[]);
    assert PutAll(map[], s.records, SECOND) == Success(map["p" := Row(RECORD, true)]);
    assert FirstInvalid(s.records, SECOND) == None;
    var u := Reconcile(EMPTY, s, None, SECOND).value;
    assert u.rows == map["p" := Row(RECORD, true)];
  }
}
