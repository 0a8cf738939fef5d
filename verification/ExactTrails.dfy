/**
 Where access comes from: in every run of the exact-access protocol, each open, each redemption and each
 lease has behind it the actions that checked it, in order, with what each check saw in the state it ran in
 (internal/runtime/exact_authorizer.go, internal/exactauthority/redeem.go and renew.go).
 */
module ExactTrails {
  import opened Units
  import opened Wrappers
  import opened Credentials
  import opened ExactTables
  import opened ExactAccess

  // ---- what each action saw

  /** A credential's times hold at the clock the action read: its own time, or the wall clock for a zero one. */
  predicate InWindow(issuedAt: Time, notBefore: Time, expiresAt: Time, now: Time, wall: Time) {
    var at := if now == 0 then wall else now;
    && issuedAt <= at + 30 * SECOND && notBefore <= at + 30 * SECOND && at < expiresAt
    && 0 < expiresAt - issuedAt <= 600 * SECOND && issuedAt != 0 && notBefore != 0
  }

  /** The owner of this Pipe signed a binding of the Pipe to its authority key, and the key file exists. */
  predicate OwnerBound(s: State, pipe: string, b: OwnerBinding) {
    && pipe in s.world && pipe in s.provisioned
    && b.version == 1 && b.kind == "exact.owner.binding"
    && b.pipe == pipe == PipeIdFromOwner(b.owner) && b.authorityKey == s.world[pipe].authority != b.owner
    && CanonicalPublic(b.owner) && CanonicalPublic(b.authorityKey)
    && (b.owner, BindingBody(b)) in s.signed
  }

  /** The client proved its key for this Pipe and presented its own unexpired lease, signed by the Pipe's authority. */
  predicate ProvedOpen(s: State, a: Action, t: nat, pipe: string, lease: AccessLease, client: string) {
    && a.OpenVerify? && a.t == t && a.pipe == pipe && a.lease == lease && a.client == client
    && (client, Proof("tubo-open-v2", [a.challenge, pipe])) in s.signed && CanonicalPublic(client) && Nonce(a.challenge)
    && pipe in s.world && pipe in s.provisioned && (s.world[pipe].authority, LeaseBody(lease)) in s.signed
    && lease.version == 1 && lease.kind == "pipe.open.access" && lease.issuer == s.world[pipe].authority
    && lease.subject == client && lease.pipe == pipe && "jti_" <= lease.jti && |lease.jti| <= 4096
    && InWindow(lease.issuedAt, lease.notBefore, lease.expiresAt, a.now, a.wall)
  }

  /** The recipient proved its key for this invite: one-time, unexpired, the authority's, bound by the owner. */
  predicate ProvedRedeem(s: State, a: Action, t: nat, invite: ExactInvite, recipient: string, now: Time, ttl: Duration)
  {
    && a.RedeemVerify? && a.t == t && a.invite == invite && a.recipient == recipient && a.now == now && a.ttl == ttl
    && (recipient, Proof("tubo-exact-redeem-v2", [invite.jti, invite.pipe, a.challenge])) in s.signed
    && CanonicalPublic(recipient) && Challenge(a.challenge)
    && invite.binding.Some? && OwnerBound(s, invite.pipe, invite.binding.value)
    && (s.world[invite.pipe].authority, InviteBody(invite)) in s.signed && invite.oneTime
    && invite.version == 1 && invite.kind == "pipe.open.invite" && invite.issuer == s.world[invite.pipe].authority
    && "jti_" <= invite.jti && |invite.jti| <= 4096
    && InWindow(invite.issuedAt, invite.notBefore, invite.expiresAt, a.now, a.wall)
  }

  /** The recipient holds this relationship with the owner-bound Pipe. */
  predicate FoundRelationship(s: State, a: Action, t: nat, pipe: string, recipient: string, rel: Relationship) {
    && a.RenewLookup? && a.t == t && a.pipe == pipe && a.recipient == recipient
    && OwnerBound(s, pipe, a.binding) && CanonicalPublic(recipient)
    && (pipe, recipient) in s.tables.accepted && s.tables.accepted[(pipe, recipient)] == rel
  }

  predicate SawOpenUnrevoked(s: State, a: Action, t: nat, pipe: string, lease: AccessLease) {
    a == OpenCheckRevoked(t) && Subject(pipe, "access-lease", lease.jti) !in s.tables.revocations
  }

  predicate SawOpenEpoch(s: State, a: Action, t: nat, pipe: string, lease: AccessLease) {
    a == OpenCheckEpoch(t) && Epoch(s.tables, pipe) <= lease.epoch
  }

  predicate SawInviteUnrevoked(s: State, a: Action, t: nat, invite: ExactInvite) {
    a == RedeemCheckRevoked(t) && Subject(invite.pipe, "exact.invite", invite.jti) !in s.tables.revocations
  }

  predicate SawInviteEpoch(s: State, a: Action, t: nat, invite: ExactInvite) {
    a == RedeemCheckEpoch(t) && Epoch(s.tables, invite.pipe) == invite.epoch
  }

  /** The row was free, or already this recipient's. */
  predicate WroteRedemption(s: State, a: Action, t: nat, invite: ExactInvite, recipient: string) {
    && a.RedeemCommit? && a.t == t
    && ((invite.jti, invite.pipe) in s.tables.redemptions ==>
          s.tables.redemptions[(invite.jti, invite.pipe)] == recipient)
  }

  predicate SawSourceUnrevoked(s: State, a: Action, t: nat, pipe: string, rel: Relationship) {
    a == RenewCheckRevoked(t) && Subject(pipe, "exact.invite", rel.jti) !in s.tables.revocations
  }

  predicate SawSourceEpoch(s: State, a: Action, t: nat, pipe: string, rel: Relationship) {
    a == RenewCheckEpoch(t) && Epoch(s.tables, pipe) == rel.epoch
  }

  predicate ReadEpoch(s: State, a: Action, t: nat, pipe: string, epoch: nat) {
    a == ShareRead(t, pipe) && pipe in s.world && Epoch(s.tables, pipe) == epoch
  }

  predicate ReadForRevocation(s: State, a: Action, t: nat, pipe: string, newEpoch: nat) {
    a == RevokeRead(t, pipe) && newEpoch == Epoch(s.tables, pipe) + 1
  }

  /** The invite of a share: one-time, for ten minutes, naming the Pipe's keys. */
  predicate MintedByOwner(s: State, a: Action, t: nat, pipe: string, epoch: nat, i: ExactInvite) {
    && a.ShareMint? && a.t == t && a.jti == i.jti && pipe in s.world
    && i.pipe == pipe && i.epoch == epoch && i.oneTime && i.issuer == s.world[pipe].authority
    && i.issuedAt == i.notBefore == a.now && i.expiresAt == a.now + 600 * SECOND
    && i.binding.Some? && i.binding.value.owner == s.world[pipe].owner && i.binding.value.pipe == pipe
    && i.binding.value.authorityKey == s.world[pipe].authority
  }

  /** The lease of a redemption: the recipient's, at the invite's epoch, ending with its lifetime or the invite. */
  predicate MintedFromInvite(
    a: Action, t: nat, invite: ExactInvite, recipient: string, now: Time, ttl: Duration, l: AccessLease)
  {
    && a == RedeemMint(t, l.jti)
    && l.subject == recipient && l.pipe == invite.pipe && l.epoch == invite.epoch
    && l.issuedAt == l.notBefore == now && l.expiresAt <= now + InForce(ttl)
    && (now != 0 ==> l.expiresAt == (if now + InForce(ttl) <= invite.expiresAt then now + InForce(ttl)
                                     else invite.expiresAt))
  }

  /** The lease of a renewal: the recipient proved its key for this Pipe again. */
  predicate MintedFromRelationship(
    s: State, a: Action, t: nat, pipe: string, recipient: string, rel: Relationship, l: AccessLease)
  {
    && a.RenewMint? && a.t == t && a.jti == l.jti
    && (recipient, Proof("tubo-exact-renew-v2", [pipe, a.challenge])) in s.signed && Challenge(a.challenge)
    && l.subject == recipient && l.pipe == pipe && l.epoch == rel.epoch
    && l.issuedAt == l.notBefore == a.now && l.expiresAt == a.now + InForce(a.ttl)
  }

  // ---- trails: the indexes of a thread's actions so far, in order

  predicate Rising(ix: seq<nat>, n: nat) {
    && (forall k | 0 <= k < |ix| :: ix[k] < n)
    && (forall j, k | 0 <= j < k < |ix| :: ix[j] < ix[k])
  }

  ghost predicate OpenSteps(
    actions: seq<Action>, tr: seq<State>, n: nat, t: nat, pipe: string, lease: AccessLease, client: string,
    ix: seq<nat>)
    requires |tr| == |actions| + 1 && n <= |actions|
  {
    && 0 < |ix| <= 3 && Rising(ix, n)
    && ProvedOpen(tr[ix[0]], actions[ix[0]], t, pipe, lease, client)
    && (|ix| > 1 ==> SawOpenUnrevoked(tr[ix[1]], actions[ix[1]], t, pipe, lease))
    && (|ix| > 2 ==> SawOpenEpoch(tr[ix[2]], actions[ix[2]], t, pipe, lease))
  }

  ghost predicate RedeemSteps(
    actions: seq<Action>, tr: seq<State>, n: nat, t: nat, invite: ExactInvite, recipient: string,
    now: Time, ttl: Duration, ix: seq<nat>)
    requires |tr| == |actions| + 1 && n <= |actions|
  {
    && 0 < |ix| <= 4 && Rising(ix, n)
    && ProvedRedeem(tr[ix[0]], actions[ix[0]], t, invite, recipient, now, ttl)
    && (|ix| > 1 ==> SawInviteUnrevoked(tr[ix[1]], actions[ix[1]], t, invite))
    && (|ix| > 2 ==> SawInviteEpoch(tr[ix[2]], actions[ix[2]], t, invite))
    && (|ix| > 3 ==> WroteRedemption(tr[ix[3]], actions[ix[3]], t, invite, recipient))
  }

  ghost predicate RenewSteps(
    actions: seq<Action>, tr: seq<State>, n: nat, t: nat, pipe: string, recipient: string, rel: Relationship,
    ix: seq<nat>)
    requires |tr| == |actions| + 1 && n <= |actions|
  {
    && 0 < |ix| <= 3 && Rising(ix, n)
    && FoundRelationship(tr[ix[0]], actions[ix[0]], t, pipe, recipient, rel)
    && (|ix| > 1 ==> SawSourceUnrevoked(tr[ix[1]], actions[ix[1]], t, pipe, rel))
    && (|ix| > 2 ==> SawSourceEpoch(tr[ix[2]], actions[ix[2]], t, pipe, rel))
  }

  /** How many of its actions a thread has behind it. */
  function Depth(th: Thread): nat {
    match th
    case Opening(_, _, _, unrevoked) => if unrevoked then 2 else 1
    case Redeeming(_, _, _, _, stage) =>
      (match stage case Verified => 1 case NotRevoked => 2 case EpochMatched(_) => 3 case Committed => 4)
    case Renewing(_, _, _, stage) => (match stage case LookedUp => 1 case Unrevoked => 2 case Current(_) => 3)
    case _ => 1
  }

  /** These are the actions that brought thread t to where it stands. */
  ghost predicate Trail(actions: seq<Action>, tr: seq<State>, n: nat, t: nat, th: Thread, ix: seq<nat>)
    requires |tr| == |actions| + 1 && n <= |actions|
  {
    && |ix| == Depth(th)
    && match th
       case Opening(pipe, lease, client, _) => OpenSteps(actions, tr, n, t, pipe, lease, client, ix)
       case Redeeming(invite, recipient, now, ttl, _) =>
         RedeemSteps(actions, tr, n, t, invite, recipient, now, ttl, ix)
       case Renewing(pipe, recipient, rel, _) => RenewSteps(actions, tr, n, t, pipe, recipient, rel, ix)
       case Sharing(pipe, epoch, _) => ix[0] < n && ReadEpoch(tr[ix[0]], actions[ix[0]], t, pipe, epoch)
       case Revoking(pipe, epoch, _) => ix[0] < n && ReadForRevocation(tr[ix[0]], actions[ix[0]], t, pipe, epoch)
  }

  // ---- one action

  /** What action a, taken in s, checked when it put thread t where `th` says. */
  predicate Arrives(s: State, a: Action, t: nat, th: Thread) {
    match th
    case Opening(pipe, lease, client, unrevoked) =>
      if unrevoked then SawOpenUnrevoked(s, a, t, pipe, lease) else ProvedOpen(s, a, t, pipe, lease, client)
    case Redeeming(invite, recipient, now, ttl, stage) =>
      (match stage
       case Verified => ProvedRedeem(s, a, t, invite, recipient, now, ttl)
       case NotRevoked => SawInviteUnrevoked(s, a, t, invite)
       case EpochMatched(_) => SawInviteEpoch(s, a, t, invite)
       case Committed => WroteRedemption(s, a, t, invite, recipient))
    case Renewing(pipe, recipient, rel, stage) =>
      (match stage
       case LookedUp => FoundRelationship(s, a, t, pipe, recipient, rel)
       case Unrevoked => SawSourceUnrevoked(s, a, t, pipe, rel)
       case Current(_) => SawSourceEpoch(s, a, t, pipe, rel))
    case Sharing(pipe, epoch, _) => ReadEpoch(s, a, t, pipe, epoch)
    case Revoking(pipe, epoch, _) => ReadForRevocation(s, a, t, pipe, epoch)
  }

  /** The same exchange, one action earlier. */
  predicate Precedes(before: Thread, th: Thread) {
    && Depth(before) + 1 == Depth(th)
    && match th
       case Opening(pipe, lease, client, _) =>
         before.Opening? && before.openPipe == pipe && before.lease == lease && before.client == client
       case Redeeming(invite, recipient, now, ttl, _) =>
         && before.Redeeming? && before.invite == invite && before.recipient == recipient
         && before.now == now && before.ttl == ttl
       case Renewing(pipe, recipient, rel, _) =>
         before.Renewing? && before.renewPipe == pipe && before.renewRecipient == recipient && before.rel == rel
       case _ => false
  }

  /** Thread t got where it is by this action, and this action checked what it had to. */
  predicate Moved(s: State, a: Action, t: nat, th: Thread) {
    Arrives(s, a, t, th) && (Depth(th) > 1 ==> t in s.threads && Precedes(s.threads[t], th))
  }

  lemma OpenVerifies(s: State, a: Action)
    requires ValidWorld(s.world) && a.OpenVerify?
    requires Openable(s, a.pipe, a.lease, a.client, a.challenge, a.now, a.wall)
    ensures ProvedOpen(s, a, a.t, a.pipe, a.lease, a.client)
  {}

  lemma RedeemVerifies(s: State, a: Action)
    requires ValidWorld(s.world) && a.RedeemVerify?
    requires Redeemable(s, a.invite, a.recipient, a.challenge, a.now, a.wall)
    ensures ProvedRedeem(s, a, a.t, a.invite, a.recipient, a.now, a.ttl)
  {
    hide CanonicalPublic, Challenge, ValidWorld;
  }

  /** The change puts a thread somewhere. */
  predicate Places(c: Change) {
    c.SetThread? || c.WriteRedemption?
  }

  lemma StartMoves(s: State, a: Action)
    requires ValidWorld(s.world) && (a.RevokeCall? || a.Sign? || a.t !in s.threads)
    ensures var c := StartEffect(s, a); Places(c) ==> Moved(s, a, c.t, c.thread)
  {
    hide Openable, Redeemable, ValidWorld, RevokeTx;
    match a
    case OpenVerify(_, pipe, lease, client, challenge, now, wall) =>
      if Openable(s, pipe, lease, client, challenge, now, wall) {
        OpenVerifies(s, a);
      }
    case RedeemVerify(_, invite, recipient, challenge, now, wall, _) =>
      if Redeemable(s, invite, recipient, challenge, now, wall) {
        RedeemVerifies(s, a);
      }
    case _ =>
  }

  lemma ThreadMoves(s: State, a: Action, t: nat)
    requires !a.RevokeCall? && !a.Sign? && a.t == t && t in s.threads
    ensures var c := ThreadEffect(s, a, t, s.threads[t]); Places(c) ==> Moved(s, a, c.t, c.thread)
  {
    hide NewAccessLease, NewExactInvite, Epoch, Challenge, FreshId;
  }

  lemma EffectMoves(s: State, a: Action)
    requires ValidWorld(s.world)
    ensures var c := Effect(s, a); Places(c) ==> Moved(s, a, c.t, c.thread)
  {
    hide StartEffect, ThreadEffect, ValidWorld, Moved;
    if a.RevokeCall? || a.Sign? || a.t !in s.threads {
      StartMoves(s, a);
    } else {
      ThreadMoves(s, a, a.t);
    }
  }

  lemma PlacedOrStays(s: State, c: Change, t: nat)
    requires t in Applied(s, c).threads
    ensures (t in s.threads && Applied(s, c).threads[t] == s.threads[t])
      || (Places(c) && c.t == t && c.thread == Applied(s, c).threads[t])
  {}

  // ---- every run

  lemma WiderTrail(actions: seq<Action>, tr: seq<State>, n: nat, t: nat, th: Thread, ix: seq<nat>)
    requires |tr| == |actions| + 1 && n < |actions| && Trail(actions, tr, n, t, th, ix)
    ensures Trail(actions, tr, n + 1, t, th, ix)
  {}

  lemma LongerTrail(actions: seq<Action>, tr: seq<State>, n: nat, t: nat, th: Thread, ix: seq<nat>)
    requires |tr| == |actions| + 1 && n < |actions| && Moved(tr[n], actions[n], t, th) && Depth(th) > 1
    requires Trail(actions, tr, n, t, tr[n].threads[t], ix)
    ensures Trail(actions, tr, n + 1, t, th, ix + [n])
  {
    hide ProvedOpen, SawOpenUnrevoked, SawOpenEpoch, ProvedRedeem, SawInviteUnrevoked, SawInviteEpoch, WroteRedemption,
      FoundRelationship, SawSourceUnrevoked, SawSourceEpoch, ReadEpoch, ReadForRevocation;
  }

  lemma FirstTrail(actions: seq<Action>, tr: seq<State>, n: nat, t: nat, th: Thread)
    requires |tr| == |actions| + 1 && n < |actions| && Moved(tr[n], actions[n], t, th) && Depth(th) <= 1
    ensures Trail(actions, tr, n + 1, t, th, [n])
  {
  }

  lemma {:induction false} ThreadTrail(w: World, actions: seq<Action>, tr: seq<State>, n: nat, t: nat)
    returns (ix: seq<nat>)
    requires IsRun(w, actions, tr) && n <= |actions| && t in tr[n].threads
    ensures Trail(actions, tr, n, t, tr[n].threads[t], ix)
    decreases n
  {
    hide Next, Trail, Moved, Inv, Depth;
    var m := n - 1;
    var s, a, th := tr[m], actions[m], tr[n].threads[t];
    assert Follows(actions, tr, m);
    LastStep(w, actions, tr, m, t);
    if t in s.threads && th == s.threads[t] {
      ix := ThreadTrail(w, actions, tr, m, t);
      WiderTrail(actions, tr, m, t, th, ix);
    } else if Depth(th) > 1 {
      MovedOn(s, a, t, th);
      ix := ThreadTrail(w, actions, tr, m, t);
      LongerTrail(actions, tr, m, t, th, ix);
      ix := ix + [m];
    } else {
      FirstTrail(actions, tr, m, t, th);
      ix := [m];
    }
  }

  lemma MovedOn(s: State, a: Action, t: nat, th: Thread)
    requires Moved(s, a, t, th) && Depth(th) > 1
    ensures t in s.threads
  {}

  lemma LastStep(w: World, actions: seq<Action>, tr: seq<State>, m: nat, t: nat)
    requires IsRun(w, actions, tr) && m < |actions| && t in tr[m + 1].threads
    ensures var s, th := tr[m], tr[m + 1].threads[t];
      (t in s.threads && th == s.threads[t]) || Moved(s, actions[m], t, th)
  {
    hide Effect, Applied, Moved, ValidWorld, SignedInv, InviteInv;
    assert Follows(actions, tr, m);
    RunSigned(w, actions, tr, m);
    EffectMoves(tr[m], actions[m]);
    PlacedOrStays(tr[m], Effect(tr[m], actions[m]), t);
  }

  // ---- invites

  /** Only a share's second action mints an invite. */
  lemma InviteMinter(s: State, a: Action)
    requires Effect(s, a).MintInvite?
    ensures a.ShareMint? && a.t in s.threads && s.threads[a.t].Sharing?
    ensures Effect(s, a) == DoShareMint(s, a.t, s.threads[a.t], a.now, a.jti)
  {
    hide NewAccessLease, NewExactInvite, RevokeTx, RedeemTx, Challenge, FreshId, Redeemable, Openable, Loads,
      BindingVerified, CanonicalPublic, IsAuthority, IsOwner, Epoch, IsRevoked;
  }

  lemma NewInvite(s: State, a: Action, jti: string)
    requires jti in Next(s, a).invites && jti !in s.invites
    ensures a.ShareMint? && a.t in s.threads && s.threads[a.t].Sharing?
    ensures var th := s.threads[a.t];
      MintedByOwner(s, a, a.t, th.pipe, th.epoch, Next(s, a).invites[jti].invite)
  {
    hide Effect;
    InviteMinter(s, a);
  }

  /** This invite was minted by a share that had read the Pipe's epoch. */
  ghost predicate SharedInvite(actions: seq<Action>, tr: seq<State>, n: nat, i: ExactInvite)
    requires |tr| == |actions| + 1 && n <= |actions|
  {
    exists t, r, m | 0 <= r < m < n ::
      && ReadEpoch(tr[r], actions[r], t, i.pipe, i.epoch)
      && MintedByOwner(tr[m], actions[m], t, i.pipe, i.epoch, i)
  }

  lemma InviteStays(s: State, a: Action, jti: string)
    requires Inv(s) && jti in s.invites
    ensures jti in Next(s, a).invites && Next(s, a).invites[jti] == s.invites[jti]
  {
    hide Inv, Next;
    NextInv(s, a);
  }

  lemma ShareTrail(w: World, actions: seq<Action>, tr: seq<State>, m: nat, t: nat, i: ExactInvite)
    requires IsRun(w, actions, tr) && m < |actions| && t in tr[m].threads && tr[m].threads[t].Sharing?
    requires var th := tr[m].threads[t]; MintedByOwner(tr[m], actions[m], t, th.pipe, th.epoch, i)
    ensures SharedInvite(actions, tr, m + 1, i)
  {
    hide Next, ReadEpoch;
    var ix := ThreadTrail(w, actions, tr, m, t);
    assert ReadEpoch(tr[ix[0]], actions[ix[0]], t, i.pipe, i.epoch);
    assert MintedByOwner(tr[m], actions[m], t, i.pipe, i.epoch, i);
  }

  /** Every invite of every run: the owner minted it, for ten minutes, at an epoch the same share had read. */
  lemma {:induction false} InviteTrail(w: World, actions: seq<Action>, tr: seq<State>, n: nat, jti: string)
    requires IsRun(w, actions, tr) && n <= |actions| && jti in tr[n].invites
    ensures SharedInvite(actions, tr, n, tr[n].invites[jti].invite)
    decreases n
  {
    hide Next, Inv, ReadEpoch, MintedByOwner;
    var m := n - 1;
    assert Follows(actions, tr, m);
    RunInv(w, actions, tr, m);
    if jti in tr[m].invites {
      InviteTrail(w, actions, tr, m, jti);
      InviteStays(tr[m], actions[m], jti);
    } else {
      NewInvite(tr[m], actions[m], jti);
      ShareTrail(w, actions, tr, m, actions[m].t, tr[n].invites[jti].invite);
    }
  }

  // ---- opens

  /** Only the last action of an open records one. */
  lemma OpenRecorder(s: State, a: Action)
    requires Effect(s, a).RecordOpen?
    ensures a.OpenCheckEpoch? && a.t in s.threads && s.threads[a.t].Opening? && s.threads[a.t].unrevoked
    ensures Effect(s, a) == DoOpenCheckEpoch(s, a.t, s.threads[a.t])
  {
    hide NewAccessLease, NewExactInvite, RevokeTx, RedeemTx, Challenge, FreshId, Redeemable, Openable, Loads,
      BindingVerified, CanonicalPublic, IsAuthority, IsOwner, Epoch, IsRevoked;
  }

  lemma NewOpen(s: State, a: Action, o: Open)
    requires o in Next(s, a).opens && o !in s.opens
    ensures a.OpenCheckEpoch? && a.t in s.threads && s.threads[a.t] == Opening(o.pipe, o.lease, o.client, true)
    ensures SawOpenEpoch(s, a, a.t, o.pipe, o.lease) && o.readAt == |s.past|
  {
    hide Effect, Epoch;
    OpenRecorder(s, a);
  }

  /** Revocations never go away, so what is unrevoked now has never been revoked. */
  lemma NeverRevokedBefore(w: World, actions: seq<Action>, tr: seq<State>, j: nat, subject: Subject)
    requires IsRun(w, actions, tr) && j <= |actions| && subject !in tr[j].tables.revocations
    ensures forall k | 0 <= k <= j :: subject !in tr[k].tables.revocations
  {
    hide Next;
    forall k | 0 <= k <= j
      ensures subject !in tr[k].tables.revocations
    {
      TablesGrow(w, actions, tr, k, j);
    }
  }

  lemma WiderOpen(
    actions: seq<Action>, tr: seq<State>, n: nat, t: nat, pipe: string, lease: AccessLease, client: string,
    ix: seq<nat>)
    requires |tr| == |actions| + 1 && n < |actions| && OpenSteps(actions, tr, n, t, pipe, lease, client, ix)
    ensures OpenSteps(actions, tr, n + 1, t, pipe, lease, client, ix)
  {
    hide ProvedOpen, SawOpenUnrevoked, SawOpenEpoch;
  }

  lemma LastOpenStep(
    actions: seq<Action>, tr: seq<State>, n: nat, t: nat, pipe: string, lease: AccessLease, client: string,
    ix: seq<nat>)
    requires |tr| == |actions| + 1 && n < |actions|
    requires Trail(actions, tr, n, t, Opening(pipe, lease, client, true), ix)
    requires SawOpenEpoch(tr[n], actions[n], t, pipe, lease)
    ensures |ix| == 2 && OpenSteps(actions, tr, n + 1, t, pipe, lease, client, ix + [n])
    ensures Subject(pipe, "access-lease", lease.jti) !in tr[ix[1]].tables.revocations
  {
    hide ProvedOpen, SawOpenEpoch;
  }

  lemma PastLength(w: World, actions: seq<Action>, tr: seq<State>, n: nat)
    requires IsRun(w, actions, tr) && n <= |actions|
    ensures |tr[n].past| == n
  {
    hide Next;
    if n > 0 {
      PastIsHistory(w, actions, tr, n, 0);
    }
  }

  /**
   Every open of every run: an earlier action verified this client's possession proof and this lease for this
   Pipe, a later one saw the lease unrevoked, and the last, at the recorded time, saw an epoch no higher than
   the lease's. So a lease revoked before its check is never opened.
   */
  lemma {:induction false} OpenTrail(w: World, actions: seq<Action>, tr: seq<State>, n: nat, o: Open)
    returns (t: nat, ix: seq<nat>)
    requires IsRun(w, actions, tr) && n <= |actions| && o in tr[n].opens
    ensures |ix| == 3 && OpenSteps(actions, tr, n, t, o.pipe, o.lease, o.client, ix) && ix[2] == o.readAt
    ensures ix[1] < n
    ensures forall k | 0 <= k <= ix[1] :: Subject(o.pipe, "access-lease", o.lease.jti) !in tr[k].tables.revocations
    decreases n
  {
    hide Next, Inv, OpenSteps, Trail, SawOpenEpoch;
    var m := n - 1;
    assert Follows(actions, tr, m);
    if o in tr[m].opens {
      t, ix := OpenTrail(w, actions, tr, m, o);
      WiderOpen(actions, tr, m, t, o.pipe, o.lease, o.client, ix);
    } else {
      NewOpen(tr[m], actions[m], o);
      t := actions[m].t;
      ix := ThreadTrail(w, actions, tr, m, t);
      LastOpenStep(actions, tr, m, t, o.pipe, o.lease, o.client, ix);
      PastLength(w, actions, tr, m);
      TrailIsBefore(actions, tr, m, t, tr[m].threads[t], ix, 1);
      NeverRevokedBefore(w, actions, tr, ix[1], Subject(o.pipe, "access-lease", o.lease.jti));
      ix := ix + [m];
    }
  }

  lemma TrailIsBefore(actions: seq<Action>, tr: seq<State>, n: nat, t: nat, th: Thread, ix: seq<nat>, k: nat)
    requires |tr| == |actions| + 1 && n <= |actions| && Trail(actions, tr, n, t, th, ix) && k < |ix|
    ensures ix[k] < n
  {}

  // ---- redemptions

  /** Only a redemption's commit writes a redemption row or a relationship. */
  lemma RedemptionWriter(s: State, a: Action)
    requires Effect(s, a).WriteRedemption?
    ensures a.RedeemCommit? && a.t in s.threads && s.threads[a.t].Redeeming? && s.threads[a.t].stage.EpochMatched?
    ensures Effect(s, a) == DoRedeemCommit(s, a.t, s.threads[a.t], a.session)
  {
    hide NewAccessLease, NewExactInvite, RevokeTx, RedeemTx, Challenge, FreshId, Redeemable, Openable, Loads,
      BindingVerified, CanonicalPublic, IsAuthority, IsOwner, Epoch, IsRevoked;
  }

  lemma RevocationKeepsRows(s: State, a: Action)
    requires Effect(s, a).WriteRevocation?
    ensures var t := Effect(s, a).tables;
      t.redemptions == s.tables.redemptions && t.accepted == s.tables.accepted
  {
    hide NewAccessLease, NewExactInvite, RedeemTx, Challenge, FreshId, Redeemable, Openable, Loads,
      BindingVerified, CanonicalPublic, IsAuthority, IsOwner, Epoch, IsRevoked;
  }

  lemma RowsChange(s: State, a: Action)
    requires Next(s, a).tables.redemptions != s.tables.redemptions || Next(s, a).tables.accepted != s.tables.accepted
    ensures Effect(s, a).WriteRedemption?
  {
    hide Effect;
    if Effect(s, a).WriteRevocation? {
      RevocationKeepsRows(s, a);
    }
  }

  /** What the commit wrote: the recipient's row and, the first time, the relationship. */
  lemma NewRows(s: State, a: Action)
    requires Next(s, a).tables.redemptions != s.tables.redemptions || Next(s, a).tables.accepted != s.tables.accepted
    ensures a.RedeemCommit? && a.t in s.threads && s.threads[a.t].Redeeming? && s.threads[a.t].stage.EpochMatched?
    ensures var th, n := s.threads[a.t], Next(s, a).tables;
      && n.redemptions == s.tables.redemptions[(th.invite.jti, th.invite.pipe) := th.recipient]
      && n.accepted == s.tables.accepted[(th.invite.pipe, th.recipient) := Relationship(th.invite.jti, th.invite.epoch)]
      && WroteRedemption(s, a, a.t, th.invite, th.recipient)
  {
    hide Effect, Blank;
    RowsChange(s, a);
    RedemptionWriter(s, a);
  }

  lemma WiderRedeem(
    actions: seq<Action>, tr: seq<State>, n: nat, t: nat, invite: ExactInvite, recipient: string,
    now: Time, ttl: Duration, ix: seq<nat>)
    requires |tr| == |actions| + 1 && n < |actions|
    requires RedeemSteps(actions, tr, n, t, invite, recipient, now, ttl, ix)
    ensures RedeemSteps(actions, tr, n + 1, t, invite, recipient, now, ttl, ix)
  {
    hide ProvedRedeem, SawInviteUnrevoked, SawInviteEpoch, WroteRedemption;
  }

  lemma CommitStep(actions: seq<Action>, tr: seq<State>, n: nat, t: nat, th: Thread, ix: seq<nat>)
    requires |tr| == |actions| + 1 && n < |actions|
    requires th.Redeeming? && th.stage.EpochMatched? && Trail(actions, tr, n, t, th, ix)
    requires WroteRedemption(tr[n], actions[n], t, th.invite, th.recipient)
    ensures |ix| == 3 && RedeemSteps(actions, tr, n + 1, t, th.invite, th.recipient, th.now, th.ttl, ix + [n])
  {
    hide ProvedRedeem, WroteRedemption;
  }

  /** The redemption trail: all four checks, on an invite unrevoked until its check. */
  ghost predicate Redeemed(
    actions: seq<Action>, tr: seq<State>, n: nat, t: nat, invite: ExactInvite, recipient: string,
    now: Time, ttl: Duration, ix: seq<nat>)
    requires |tr| == |actions| + 1 && n <= |actions|
  {
    && |ix| == 4 && RedeemSteps(actions, tr, n, t, invite, recipient, now, ttl, ix)
    && forall k | 0 <= k <= ix[1] :: Subject(invite.pipe, "exact.invite", invite.jti) !in tr[k].tables.revocations
  }

  lemma RedeemUnrevoked(
    w: World, actions: seq<Action>, tr: seq<State>, n: nat, t: nat, invite: ExactInvite, recipient: string,
    now: Time, ttl: Duration, ix: seq<nat>)
    requires IsRun(w, actions, tr) && n <= |actions|
    requires |ix| == 4 && RedeemSteps(actions, tr, n, t, invite, recipient, now, ttl, ix)
    ensures Redeemed(actions, tr, n, t, invite, recipient, now, ttl, ix)
  {
    hide Next, Follows, ProvedRedeem, SawInviteEpoch, WroteRedemption;
    NeverRevokedBefore(w, actions, tr, ix[1], Subject(invite.pipe, "exact.invite", invite.jti));
  }

  lemma CommitTrail(w: World, actions: seq<Action>, tr: seq<State>, m: nat, t: nat) returns (ix: seq<nat>)
    requires IsRun(w, actions, tr) && m < |actions|
    requires t in tr[m].threads && tr[m].threads[t].Redeeming? && tr[m].threads[t].stage.EpochMatched?
    requires var th := tr[m].threads[t]; WroteRedemption(tr[m], actions[m], t, th.invite, th.recipient)
    ensures var th := tr[m].threads[t];
      Redeemed(actions, tr, m + 1, t, th.invite, th.recipient, th.now, th.ttl, ix)
  {
    hide Next, Inv, Redeemed, RedeemSteps, Trail, WroteRedemption;
    var th := tr[m].threads[t];
    ix := ThreadTrail(w, actions, tr, m, t);
    CommitStep(actions, tr, m, t, th, ix);
    ix := ix + [m];
    RedeemUnrevoked(w, actions, tr, m + 1, t, th.invite, th.recipient, th.now, th.ttl, ix);
  }

  lemma RedeemedLater(
    actions: seq<Action>, tr: seq<State>, n: nat, t: nat, invite: ExactInvite, recipient: string,
    now: Time, ttl: Duration, ix: seq<nat>)
    requires |tr| == |actions| + 1 && n < |actions|
    requires Redeemed(actions, tr, n, t, invite, recipient, now, ttl, ix)
    ensures Redeemed(actions, tr, n + 1, t, invite, recipient, now, ttl, ix)
  {
    hide RedeemSteps;
    WiderRedeem(actions, tr, n, t, invite, recipient, now, ttl, ix);
  }

  /** Which redemption: its verifying action names the invite, the recipient and the lifetime. */
  ghost predicate RedeemedBy(
    actions: seq<Action>, tr: seq<State>, n: nat, jti: string, pipe: string, recipient: string, epoch: Option<nat>)
    requires |tr| == |actions| + 1 && n <= |actions|
  {
    exists t, invite: ExactInvite, now, ttl, ix ::
      && Redeemed(actions, tr, n, t, invite, recipient, now, ttl, ix)
      && invite.jti == jti && invite.pipe == pipe && (epoch.Some? ==> invite.epoch == epoch.value)
  }

  lemma RedeemedByLater(
    actions: seq<Action>, tr: seq<State>, n: nat, jti: string, pipe: string, recipient: string, epoch: Option<nat>)
    requires |tr| == |actions| + 1 && n < |actions| && RedeemedBy(actions, tr, n, jti, pipe, recipient, epoch)
    ensures RedeemedBy(actions, tr, n + 1, jti, pipe, recipient, epoch)
  {
    hide Redeemed;
    var t, invite: ExactInvite, now, ttl, ix :|
      && Redeemed(actions, tr, n, t, invite, recipient, now, ttl, ix)
      && invite.jti == jti && invite.pipe == pipe && (epoch.Some? ==> invite.epoch == epoch.value);
    RedeemedLater(actions, tr, n, t, invite, recipient, now, ttl, ix);
  }

  lemma CommitRedeems(w: World, actions: seq<Action>, tr: seq<State>, m: nat, t: nat)
    requires IsRun(w, actions, tr) && m < |actions|
    requires t in tr[m].threads && tr[m].threads[t].Redeeming? && tr[m].threads[t].stage.EpochMatched?
    requires var th := tr[m].threads[t]; WroteRedemption(tr[m], actions[m], t, th.invite, th.recipient)
    ensures var th := tr[m].threads[t];
      && RedeemedBy(actions, tr, m + 1, th.invite.jti, th.invite.pipe, th.recipient, None)
      && RedeemedBy(actions, tr, m + 1, th.invite.jti, th.invite.pipe, th.recipient, Some(th.invite.epoch))
  {
    hide Next, Redeemed, WroteRedemption;
    var ix := CommitTrail(w, actions, tr, m, t);
  }

  /**
   Every redemption row of every run: the recipient it names proved its key for this very invite, which was
   then the authority's, owner-bound, unexpired, unrevoked and of the current epoch.
   */
  lemma {:induction false} RedemptionTrail(
    w: World, actions: seq<Action>, tr: seq<State>, n: nat, jti: string, pipe: string)
    requires IsRun(w, actions, tr) && n <= |actions| && (jti, pipe) in tr[n].tables.redemptions
    ensures RedeemedBy(actions, tr, n, jti, pipe, tr[n].tables.redemptions[(jti, pipe)], None)
    decreases n
  {
    hide Next, Inv, RedeemedBy, WroteRedemption;
    var m := n - 1;
    assert Follows(actions, tr, m);
    if (jti, pipe) in tr[m].tables.redemptions {
      RedemptionTrail(w, actions, tr, m, jti, pipe);
      RedeemedByLater(actions, tr, m, jti, pipe, tr[m].tables.redemptions[(jti, pipe)], None);
      TablesGrow(w, actions, tr, m, n);
    } else {
      NewRows(tr[m], actions[m]);
      CommitRedeems(w, actions, tr, m, actions[m].t);
    }
  }

  /** Every accepted relationship of every run: its recipient redeemed its invite, whose epoch it carries. */
  lemma {:induction false} AcceptanceTrail(
    w: World, actions: seq<Action>, tr: seq<State>, n: nat, pipe: string, recipient: string)
    requires IsRun(w, actions, tr) && n <= |actions| && (pipe, recipient) in tr[n].tables.accepted
    ensures var rel := tr[n].tables.accepted[(pipe, recipient)];
      RedeemedBy(actions, tr, n, rel.jti, pipe, recipient, Some(rel.epoch))
    decreases n
  {
    hide Next, Inv, RedeemedBy, WroteRedemption;
    var m, key := n - 1, (pipe, recipient);
    assert Follows(actions, tr, m);
    var rel := tr[n].tables.accepted[key];
    if key in tr[m].tables.accepted && tr[m].tables.accepted[key] == rel {
      AcceptanceTrail(w, actions, tr, m, pipe, recipient);
      RedeemedByLater(actions, tr, m, rel.jti, pipe, recipient, Some(rel.epoch));
    } else {
      NewRows(tr[m], actions[m]);
      CommitRedeems(w, actions, tr, m, actions[m].t);
    }
  }

  // ---- leases

  /** What redemption minted from where the thread stood. */
  predicate MintedWith(th: Thread, e: LeaseEntry) {
    && th.Redeeming? && e.source == th.invite.jti
    && e.lease.subject == th.recipient && e.lease.pipe == th.invite.pipe && e.lease.epoch == th.invite.epoch
    && e.lease.issuedAt == e.lease.notBefore == th.now
    && e.lease.expiresAt == th.now + RedemptionLifetime(th.ttl, th.invite.expiresAt, th.now)
  }

  /** Only the last action of a redemption or of a renewal mints a lease. */
  lemma LeaseMinter(s: State, a: Action)
    requires Effect(s, a).MintLease?
    ensures (a.RedeemMint? || a.RenewMint?) && a.t in s.threads
    ensures a.RedeemMint? ==> && s.threads[a.t].Redeeming? && s.threads[a.t].stage.Committed?
                              && Effect(s, a) == DoRedeemMint(s, a.t, s.threads[a.t], a.jti)
    ensures a.RenewMint? ==>
      && s.threads[a.t].Renewing? && s.threads[a.t].renewStage.Current?
      && Effect(s, a) == DoRenewMint(s, a.t, s.threads[a.t], a.challenge, a.now, a.ttl, a.jti)
  {
    hide NewAccessLease, NewExactInvite, RevokeTx, RedeemTx, Challenge, FreshId, Redeemable, Openable, Loads,
      BindingVerified, CanonicalPublic, IsAuthority, IsOwner, Epoch, IsRevoked;
  }

  lemma NewLease(s: State, a: Action, jti: string)
    requires jti in Next(s, a).leases && jti !in s.leases
    ensures (a.RedeemMint? || a.RenewMint?) && a.t in s.threads
    ensures a.RedeemMint? ==> s.threads[a.t].Redeeming? && s.threads[a.t].stage.Committed?
    ensures a.RenewMint? ==> s.threads[a.t].Renewing? && s.threads[a.t].renewStage.Current?
    ensures var e, th := Next(s, a).leases[jti], s.threads[a.t];
      && a.jti == jti == e.lease.jti
      && (a.RedeemMint? ==> MintedWith(th, e))
      && (a.RenewMint? ==> && MintedFromRelationship(s, a, a.t, th.renewPipe, th.renewRecipient, th.rel, e.lease)
                           && e.source == th.rel.jti)
  {
    hide Effect, Challenge, CanonicalPublic, RedemptionLifetime;
    LeaseMinter(s, a);
  }

  lemma RedemptionExpiry(invite: ExactInvite, now: Time, wall: Time, ttl: Duration)
    requires InWindow(invite.issuedAt, invite.notBefore, invite.expiresAt, now, wall)
    ensures var lifetime := RedemptionLifetime(ttl, invite.expiresAt, now);
      && lifetime <= InForce(ttl)
      && (now != 0 ==> now + lifetime == (if now + InForce(ttl) <= invite.expiresAt then now + InForce(ttl)
                                          else invite.expiresAt))
  {}

  /** This lease was minted by a thread that had redeemed its invite. */
  ghost predicate RedeemedLease(actions: seq<Action>, tr: seq<State>, n: nat, e: LeaseEntry)
    requires |tr| == |actions| + 1 && n <= |actions|
  {
    exists t, invite: ExactInvite, recipient, now, ttl, ix, m ::
      && Redeemed(actions, tr, n, t, invite, recipient, now, ttl, ix) && ix[3] < m < n
      && MintedFromInvite(actions[m], t, invite, recipient, now, ttl, e.lease)
      && e.source == invite.jti
  }

  /** The renewal trail: all three checks, on a relationship whose invite was unrevoked until its check. */
  ghost predicate Renewed(
    actions: seq<Action>, tr: seq<State>, n: nat, t: nat, pipe: string, recipient: string, rel: Relationship,
    ix: seq<nat>)
    requires |tr| == |actions| + 1 && n <= |actions|
  {
    && |ix| == 3 && RenewSteps(actions, tr, n, t, pipe, recipient, rel, ix)
    && forall k | 0 <= k <= ix[1] :: Subject(pipe, "exact.invite", rel.jti) !in tr[k].tables.revocations
  }

  /** This lease was minted by a thread that had looked up and checked the relationship it renews. */
  ghost predicate RenewedLease(actions: seq<Action>, tr: seq<State>, n: nat, e: LeaseEntry)
    requires |tr| == |actions| + 1 && n <= |actions|
  {
    exists t, pipe, recipient, rel: Relationship, ix, m ::
      && Renewed(actions, tr, n, t, pipe, recipient, rel, ix) && ix[2] < m < n
      && MintedFromRelationship(tr[m], actions[m], t, pipe, recipient, rel, e.lease)
      && e.source == rel.jti
  }

  lemma RedeemedWindow(
    actions: seq<Action>, tr: seq<State>, n: nat, t: nat, invite: ExactInvite, recipient: string,
    now: Time, ttl: Duration, ix: seq<nat>)
    requires |tr| == |actions| + 1 && n <= |actions|
    requires |ix| == 4 && RedeemSteps(actions, tr, n, t, invite, recipient, now, ttl, ix)
    ensures ix[3] < n && ix[0] < n && actions[ix[0]].RedeemVerify?
    ensures InWindow(invite.issuedAt, invite.notBefore, invite.expiresAt, now, actions[ix[0]].wall)
  {
    hide InWindow, OwnerBound, SawInviteUnrevoked, SawInviteEpoch, WroteRedemption;
  }

  lemma MintFromInvite(w: World, actions: seq<Action>, tr: seq<State>, m: nat, t: nat, e: LeaseEntry)
    requires IsRun(w, actions, tr) && m < |actions| && t in tr[m].threads && actions[m] == RedeemMint(t, e.lease.jti)
    requires var th := tr[m].threads[t]; th.Redeeming? && th.stage.Committed? && MintedWith(th, e)
    ensures RedeemedLease(actions, tr, m + 1, e)
  {
    hide Next, Trail, RedeemSteps, Redeemed, InWindow, RedemptionLifetime, InForce;
    var th := tr[m].threads[t];
    var ix := ThreadTrail(w, actions, tr, m, t);
    CommittedTrail(actions, tr, m, t, th, ix);
    RedeemedWindow(actions, tr, m, t, th.invite, th.recipient, th.now, th.ttl, ix);
    RedeemUnrevoked(w, actions, tr, m, t, th.invite, th.recipient, th.now, th.ttl, ix);
    RedeemedLater(actions, tr, m, t, th.invite, th.recipient, th.now, th.ttl, ix);
    RedemptionExpiry(th.invite, th.now, actions[ix[0]].wall, th.ttl);
    assert MintedFromInvite(actions[m], t, th.invite, th.recipient, th.now, th.ttl, e.lease);
  }

  lemma CommittedTrail(actions: seq<Action>, tr: seq<State>, n: nat, t: nat, th: Thread, ix: seq<nat>)
    requires |tr| == |actions| + 1 && n <= |actions|
    requires th.Redeeming? && th.stage.Committed? && Trail(actions, tr, n, t, th, ix)
    ensures |ix| == 4 && RedeemSteps(actions, tr, n, t, th.invite, th.recipient, th.now, th.ttl, ix)
  {
    hide RedeemSteps;
  }

  lemma CurrentTrail(
    w: World, actions: seq<Action>, tr: seq<State>, n: nat, t: nat, th: Thread, ix: seq<nat>)
    requires IsRun(w, actions, tr) && n < |actions|
    requires th.Renewing? && th.renewStage.Current? && Trail(actions, tr, n, t, th, ix)
    ensures Renewed(actions, tr, n + 1, t, th.renewPipe, th.renewRecipient, th.rel, ix) && |ix| == 3 && ix[2] < n
  {
    hide Next, Follows, FoundRelationship, SawSourceEpoch;
    NeverRevokedBefore(w, actions, tr, ix[1], Subject(th.renewPipe, "exact.invite", th.rel.jti));
  }

  lemma MintFromRelationship(w: World, actions: seq<Action>, tr: seq<State>, m: nat, t: nat, e: LeaseEntry)
    requires IsRun(w, actions, tr) && m < |actions| && t in tr[m].threads
    requires var th := tr[m].threads[t];
      && th.Renewing? && th.renewStage.Current? && e.source == th.rel.jti
      && MintedFromRelationship(tr[m], actions[m], t, th.renewPipe, th.renewRecipient, th.rel, e.lease)
    ensures RenewedLease(actions, tr, m + 1, e)
  {
    hide Next, Trail, Renewed, MintedFromRelationship;
    var th := tr[m].threads[t];
    var ix := ThreadTrail(w, actions, tr, m, t);
    CurrentTrail(w, actions, tr, m, t, th, ix);
  }

  lemma RedeemedLeaseLater(actions: seq<Action>, tr: seq<State>, n: nat, e: LeaseEntry)
    requires |tr| == |actions| + 1 && n < |actions| && RedeemedLease(actions, tr, n, e)
    ensures RedeemedLease(actions, tr, n + 1, e)
  {
    hide RedeemSteps, MintedFromInvite;
    var t, invite: ExactInvite, recipient, now, ttl, ix, m :|
      && Redeemed(actions, tr, n, t, invite, recipient, now, ttl, ix) && ix[3] < m < n
      && MintedFromInvite(actions[m], t, invite, recipient, now, ttl, e.lease)
      && e.source == invite.jti;
    RedeemedLater(actions, tr, n, t, invite, recipient, now, ttl, ix);
  }

  lemma RenewedLeaseLater(actions: seq<Action>, tr: seq<State>, n: nat, e: LeaseEntry)
    requires |tr| == |actions| + 1 && n < |actions| && RenewedLease(actions, tr, n, e)
    ensures RenewedLease(actions, tr, n + 1, e)
  {
    hide FoundRelationship, SawSourceUnrevoked, SawSourceEpoch, MintedFromRelationship;
    var t, pipe, recipient, rel: Relationship, ix, m :|
      && Renewed(actions, tr, n, t, pipe, recipient, rel, ix) && ix[2] < m < n
      && MintedFromRelationship(tr[m], actions[m], t, pipe, recipient, rel, e.lease)
      && e.source == rel.jti;
    assert Renewed(actions, tr, n + 1, t, pipe, recipient, rel, ix);
  }

  lemma LeaseStays(s: State, a: Action, jti: string)
    requires Inv(s) && jti in s.leases
    ensures jti in Next(s, a).leases && Next(s, a).leases[jti] == s.leases[jti]
  {
    hide Inv, Next;
    NextInv(s, a);
  }

  /**
   Every lease of every run was minted either for a recipient that redeemed its invite, or for one that held
   the invite's relationship at the current epoch and proved its key again for the renewal; the invite was
   unrevoked at the check.
   */
  lemma {:induction false} LeaseTrail(w: World, actions: seq<Action>, tr: seq<State>, n: nat, jti: string)
    requires IsRun(w, actions, tr) && n <= |actions| && jti in tr[n].leases
    ensures RedeemedLease(actions, tr, n, tr[n].leases[jti]) || RenewedLease(actions, tr, n, tr[n].leases[jti])
    decreases n
  {
    hide Next, Inv, RedeemedLease, RenewedLease, MintedFromRelationship, MintedWith;
    var m, e := n - 1, tr[n].leases[jti];
    assert Follows(actions, tr, m);
    RunInv(w, actions, tr, m);
    if jti in tr[m].leases {
      LeaseTrail(w, actions, tr, m, jti);
      LeaseStays(tr[m], actions[m], jti);
      if RedeemedLease(actions, tr, m, e) {
        RedeemedLeaseLater(actions, tr, m, e);
      } else {
        RenewedLeaseLater(actions, tr, m, e);
      }
    } else {
      NewLease(tr[m], actions[m], jti);
      if actions[m].RedeemMint? {
        MintFromInvite(w, actions, tr, m, actions[m].t, e);
      } else {
        MintFromRelationship(w, actions, tr, m, actions[m].t, e);
      }
    }
  }
}
