/**
 The exact-access protocol for Scope-less Pipes: share, redeem, renew, revoke and open as
 interleaved threads over one store (internal/usecase/share.go, internal/exactauthority,
 internal/cli/app.go revoke, internal/runtime/exact_authorizer.go).

 Every store call is one atomic action; everything between two store calls of a thread belongs to
 the next action of that thread. Clock readings, challenges, presented credentials and signatures
 made with foreign keys are the arguments of actions, so a run is any sequence of actions.
 */
module ExactAccess {
  import opened Units
  import opened Wrappers
  import opened Credentials
  import opened ExactTables
  import SM = SigningMessages

  /** The Pipe's owner key and its one dedicated Exact Authority key. */
  datatype Keys = Keys(owner: string, authority: string)

  type World = map<string, Keys>

  ghost predicate ValidWorld(w: World) {
    && (forall p | p in w ::
          && PipeOwner(p, w[p].owner) && CanonicalPublic(w[p].owner) && CanonicalPublic(w[p].authority)
          && ValidString(p) && |p| <= MAX_PIPE_ID_LEN)
    && (forall p, q | p in w && q in w :: w[p].authority == w[q].authority ==> p == q)
    && (forall p, q | p in w && q in w :: w[p].owner != w[q].authority)
  }

  predicate IsAuthority(w: World, key: string) {
    exists p | p in w :: w[p].authority == key
  }

  predicate IsOwner(w: World, key: string) {
    exists p | p in w :: w[p].owner == key
  }

  datatype RedeemStage = Verified | NotRevoked | EpochMatched(readAt: nat) | Committed

  datatype RenewStage = LookedUp | Unrevoked | Current(currentAt: nat)

  /** Where a thread stands between two of its store calls. `readAt` indexes State.past. */
  datatype Thread =
    | Sharing(pipe: string, epoch: nat, sharedAt: nat)
    | Redeeming(invite: ExactInvite, recipient: string, now: Time, ttl: Duration, stage: RedeemStage)
    | Renewing(renewPipe: string, renewRecipient: string, rel: Relationship, renewStage: RenewStage)
    | Revoking(revokePipe: string, newEpoch: nat, revokeAt: nat)
    | Opening(openPipe: string, lease: AccessLease, client: string, unrevoked: bool)

  datatype InviteEntry = InviteEntry(invite: ExactInvite, readAt: nat)
  datatype LeaseEntry = LeaseEntry(lease: AccessLease, source: string)
  datatype Open = Open(lease: AccessLease, client: string, pipe: string, readAt: nat)

  datatype State = State(
    world: World,
    tables: Tables,
    provisioned: set<string>,        // Pipes whose authority key file exists
    signed: Signed,
    threads: map<nat, Thread>,
    // History: what was minted, what was opened, and the tables before each action so far.
    invites: map<string, InviteEntry>,
    leases: map<string, LeaseEntry>,
    opens: set<Open>,
    past: seq<Tables>
  )

  function Init(w: World): State {
    State(w, Tables(map[], map[], map[]), {}, {}, map[], map[], map[], {}, [])
  }

  datatype Action =
    | ShareRead(t: nat, pipe: string)
    | ShareMint(t: nat, now: Time, jti: string)
    | RedeemVerify(t: nat, invite: ExactInvite, recipient: string, challenge: string,
                   now: Time, wall: Time, ttl: Duration)
    | RedeemCheckRevoked(t: nat)
    | RedeemCheckEpoch(t: nat)
    | RedeemCommit(t: nat, session: string)
    | RedeemMint(t: nat, jti: string)
    | RenewLookup(t: nat, pipe: string, recipient: string, binding: OwnerBinding)
    | RenewCheckRevoked(t: nat)
    | RenewCheckEpoch(t: nat)
    | RenewMint(t: nat, challenge: string, now: Time, ttl: Duration, jti: string)
    | RevokeRead(t: nat, pipe: string)
    | RevokeCommit(t: nat)
    | RevokeCall(scope: string, kind: string, subject: string, epoch: nat)
    | OpenVerify(t: nat, pipe: string, lease: AccessLease, client: string, challenge: string,
                 now: Time, wall: Time)
    | OpenCheckRevoked(t: nat)
    | OpenCheckEpoch(t: nat)
    | Sign(key: string, body: Body)

  /** What one action changes. */
  datatype Change =
    | Idle
    | SetThread(t: nat, thread: Thread)
    | EndThread(t: nat)
    | MintInvite(t: nat, binding: OwnerBinding, invite: ExactInvite, readAt: nat)
    | MintLease(t: nat, lease: AccessLease, source: string)
    | WriteRedemption(t: nat, thread: Thread, tables: Tables)
    | WriteRevocation(ended: set<nat>, tables: Tables)
    | RecordOpen(t: nat, open: Open)
    | AddSignature(key: string, body: Body)

  function Apply(s: State, c: Change): State {
    match c
    case Idle => s
    case SetThread(t, thread) => s.(threads := s.threads[t := thread])
    case EndThread(t) => s.(threads := s.threads - {t})
    case MintInvite(t, binding, invite, readAt) =>
      s.(threads := s.threads - {t},
         provisioned := s.provisioned + {invite.pipe},
         signed := s.signed + {(binding.owner, BindingBody(binding)), (invite.issuer, InviteBody(invite))},
         invites := s.invites[invite.jti := InviteEntry(invite, readAt)])
    case MintLease(t, lease, source) =>
      s.(threads := s.threads - {t},
         signed := s.signed + {(lease.issuer, LeaseBody(lease))},
         leases := s.leases[lease.jti := LeaseEntry(lease, source)])
    case WriteRedemption(t, thread, tables) => s.(threads := s.threads[t := thread], tables := tables)
    case WriteRevocation(ended, tables) => s.(threads := s.threads - ended, tables := tables)
    case RecordOpen(t, open) => s.(threads := s.threads - {t}, opens := s.opens + {open})
    case AddSignature(key, body) => s.(signed := s.signed + {(key, body)})
  }

  function Spawn(s: State, t: nat, thread: Thread): Change {
    if t in s.threads then Idle else SetThread(t, thread)
  }

  predicate FreshId(s: State, jti: string) {
    FreshJti(jti) && jti !in s.invites && jti !in s.leases
  }

  // ---- share: internal/usecase/share.go:64-101

  function DoShareRead(s: State, t: nat, pipe: string): Change {
    if pipe in s.world then Spawn(s, t, Sharing(pipe, Epoch(s.tables, pipe), |s.past|)) else Idle
  }

  function DoShareMint(s: State, t: nat, th: Thread, now: Time, jti: string): Change
    requires th.Sharing?
  {
    if th.pipe !in s.world || !FreshId(s, jti) then Idle
    else
      var keys := s.world[th.pipe];
      var binding := OwnerBinding(VERSION, BINDING_TYPE, keys.owner, keys.authority, th.pipe, th.epoch);
      match NewExactInvite(binding, th.pipe, now, DEFAULT_INVITE_TTL, th.epoch, jti)
      case Failure(_) => EndThread(t)
      case Success(invite) => MintInvite(t, binding, invite, th.sharedAt)
  }

  // ---- redeem: internal/exactauthority/redeem.go:61-194

  /** Loader.Load: the key file exists and the presented binding is the owner's binding of that key. */
  predicate Loads(s: State, pipe: string, binding: OwnerBinding) {
    && pipe in s.world && pipe in s.provisioned
    && BindingVerified(binding, s.signed)
    && PipeOwner(binding.pipe, binding.owner)
    && binding.authorityKey == s.world[pipe].authority
    && binding.authorityKey != binding.owner
  }

  predicate Redeemable(s: State, invite: ExactInvite, recipient: string, challenge: string, now: Time, wall: Time) {
    && invite.binding.Some?
    && BindingVerified(invite.binding.value, s.signed)
    && PipeOwner(invite.pipe, invite.binding.value.owner)
    && invite.binding.value.authorityKey == invite.issuer
    && invite.binding.value.pipe == invite.pipe
    && Loads(s, invite.pipe, invite.binding.value)
    && InviteVerified(invite, now, wall, invite.pipe, s.signed)
    && invite.oneTime
    && CanonicalPublic(recipient)
    && Challenge(challenge)
    && (recipient, Proof(SM.REDEEM_PROOF_PURPOSE, [invite.jti, invite.pipe, challenge])) in s.signed
  }

  function DoRedeemCheckRevoked(s: State, t: nat, th: Thread): Change
    requires th.Redeeming?
  {
    if IsRevoked(s.tables, th.invite.pipe, EXACT_INVITE, th.invite.jti) then EndThread(t)
    else SetThread(t, th.(stage := NotRevoked))
  }

  function DoRedeemCheckEpoch(s: State, t: nat, th: Thread): Change
    requires th.Redeeming?
  {
    if Epoch(s.tables, th.invite.pipe) != th.invite.epoch then EndThread(t)
    else SetThread(t, th.(stage := EpochMatched(|s.past|)))
  }

  function DoRedeemCommit(s: State, t: nat, th: Thread, session: string): Change
    requires th.Redeeming?
  {
    match RedeemTx(s.tables, th.invite.jti, th.invite.pipe, session, th.recipient, th.invite.epoch)
    case Failure(_) => EndThread(t)
    case Success(tables) => WriteRedemption(t, th.(stage := Committed), tables)
  }

  function DoRedeemMint(s: State, t: nat, th: Thread, jti: string): Change
    requires th.Redeeming?
  {
    if th.invite.pipe !in s.world || !FreshId(s, jti) then Idle
    else
      match NewAccessLease(s.world[th.invite.pipe].authority, th.recipient, th.invite.pipe, th.now,
                           RedemptionLifetime(th.ttl, th.invite.expiresAt, th.now), th.invite.epoch, jti)
      case Failure(_) => EndThread(t)
      case Success(lease) => MintLease(t, lease, th.invite.jti)
  }

  // ---- renew: internal/exactauthority/renew.go:56-158

  function DoRenewLookup(s: State, t: nat, pipe: string, recipient: string, binding: OwnerBinding): Change {
    if && pipe != "" && |pipe| <= MAX_PIPE_ID_LEN && CanonicalPublic(recipient)
       && BindingVerified(binding, s.signed) && binding.pipe == pipe && PipeOwner(pipe, binding.owner)
       && Loads(s, pipe, binding)
       && (pipe, recipient) in s.tables.accepted
    then Spawn(s, t, Renewing(pipe, recipient, s.tables.accepted[(pipe, recipient)], LookedUp))
    else Idle
  }

  function DoRenewCheckRevoked(s: State, t: nat, th: Thread): Change
    requires th.Renewing?
  {
    if IsRevoked(s.tables, th.renewPipe, EXACT_INVITE, th.rel.jti) then EndThread(t)
    else SetThread(t, th.(renewStage := Unrevoked))
  }

  function DoRenewCheckEpoch(s: State, t: nat, th: Thread): Change
    requires th.Renewing?
  {
    if Epoch(s.tables, th.renewPipe) != th.rel.epoch then EndThread(t)
    else SetThread(t, th.(renewStage := Current(|s.past|)))
  }

  function DoRenewMint(s: State, t: nat, th: Thread, challenge: string, now: Time, ttl: Duration, jti: string): Change
    requires th.Renewing?
  {
    if th.renewPipe !in s.world || !FreshId(s, jti) then Idle
    else if !Challenge(challenge)
         || (th.renewRecipient, Proof(SM.RENEW_PROOF_PURPOSE, [th.renewPipe, challenge])) !in s.signed
    then EndThread(t)
    else
      match NewAccessLease(s.world[th.renewPipe].authority, th.renewRecipient, th.renewPipe, now,
                           RenewalLifetime(ttl), th.rel.epoch, jti)
      case Failure(_) => EndThread(t)
      case Success(lease) => MintLease(t, lease, th.rel.jti)
  }

  // ---- revoke: internal/cli/app.go:993-1012; RevokeCall is any other caller of Store.Revoke

  function DoRevokeRead(s: State, t: nat, pipe: string): Change {
    Spawn(s, t, Revoking(pipe, Epoch(s.tables, pipe) + 1, |s.past|))
  }

  function DoRevoke(s: State, ended: set<nat>, scope: string, kind: string, subject: string, epoch: nat): Change {
    match RevokeTx(s.tables, scope, kind, subject, epoch)
    case Failure(_) => WriteRevocation(ended, s.tables)
    case Success(tables) => WriteRevocation(ended, tables)
  }

  // ---- open: internal/runtime/exact_authorizer.go:92-147

  predicate Openable(
    s: State, pipe: string, lease: AccessLease, client: string, challenge: string, now: Time, wall: Time)
  {
    && pipe in s.world && pipe in s.provisioned
    && LeaseVerified(lease, s.world[pipe].authority, client, pipe, now, wall, s.signed)
    && CanonicalPublic(client) && Nonce(challenge)
    && (client, Proof(SM.OPEN_PROOF_PURPOSE, [challenge, pipe])) in s.signed
  }

  function DoOpenCheckRevoked(s: State, t: nat, th: Thread): Change
    requires th.Opening?
  {
    if IsRevoked(s.tables, th.openPipe, ACCESS_LEASE, th.lease.jti) then EndThread(t)
    else SetThread(t, th.(unrevoked := true))
  }

  function DoOpenCheckEpoch(s: State, t: nat, th: Thread): Change
    requires th.Opening?
  {
    if Epoch(s.tables, th.openPipe) > th.lease.epoch then EndThread(t)
    else RecordOpen(t, Open(th.lease, th.client, th.openPipe, |s.past|))
  }

  /** An action that starts a thread or belongs to none. */
  function StartEffect(s: State, a: Action): Change {
    match a
    case ShareRead(t, pipe) => DoShareRead(s, t, pipe)
    case RedeemVerify(t, invite, recipient, challenge, now, wall, ttl) =>
      if Redeemable(s, invite, recipient, challenge, now, wall)
      then Spawn(s, t, Redeeming(invite, recipient, now, ttl, Verified)) else Idle
    case RenewLookup(t, pipe, recipient, binding) => DoRenewLookup(s, t, pipe, recipient, binding)
    case RevokeRead(t, pipe) => DoRevokeRead(s, t, pipe)
    case RevokeCall(scope, kind, subject, epoch) => DoRevoke(s, {}, scope, kind, subject, epoch)
    case OpenVerify(t, pipe, lease, client, challenge, now, wall) =>
      if Openable(s, pipe, lease, client, challenge, now, wall)
      then Spawn(s, t, Opening(pipe, lease, client, false)) else Idle
    case Sign(key, body) =>
      // Any key proves possession; only the owner workflow signs with the local owner and authority keys.
      if body.Proof? || (!IsAuthority(s.world, key) && !IsOwner(s.world, key)) then AddSignature(key, body) else Idle
    case _ => Idle
  }

  /** The next action of a running thread; an action out of turn changes nothing. */
  function ThreadEffect(s: State, a: Action, t: nat, th: Thread): Change {
    match (a, th)
    case (ShareMint(_, now, jti), Sharing(_, _, _)) => DoShareMint(s, t, th, now, jti)
    case (RedeemCheckRevoked(_), Redeeming(_, _, _, _, Verified)) => DoRedeemCheckRevoked(s, t, th)
    case (RedeemCheckEpoch(_), Redeeming(_, _, _, _, NotRevoked)) => DoRedeemCheckEpoch(s, t, th)
    case (RedeemCommit(_, session), Redeeming(_, _, _, _, EpochMatched(_))) => DoRedeemCommit(s, t, th, session)
    case (RedeemMint(_, jti), Redeeming(_, _, _, _, Committed)) => DoRedeemMint(s, t, th, jti)
    case (RenewCheckRevoked(_), Renewing(_, _, _, LookedUp)) => DoRenewCheckRevoked(s, t, th)
    case (RenewCheckEpoch(_), Renewing(_, _, _, Unrevoked)) => DoRenewCheckEpoch(s, t, th)
    case (RenewMint(_, challenge, now, ttl, jti), Renewing(_, _, _, Current(_))) =>
      DoRenewMint(s, t, th, challenge, now, ttl, jti)
    case (RevokeCommit(_), Revoking(pipe, epoch, _)) => DoRevoke(s, {t}, pipe, PIPE_ACCESS, pipe, epoch)
    case (OpenCheckRevoked(_), Opening(_, _, _, false)) => DoOpenCheckRevoked(s, t, th)
    case (OpenCheckEpoch(_), Opening(_, _, _, true)) => DoOpenCheckEpoch(s, t, th)
    case _ => Idle
  }

  function Effect(s: State, a: Action): Change {
    if a.RevokeCall? || a.Sign? || a.t !in s.threads then StartEffect(s, a)
    else ThreadEffect(s, a, a.t, s.threads[a.t])
  }

  /** The changed state, with the tables it started from added to the history. */
  function Applied(s: State, c: Change): State {
    Apply(s, c).(past := s.past + [s.tables])
  }

  function Next(s: State, a: Action): State {
    Applied(s, Effect(s, a))
  }

  ghost predicate Follows(actions: seq<Action>, tr: seq<State>, i: int)
    requires |tr| == |actions| + 1 && 0 <= i < |actions|
  {
    tr[i + 1] == Next(tr[i], actions[i])
  }

  /** A run: tr[n] is the state after the first n actions. */
  ghost predicate IsRun(w: World, actions: seq<Action>, tr: seq<State>) {
    && ValidWorld(w)
    && |tr| == |actions| + 1 && tr[0] == Init(w)
    && forall i | 0 <= i < |actions| :: Follows(actions, tr, i)
  }

  // ---- what every run keeps

  /** The epoch a thread read, as the history recorded it. */
  ghost predicate ReadAs(s: State, at: nat, pipe: string, epoch: nat) {
    at < |s.past| && Epoch(s.past[at], pipe) == epoch
  }

  ghost predicate KnownInvite(s: State, invite: ExactInvite) {
    invite.jti in s.invites && s.invites[invite.jti].invite == invite
  }

  ghost predicate KnownLease(s: State, lease: AccessLease) {
    lease.jti in s.leases && s.leases[lease.jti].lease == lease
  }

  /** `recipient` redeemed this invite of the Pipe, and the invite carries this epoch. */
  ghost predicate Backed(s: State, jti: string, pipe: string, recipient: string, epoch: nat) {
    && jti in s.invites && s.invites[jti].invite.pipe == pipe && s.invites[jti].invite.epoch == epoch
    && (jti, pipe) in s.tables.redemptions && s.tables.redemptions[(jti, pipe)] == recipient
  }

  ghost predicate HistoryInv(s: State) {
    && (forall i | 0 <= i < |s.past| :: Later(s.past[i], s.tables))
    && (forall i, j | 0 <= i <= j < |s.past| :: Later(s.past[i], s.past[j]))
  }

  ghost predicate SignedInv(s: State) {
    forall p, b | p in s.world && (s.world[p].authority, b) in s.signed ::
      b.Proof? || (b.InviteBody? && KnownInvite(s, b.invite)) || (b.LeaseBody? && KnownLease(s, b.lease))
  }

  ghost predicate InviteInv(s: State) {
    forall j | j in s.invites ::
      var e := s.invites[j];
      && e.invite.jti == j && FreshJti(j) && e.invite.pipe in s.world
      && ReadAs(s, e.readAt, e.invite.pipe, e.invite.epoch)
  }

  ghost predicate LeaseInv(s: State) {
    forall j | j in s.leases ::
      var e := s.leases[j];
      && e.lease.jti == j && Backed(s, e.source, e.lease.pipe, e.lease.subject, e.lease.epoch)
  }

  ghost predicate TableInv(s: State) {
    && (forall j, p | (j, p) in s.tables.redemptions :: j in s.invites && s.invites[j].invite.pipe == p)
    && (forall p, r | (p, r) in s.tables.accepted ::
          var rel := s.tables.accepted[(p, r)];
          Backed(s, rel.jti, p, r, rel.epoch))
  }

  ghost predicate ThreadInv(s: State, th: Thread) {
    match th
    case Sharing(pipe, epoch, at) => ReadAs(s, at, pipe, epoch)
    case Redeeming(invite, recipient, _, _, stage) =>
      && KnownInvite(s, invite)
      && (stage.EpochMatched? ==> ReadAs(s, stage.readAt, invite.pipe, invite.epoch))
      && (stage.Committed? ==> Backed(s, invite.jti, invite.pipe, recipient, invite.epoch))
    case Renewing(pipe, recipient, rel, stage) =>
      && Backed(s, rel.jti, pipe, recipient, rel.epoch)
      && (stage.Current? ==> ReadAs(s, stage.currentAt, pipe, rel.epoch))
    case Revoking(pipe, epoch, at) => epoch > 0 && ReadAs(s, at, pipe, epoch - 1)
    case Opening(pipe, lease, client, _) =>
      KnownLease(s, lease) && lease.pipe == pipe && lease.subject == client
  }

  ghost predicate OpenInv(s: State) {
    forall o | o in s.opens ::
      && KnownLease(s, o.lease) && o.lease.pipe == o.pipe && o.lease.subject == o.client
      && o.readAt < |s.past| && Epoch(s.past[o.readAt], o.pipe) <= o.lease.epoch
  }

  ghost predicate Inv(s: State) {
    && ValidWorld(s.world)
    && HistoryInv(s) && SignedInv(s) && InviteInv(s) && LeaseInv(s) && TableInv(s) && OpenInv(s)
    && (forall t | t in s.threads :: ThreadInv(s, s.threads[t]))
  }

  /** Nothing minted, opened, redeemed or recorded is ever taken back. */
  ghost predicate Grows(s: State, n: State) {
    && n.world == s.world
    && Later(s.tables, n.tables)
    && n.past == s.past + [s.tables]
    && (forall j | j in s.invites :: j in n.invites && n.invites[j] == s.invites[j])
    && (forall j | j in s.leases :: j in n.leases && n.leases[j] == s.leases[j])
    && s.opens <= n.opens
  }

  /** What makes a change safe to apply. */
  ghost predicate Sound(s: State, c: Change) {
    match c
    case Idle => true
    case SetThread(_, thread) => ThreadInv(Applied(s, Idle), thread)
    case EndThread(_) => true
    case MintInvite(_, binding, invite, readAt) =>
      && invite.jti !in s.invites && FreshJti(invite.jti) && invite.pipe in s.world
      && !IsAuthority(s.world, binding.owner)
      && ReadAs(s, readAt, invite.pipe, invite.epoch)
    case MintLease(_, lease, source) =>
      lease.jti !in s.leases && Backed(s, source, lease.pipe, lease.subject, lease.epoch)
    case WriteRedemption(_, thread, tables) =>
      && thread.Redeeming? && thread.stage.Committed? && KnownInvite(s, thread.invite)
      && exists session ::
           RedeemTx(s.tables, thread.invite.jti, thread.invite.pipe, session, thread.recipient, thread.invite.epoch)
           == Success(tables)
    case WriteRevocation(_, tables) =>
      && Later(s.tables, tables)
      && tables.redemptions == s.tables.redemptions && tables.accepted == s.tables.accepted
    case RecordOpen(_, open) =>
      && KnownLease(s, open.lease) && open.lease.pipe == open.pipe && open.lease.subject == open.client
      && open.readAt == |s.past| && Epoch(s.tables, open.pipe) <= open.lease.epoch
    case AddSignature(key, body) => body.Proof? || !IsAuthority(s.world, key)
  }

  lemma RedeemVerifySound(s: State, invite: ExactInvite, recipient: string, challenge: string, now: Time, wall: Time)
    requires SignedInv(s) && Redeemable(s, invite, recipient, challenge, now, wall)
    ensures KnownInvite(s, invite)
  {
    assert (s.world[invite.pipe].authority, InviteBody(invite)) in s.signed;
  }

  lemma OpenVerifySound(
    s: State, pipe: string, lease: AccessLease, client: string, challenge: string, now: Time, wall: Time)
    requires ValidWorld(s.world) && SignedInv(s) && Openable(s, pipe, lease, client, challenge, now, wall)
    ensures KnownLease(s, lease) && lease.pipe == pipe && lease.subject == client
  {
    assert (s.world[pipe].authority, LeaseBody(lease)) in s.signed;
    assert client != "" && pipe != "";
  }

  lemma RevokeSound(s: State, ended: set<nat>, scope: string, kind: string, subject: string, epoch: nat)
    ensures Sound(s, DoRevoke(s, ended, scope, kind, subject, epoch))
  {
    RevokeIsLater(s.tables, scope, kind, subject, epoch);
  }

  lemma RedeemStartSound(s: State, a: Action)
    requires SignedInv(s) && a.RedeemVerify?
    ensures Sound(s, StartEffect(s, a))
  {
    if Redeemable(s, a.invite, a.recipient, a.challenge, a.now, a.wall) {
      RedeemVerifySound(s, a.invite, a.recipient, a.challenge, a.now, a.wall);
    }
  }

  lemma OpenStartSound(s: State, a: Action)
    requires a.OpenVerify?
    requires Openable(s, a.pipe, a.lease, a.client, a.challenge, a.now, a.wall) ==>
               KnownLease(s, a.lease) && a.lease.pipe == a.pipe && a.lease.subject == a.client
    ensures Sound(s, StartEffect(s, a))
  {}

  lemma RenewStartSound(s: State, a: Action)
    requires TableInv(s) && a.RenewLookup?
    ensures Sound(s, StartEffect(s, a))
  {}

  lemma OtherStartSound(s: State, a: Action)
    requires !a.RedeemVerify? && !a.OpenVerify? && !a.RenewLookup?
    ensures Sound(s, StartEffect(s, a))
  {
    if a.RevokeCall? {
      RevokeSound(s, {}, a.scope, a.kind, a.subject, a.epoch);
    }
  }

  lemma ShareMintSound(s: State, t: nat, th: Thread, now: Time, jti: string)
    requires ValidWorld(s.world) && ThreadInv(s, th) && th.Sharing?
    ensures Sound(s, DoShareMint(s, t, th, now, jti))
  {}

  lemma RedeemSound(s: State, a: Action, t: nat, th: Thread)
    requires ThreadInv(s, th) && th.Redeeming?
    ensures Sound(s, ThreadEffect(s, a, t, th))
  {}

  lemma RenewSound(s: State, a: Action, t: nat, th: Thread)
    requires ThreadInv(s, th) && th.Renewing?
    ensures Sound(s, ThreadEffect(s, a, t, th))
  {}

  lemma OpenSound(s: State, a: Action, t: nat, th: Thread)
    requires ThreadInv(s, th) && th.Opening?
    ensures Sound(s, ThreadEffect(s, a, t, th))
  {}

  lemma StartSound(s: State, a: Action)
    requires ValidWorld(s.world) && SignedInv(s) && TableInv(s)
    ensures Sound(s, StartEffect(s, a))
  {
    hide Sound, ValidWorld, SignedInv, TableInv, Redeemable, DoRevoke, DoRenewLookup;
    match a
    case RedeemVerify(_, _, _, _, _, _, _) => RedeemStartSound(s, a);
    case OpenVerify(_, pipe, lease, client, challenge, now, wall) =>
      if Openable(s, pipe, lease, client, challenge, now, wall) {
        OpenVerifySound(s, pipe, lease, client, challenge, now, wall);
      }
      OpenStartSound(s, a);
    case RenewLookup(_, _, _, _) => RenewStartSound(s, a);
    case _ => OtherStartSound(s, a);
  }

  lemma ThreadSound(s: State, a: Action, t: nat, th: Thread)
    requires ValidWorld(s.world) && ThreadInv(s, th)
    ensures Sound(s, ThreadEffect(s, a, t, th))
  {
    match th
    case Sharing(_, _, _) =>
      if a.ShareMint? { ShareMintSound(s, t, th, a.now, a.jti); }
    case Redeeming(_, _, _, _, _) => RedeemSound(s, a, t, th);
    case Renewing(_, _, _, _) => RenewSound(s, a, t, th);
    case Revoking(pipe, epoch, _) => RevokeSound(s, {t}, pipe, PIPE_ACCESS, pipe, epoch);
    case Opening(_, _, _, _) => OpenSound(s, a, t, th);
  }

  lemma EffectSound(s: State, a: Action)
    requires Inv(s)
    ensures Sound(s, Effect(s, a))
  {
    hide Sound, StartEffect, ThreadEffect, ThreadInv, ValidWorld, SignedInv, TableInv, HistoryInv, InviteInv,
      LeaseInv, OpenInv;
    StartSound(s, a);
    if !a.RevokeCall? && !a.Sign? && a.t in s.threads {
      ThreadSound(s, a, a.t, s.threads[a.t]);
    }
  }

  lemma SoundGrows(s: State, c: Change)
    requires Sound(s, c)
    ensures Grows(s, Applied(s, c))
  {}

  lemma GrowsKeepsThread(s: State, n: State, th: Thread)
    requires Grows(s, n) && ThreadInv(s, th)
    ensures ThreadInv(n, th)
  {}

  lemma ApplyHistory(s: State, n: State)
    requires HistoryInv(s) && Grows(s, n)
    ensures HistoryInv(n)
  {}

  lemma ApplyInvites(s: State, c: Change)
    requires InviteInv(s) && Sound(s, c) && Grows(s, Applied(s, c))
    ensures InviteInv(Applied(s, c))
  {}

  lemma ApplyLeases(s: State, c: Change)
    requires LeaseInv(s) && Sound(s, c) && Grows(s, Applied(s, c))
    ensures LeaseInv(Applied(s, c))
  {}

  lemma ApplyTables(s: State, c: Change)
    requires TableInv(s) && InviteInv(s) && Sound(s, c) && Grows(s, Applied(s, c))
    ensures TableInv(Applied(s, c))
  {
    if !c.WriteRedemption? {
      SameRows(s, c);
      KeepTables(s, Applied(s, c));
    }
  }

  lemma SameRows(s: State, c: Change)
    requires Sound(s, c) && !c.WriteRedemption?
    ensures Applied(s, c).tables.redemptions == s.tables.redemptions
      && Applied(s, c).tables.accepted == s.tables.accepted
  {
    hide ThreadInv, KnownInvite, KnownLease, Backed, ReadAs;
  }

  lemma KeepTables(s: State, n: State)
    requires TableInv(s) && Grows(s, n)
    requires n.tables.redemptions == s.tables.redemptions && n.tables.accepted == s.tables.accepted
    ensures TableInv(n)
  {}

  lemma ApplySigned(s: State, c: Change)
    requires SignedInv(s) && Sound(s, c) && Grows(s, Applied(s, c))
    ensures SignedInv(Applied(s, c))
  {}

  lemma ApplyOpens(s: State, c: Change)
    requires OpenInv(s) && Sound(s, c) && Grows(s, Applied(s, c))
    ensures OpenInv(Applied(s, c))
  {}

  lemma ApplyThreads(s: State, c: Change, t: nat)
    requires t in Applied(s, c).threads && (t in s.threads ==> ThreadInv(s, s.threads[t]))
    requires Sound(s, c) && Grows(s, Applied(s, c))
    ensures ThreadInv(Applied(s, c), Applied(s, c).threads[t])
  {
    var n := Applied(s, c);
    if t in s.threads && n.threads[t] == s.threads[t] {
      GrowsKeepsThread(s, n, s.threads[t]);
    }
  }

  lemma NextInv(s: State, a: Action)
    requires Inv(s)
    ensures Inv(Next(s, a)) && Grows(s, Next(s, a))
  {
    var c := Effect(s, a);
    EffectSound(s, a);
    SoundGrows(s, c);
    ApplyHistory(s, Applied(s, c));
    ApplyInvites(s, c);
    ApplyLeases(s, c);
    ApplyTables(s, c);
    ApplySigned(s, c);
    ApplyOpens(s, c);
    forall t | t in Applied(s, c).threads
      ensures ThreadInv(Applied(s, c), Applied(s, c).threads[t])
    {
      ApplyThreads(s, c, t);
    }
  }

  lemma InitInv(w: World)
    requires ValidWorld(w)
    ensures Inv(Init(w))
  {}

  lemma {:induction false} RunInv(w: World, actions: seq<Action>, tr: seq<State>, n: nat)
    requires IsRun(w, actions, tr) && n <= |actions|
    ensures Inv(tr[n])
  {
    hide Inv, Next, Init;
    if n == 0 {
      InitInv(w);
    } else {
      RunInv(w, actions, tr, n - 1);
      assert Follows(actions, tr, n - 1);
      NextInv(tr[n - 1], actions[n - 1]);
    }
  }

  // Parts of the invariant, each on its own.

  lemma RunHistory(w: World, actions: seq<Action>, tr: seq<State>, n: nat)
    requires IsRun(w, actions, tr) && n <= |actions|
    ensures HistoryInv(tr[n])
  {
    RunInv(w, actions, tr, n);
  }

  lemma RunThread(w: World, actions: seq<Action>, tr: seq<State>, n: nat, t: nat)
    requires IsRun(w, actions, tr) && n <= |actions| && t in tr[n].threads
    ensures ThreadInv(tr[n], tr[n].threads[t])
  {
    RunInv(w, actions, tr, n);
  }

  lemma RunTables(w: World, actions: seq<Action>, tr: seq<State>, n: nat)
    requires IsRun(w, actions, tr) && n <= |actions|
    ensures InviteInv(tr[n]) && TableInv(tr[n]) && LeaseInv(tr[n])
  {
    RunInv(w, actions, tr, n);
  }

  lemma RunOpens(w: World, actions: seq<Action>, tr: seq<State>, n: nat)
    requires IsRun(w, actions, tr) && n <= |actions|
    ensures OpenInv(tr[n])
  {
    RunInv(w, actions, tr, n);
  }

  lemma AppliedPast(s: State, c: Change)
    ensures Applied(s, c).past == s.past + [s.tables]
  {}

  /** The history is the run: entry i holds the tables as they stood after i actions. */
  lemma {:induction false} PastIsHistory(w: World, actions: seq<Action>, tr: seq<State>, n: nat, i: nat)
    requires IsRun(w, actions, tr) && i < n <= |actions|
    ensures |tr[n].past| == n && tr[n].past[i] == tr[i].tables
  {
    hide Effect, Applied;
    var s := tr[n - 1];
    assert Follows(actions, tr, n - 1);
    AppliedPast(s, Effect(s, actions[n - 1]));
    if i < n - 1 {
      PastIsHistory(w, actions, tr, n - 1, i);
    } else if n > 1 {
      PastIsHistory(w, actions, tr, n - 1, 0);
    }
  }

  /** Epochs only grow along a run. */
  lemma EpochsGrow(w: World, actions: seq<Action>, tr: seq<State>, i: nat, j: nat, pipe: string)
    requires IsRun(w, actions, tr) && i <= j <= |actions|
    ensures Epoch(tr[i].tables, pipe) <= Epoch(tr[j].tables, pipe)
  {
    hide Next, Later;
    TablesGrow(w, actions, tr, i, j);
    LaterEpoch(tr[i].tables, tr[j].tables, pipe);
  }

  lemma LaterEpoch(a: Tables, b: Tables, pipe: string)
    requires Later(a, b)
    ensures Epoch(a, pipe) <= Epoch(b, pipe)
  {}

  lemma TablesGrow(w: World, actions: seq<Action>, tr: seq<State>, i: nat, j: nat)
    requires IsRun(w, actions, tr) && i <= j <= |actions|
    ensures Later(tr[i].tables, tr[j].tables)
  {
    if i < j {
      PastIsHistory(w, actions, tr, j, i);
      RunHistory(w, actions, tr, j);
    }
  }

  // ---- the proofs that the protocol checks

  lemma GeneratedIsNulFree(c: string)
    requires FreshJti(c) || Challenge(c) || Nonce(c)
    ensures SM.NulFree(c)
  {
    forall i | 0 <= i < |c|
      ensures c[i] != SM.NUL
    {
      if FreshJti(c) && i < 4 {
        assert c[i] == "jti_"[i];
      }
    }
  }

  lemma PipeIsNulFree(w: World, pipe: string)
    requires ValidWorld(w) && pipe in w
    ensures SM.NulFree(pipe)
  {
    var owner := w[pipe].owner;
    assert CanonicalPublic(owner) && pipe == "pip_" + owner;
    forall i | 0 <= i < |pipe|
      ensures pipe[i] != SM.NUL
    {
      if i >= 4 {
        assert pipe[i] == owner[i - 4];
      }
    }
  }

  lemma RedeemableParts(s: State, invite: ExactInvite, recipient: string, challenge: string, now: Time, wall: Time)
    requires SignedInv(s) && InviteInv(s) && Redeemable(s, invite, recipient, challenge, now, wall)
    ensures FreshJti(invite.jti) && Challenge(challenge) && invite.pipe in s.world
  {
    hide LeaseVerified, InviteVerified, BindingVerified, CanonicalPublic, Challenge, FreshJti;
    RedeemVerifySound(s, invite, recipient, challenge, now, wall);
  }

  lemma TripleDetermined(purpose: string, a: string, b: string, c: string)
    requires SM.NulFree(a) && SM.NulFree(b) && SM.NulFree(c)
    ensures SM.Determined(purpose, [a, b, c])
  {
    hide SM.Determined, SM.NulFree;
    SM.ProofDeterminesPartsIffNulFree(purpose, [a, b, c]);
  }

  lemma PairDetermined(purpose: string, a: string, b: string)
    requires SM.NulFree(a) && SM.NulFree(b)
    ensures SM.Determined(purpose, [a, b])
  {
    hide SM.Determined, SM.NulFree;
    SM.ProofDeterminesPartsIffNulFree(purpose, [a, b]);
  }

  /**
   No two exchanges share a proof: in every run, the message of every possession proof that redemption,
   renewal or open checks is the message of exactly these parts.
   */
  lemma CheckedProofsAreDetermined(
    w: World, actions: seq<Action>, tr: seq<State>, n: nat,
    invite: ExactInvite, recipient: string, lease: AccessLease, pipe: string, challenge: string, now: Time, wall: Time)
    requires IsRun(w, actions, tr) && n <= |actions|
    ensures Redeemable(tr[n], invite, recipient, challenge, now, wall) ==>
              SM.Determined(SM.REDEEM_PROOF_PURPOSE, [invite.jti, invite.pipe, challenge])
    ensures pipe in tr[n].world && Challenge(challenge) ==> SM.Determined(SM.RENEW_PROOF_PURPOSE, [pipe, challenge])
    ensures Openable(tr[n], pipe, lease, recipient, challenge, now, wall) ==>
              SM.Determined(SM.OPEN_PROOF_PURPOSE, [challenge, pipe])
  {
    hide Next, Init, Redeemable, LeaseVerified, CanonicalPublic, Challenge, Nonce, FreshJti, ValidWorld, SignedInv,
      InviteInv, SM.Determined;
    var s := tr[n];
    RunSigned(w, actions, tr, n);
    if Redeemable(s, invite, recipient, challenge, now, wall) {
      RedeemableParts(s, invite, recipient, challenge, now, wall);
      GeneratedIsNulFree(invite.jti);
      GeneratedIsNulFree(challenge);
      PipeIsNulFree(s.world, invite.pipe);
      TripleDetermined(SM.REDEEM_PROOF_PURPOSE, invite.jti, invite.pipe, challenge);
    }
    if pipe in s.world && (Challenge(challenge) || Nonce(challenge)) {
      PipeIsNulFree(s.world, pipe);
      GeneratedIsNulFree(challenge);
      PairDetermined(SM.RENEW_PROOF_PURPOSE, pipe, challenge);
      PairDetermined(SM.OPEN_PROOF_PURPOSE, challenge, pipe);
    }
  }

  lemma RunSigned(w: World, actions: seq<Action>, tr: seq<State>, n: nat)
    requires IsRun(w, actions, tr) && n <= |actions|
    ensures ValidWorld(tr[n].world) && SignedInv(tr[n]) && InviteInv(tr[n])
  {
    RunInv(w, actions, tr, n);
  }

  // ---- main results

  /** The lease an open was granted on, and the invite behind it. */
  ghost predicate OpenedThrough(s: State, o: Open, source: string) {
    && KnownLease(s, o.lease) && o.lease.pipe == o.pipe && o.lease.subject == o.client
    && s.leases[o.lease.jti].source == source
    && Backed(s, source, o.pipe, o.client, o.lease.epoch)
  }

  lemma OpenSource(w: World, actions: seq<Action>, tr: seq<State>, n: nat, o: Open) returns (source: string)
    requires IsRun(w, actions, tr) && n <= |actions| && o in tr[n].opens
    ensures OpenedThrough(tr[n], o, source)
    ensures o.readAt < n && Epoch(tr[o.readAt].tables, o.pipe) <= o.lease.epoch
    ensures var at := tr[n].invites[source].readAt;
      at < n && Epoch(tr[at].tables, o.pipe) == o.lease.epoch
  {
    var s := tr[n];
    RunOpens(w, actions, tr, n);
    RunTables(w, actions, tr, n);
    source := s.leases[o.lease.jti].source;
    assert n > 0;
    PastIsHistory(w, actions, tr, n, 0);
    PastIsHistory(w, actions, tr, n, o.readAt);
    PastIsHistory(w, actions, tr, n, s.invites[source].readAt);
  }

  /**
   The fence. Say action i raised the Pipe's access epoch to e or beyond. Whatever the
   interleaving, an open whose epoch read is a later action succeeds only with a lease of epoch at
   least e, and that lease goes back, through redemption or renewal, to an invite that this very
   client redeemed and whose epoch was read after the raise.
   */
  lemma RevocationFencesOpens(w: World, actions: seq<Action>, tr: seq<State>, n: nat, i: nat, e: nat, o: Open)
    requires IsRun(w, actions, tr) && i < n <= |actions|
    requires Epoch(tr[i].tables, o.pipe) < e <= Epoch(tr[i + 1].tables, o.pipe)
    requires o in tr[n].opens && i < o.readAt
    ensures o.lease.epoch >= e
    ensures exists source :: OpenedThrough(tr[n], o, source)
                             && tr[n].invites[source].readAt > i
  {
    hide Next, Epoch;
    var source := OpenSource(w, actions, tr, n, o);
    var at := tr[n].invites[source].readAt;
    EpochsGrow(w, actions, tr, i + 1, o.readAt, o.pipe);
    if at <= i {
      EpochsGrow(w, actions, tr, at, i, o.pipe);
    }
  }

  /**
   One recipient per invite, for ever: whatever races or retries follow, a redeemed (invite, Pipe)
   keeps its recipient; every lease minted from it names that recipient and carries the invite's
   epoch; and every accepted row is backed by an invite its recipient redeemed.
   */
  lemma InviteBindsOneRecipient(
    w: World, actions: seq<Action>, tr: seq<State>, m: nat, n: nat, jti: string, pipe: string)
    requires IsRun(w, actions, tr) && m <= n <= |actions| && (jti, pipe) in tr[m].tables.redemptions
    ensures var recipient := tr[m].tables.redemptions[(jti, pipe)];
      var s := tr[n];
      && (jti, pipe) in s.tables.redemptions && s.tables.redemptions[(jti, pipe)] == recipient
      && jti in s.invites && s.invites[jti].invite.pipe == pipe
      && (forall l | l in s.leases && s.leases[l].source == jti ::
            && s.leases[l].lease.pipe == pipe && s.leases[l].lease.subject == recipient
            && s.leases[l].lease.epoch == s.invites[jti].invite.epoch)
      && (forall p, r | (p, r) in s.tables.accepted ::
            Backed(s, s.tables.accepted[(p, r)].jti, p, r, s.tables.accepted[(p, r)].epoch))
  {
    TablesGrow(w, actions, tr, m, n);
    RunTables(w, actions, tr, n);
  }

  /** The epoch before and after this thread's revocation commits, against the one it read. */
  ghost predicate RaisesIffUncontended(read: Tables, before: Tables, after: Tables, pipe: string) {
    && Epoch(read, pipe) < Epoch(after, pipe)
    && (Epoch(before, pipe) < Epoch(after, pipe) <==> Epoch(before, pipe) == Epoch(read, pipe))
  }

  lemma RevokeCommitEffect(s: State, t: nat, read: Tables)
    requires t in s.threads && s.threads[t].Revoking?
    requires var p := s.threads[t].revokePipe;
      && !Blank(p) && |p| <= 8192
      && s.threads[t].newEpoch == Epoch(read, p) + 1 && Epoch(read, p) <= Epoch(s.tables, p)
    ensures RaisesIffUncontended(read, s.tables, Next(s, RevokeCommit(t)).tables, s.threads[t].revokePipe)
  {
    var p := s.threads[t].revokePipe;
    assert !Blank(PIPE_ACCESS) by { assert !IsSpace(PIPE_ACCESS[0]); }
    assert Effect(s, RevokeCommit(t)) == DoRevoke(s, {t}, p, PIPE_ACCESS, p, s.threads[t].newEpoch);
  }

  /**
   A pipe-access revocation that has committed leaves the epoch above whatever it read, so it
   fences every invite read up to then. It raises the epoch itself, and so also fences what was
   shared in between, exactly when no other revocation raised the Pipe's epoch since its read.
   */
  lemma RevokeRaisesIffUncontended(w: World, actions: seq<Action>, tr: seq<State>, n: nat, t: nat)
    requires IsRun(w, actions, tr) && n < |actions| && actions[n] == RevokeCommit(t)
    requires t in tr[n].threads && tr[n].threads[t].Revoking?
    requires var p := tr[n].threads[t].revokePipe; !Blank(p) && |p| <= 8192
    ensures var th := tr[n].threads[t];
      && th.revokeAt < n
      && RaisesIffUncontended(tr[th.revokeAt].tables, tr[n].tables,
                              tr[n + 1].tables, th.revokePipe)
  {
    hide Next, Epoch, RaisesIffUncontended, Blank;
    var s := tr[n];
    var th := s.threads[t];
    RunThread(w, actions, tr, n, t);
    assert n > 0;
    PastIsHistory(w, actions, tr, n, 0);
    PastIsHistory(w, actions, tr, n, th.revokeAt);
    EpochsGrow(w, actions, tr, th.revokeAt, n, th.revokePipe);
    assert Follows(actions, tr, n);
    RevokeCommitEffect(s, t, tr[th.revokeAt].tables);
  }

  /** This redemption is about to write a first, well-formed row. */
  ghost predicate FirstRedemption(s: State, t: nat) {
    && t in s.threads && s.threads[t].Redeeming? && s.threads[t].stage.EpochMatched?
    && var th := s.threads[t];
       && !Blank(th.invite.jti) && !Blank(th.invite.pipe) && !Blank(th.recipient)
       && (th.invite.jti, th.invite.pipe) !in s.tables.redemptions
  }

  ghost predicate CurrentIffUnrevoked(
    read: Tables, before: Tables, after: Tables, pipe: string, recipient: string)
  {
    var key := (pipe, recipient);
    && key in after.accepted
    && (after.accepted[key].epoch == Epoch(after, pipe) <==> Epoch(read, pipe) == Epoch(before, pipe))
  }

  /** The client holds a relationship of an epoch above this one. */
  ghost predicate HoldsNewer(t: Tables, pipe: string, recipient: string, epoch: nat) {
    (pipe, recipient) in t.accepted && t.accepted[(pipe, recipient)].epoch > epoch
  }

  /** The write lowers the relationship's epoch if and only if the client held one newer than was read. */
  ghost predicate LowersIffNewer(read: Tables, before: Tables, after: Tables, pipe: string, recipient: string) {
    var key := (pipe, recipient);
    && key in after.accepted
    && (HoldsNewer(before, pipe, recipient, after.accepted[key].epoch) <==>
        HoldsNewer(before, pipe, recipient, Epoch(read, pipe)))
    && (HoldsNewer(before, pipe, recipient, Epoch(read, pipe)) ==>
          Epoch(read, pipe) < Epoch(before, pipe) && !HoldsNewer(read, pipe, recipient, Epoch(read, pipe)))
  }

  lemma RedeemCommitEffect(s: State, t: nat, session: string, read: Tables)
    requires FirstRedemption(s, t) && !Blank(session)
    requires var th := s.threads[t];
      th.invite.epoch == Epoch(read, th.invite.pipe) <= Epoch(s.tables, th.invite.pipe)
    ensures CurrentIffUnrevoked(read, s.tables, Next(s, RedeemCommit(t, session)).tables,
                                s.threads[t].invite.pipe, s.threads[t].recipient)
    ensures var th := s.threads[t];
      var n := Next(s, RedeemCommit(t, session));
      (th.invite.pipe, th.recipient) in n.tables.accepted
      && n.tables.accepted[(th.invite.pipe, th.recipient)] == Relationship(th.invite.jti, Epoch(read, th.invite.pipe))
  {}

  lemma AcceptedEpoch(w: World, actions: seq<Action>, tr: seq<State>, n: nat, pipe: string, recipient: string)
    requires IsRun(w, actions, tr) && n <= |actions| && (pipe, recipient) in tr[n].tables.accepted
    ensures tr[n].tables.accepted[(pipe, recipient)].epoch <= Epoch(tr[n].tables, pipe)
  {
    var s := tr[n];
    RunTables(w, actions, tr, n);
    var rel := s.tables.accepted[(pipe, recipient)];
    assert Backed(s, rel.jti, pipe, recipient, rel.epoch);
    assert n > 0;
    PastIsHistory(w, actions, tr, n, 0);
    PastIsHistory(w, actions, tr, n, s.invites[rel.jti].readAt);
    EpochsGrow(w, actions, tr, s.invites[rel.jti].readAt, n, pipe);
  }

  /**
   A first redemption leaves a relationship that renewal accepts exactly when no revocation raised the
   Pipe's epoch between the redemption's epoch check and its write. Otherwise the row is stale at once.
   */
  lemma AcceptanceIsCurrentIffUnrevoked(w: World, actions: seq<Action>, tr: seq<State>, n: nat, t: nat)
    requires IsRun(w, actions, tr) && n < |actions| && FirstRedemption(tr[n], t)
    requires actions[n].RedeemCommit? && actions[n].t == t && !Blank(actions[n].session)
    ensures var th := tr[n].threads[t];
      && th.stage.readAt < n
      && CurrentIffUnrevoked(tr[th.stage.readAt].tables, tr[n].tables,
                             tr[n + 1].tables, th.invite.pipe, th.recipient)
  {
    hide Next, Epoch, CurrentIffUnrevoked, Blank;
    CommitRead(w, actions, tr, n, t);
  }

  lemma CommitRead(w: World, actions: seq<Action>, tr: seq<State>, n: nat, t: nat)
    requires IsRun(w, actions, tr) && n < |actions| && FirstRedemption(tr[n], t)
    requires actions[n].RedeemCommit? && actions[n].t == t && !Blank(actions[n].session)
    ensures var th := tr[n].threads[t];
      && th.stage.readAt < n
      && CurrentIffUnrevoked(tr[th.stage.readAt].tables, tr[n].tables,
                             tr[n + 1].tables, th.invite.pipe, th.recipient)
      && (th.invite.pipe, th.recipient) in tr[n + 1].tables.accepted
      && tr[n + 1].tables.accepted[(th.invite.pipe, th.recipient)].epoch ==
          Epoch(tr[th.stage.readAt].tables, th.invite.pipe)
  {
    hide Next, Epoch, CurrentIffUnrevoked, Blank;
    var s := tr[n];
    var th := s.threads[t];
    RunThread(w, actions, tr, n, t);
    assert n > 0;
    PastIsHistory(w, actions, tr, n, 0);
    PastIsHistory(w, actions, tr, n, th.stage.readAt);
    EpochsGrow(w, actions, tr, th.stage.readAt, n, th.invite.pipe);
    assert Follows(actions, tr, n);
    RedeemCommitEffect(s, t, actions[n].session, tr[th.stage.readAt].tables);
  }

  /**
   The relationship's epoch goes back at a first redemption exactly when the same client, since this
   redemption read the epoch, came to hold a relationship of a higher one; a revocation then raised the
   epoch in between.
   */
  lemma AcceptanceLowersIffNewer(w: World, actions: seq<Action>, tr: seq<State>, n: nat, t: nat)
    requires IsRun(w, actions, tr) && n < |actions| && FirstRedemption(tr[n], t)
    requires actions[n].RedeemCommit? && actions[n].t == t && !Blank(actions[n].session)
    ensures var th := tr[n].threads[t];
      && th.stage.readAt < n
      && LowersIffNewer(tr[th.stage.readAt].tables, tr[n].tables, tr[n + 1].tables, th.invite.pipe, th.recipient)
  {
    hide Next, Epoch, CurrentIffUnrevoked, Blank;
    var th := tr[n].threads[t];
    CommitRead(w, actions, tr, n, t);
    if (th.invite.pipe, th.recipient) in tr[n].tables.accepted {
      AcceptedEpoch(w, actions, tr, n, th.invite.pipe, th.recipient);
    }
    if (th.invite.pipe, th.recipient) in tr[th.stage.readAt].tables.accepted {
      AcceptedEpoch(w, actions, tr, th.stage.readAt, th.invite.pipe, th.recipient);
    }
  }
}
