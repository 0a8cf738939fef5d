/**
 The protocol does open: from any state of a valid world, an owner who shares and a client who redeems and
 opens in time, one after the other and with no revocation in the way, end in a recorded open.
 */
module HonestAccess {
  import opened Units
  import opened Wrappers
  import opened Credentials
  import opened ExactTables
  import opened ExactAccess
  import SM = SigningMessages

  function After(s: State, actions: seq<Action>): State {
    if actions == [] then s else Next(After(s, actions[..|actions| - 1]), actions[|actions| - 1])
  }

  lemma {:induction false} AfterAppend(s: State, a: seq<Action>, b: seq<Action>)
    ensures After(s, a + b) == After(After(s, a), b)
  {
    hide Next;
    if b == [] {
      assert a + b == a;
    } else {
      AfterAppend(s, a, b[..|b| - 1]);
      assert (a + b)[..|a + b| - 1] == a + b[..|b| - 1];
    }
  }

  /** Who does what and when: the thread, the Pipe, its client, the clock of each call, and the fresh texts. */
  datatype Plan = Plan(
    t: nat, pipe: string, client: string, ttl: Duration, wall: Time,
    shareAt: Time, redeemAt: Time, openAt: Time,
    inviteJti: string, leaseJti: string, session: string, challenge: string, nonce: string)

  /** The client comes while the invite, and then the lease, is valid. */
  predicate InTime(p: Plan) {
    && p.shareAt != ZERO_TIME && p.redeemAt != ZERO_TIME && p.openAt != ZERO_TIME
    && p.shareAt - MAX_CLOCK_SKEW <= p.redeemAt < p.shareAt + DEFAULT_INVITE_TTL
    && p.redeemAt - MAX_CLOCK_SKEW <= p.openAt < p.redeemAt + LeaseLifetime(p)
  }

  function LeaseLifetime(p: Plan): Duration {
    RedemptionLifetime(p.ttl, p.shareAt + DEFAULT_INVITE_TTL, p.redeemAt)
  }

  /** Nothing stands in the way: fresh identifiers, valid credentials, and no revocation of either of them. */
  ghost predicate Feasible(s: State, p: Plan) {
    && p.pipe in s.world && p.t !in s.threads
    && CanonicalPublic(p.client) && InTime(p) && Challenge(p.challenge) && Nonce(p.nonce) && !Blank(p.session)
    && FreshId(s, p.inviteJti) && FreshId(s, p.leaseJti) && p.inviteJti != p.leaseJti
    && (p.inviteJti, p.pipe) !in s.tables.redemptions
    && !IsRevoked(s.tables, p.pipe, EXACT_INVITE, p.inviteJti)
    && !IsRevoked(s.tables, p.pipe, ACCESS_LEASE, p.leaseJti)
  }

  predicate GoodKeys(pipe: string, k: Keys) {
    && PipeOwner(pipe, k.owner) && CanonicalPublic(k.owner) && CanonicalPublic(k.authority) && k.owner != k.authority
    && ValidString(pipe) && |pipe| <= MAX_PIPE_ID_LEN
  }

  lemma WorldHasGoodKeys(w: World, pipe: string)
    requires ValidWorld(w) && pipe in w
    ensures GoodKeys(pipe, w[pipe])
  {}

  ghost predicate Prepared(s: State, p: Plan) {
    Feasible(s, p) && GoodKeys(p.pipe, s.world[p.pipe])
  }

  lemma KeyLengths(s: State, p: Plan)
    requires Prepared(s, p)
    ensures |p.client| == |s.world[p.pipe].owner| == |s.world[p.pipe].authority| == 43
  {}

  lemma InWorld(s: State, p: Plan)
    requires Prepared(s, p)
    ensures p.pipe in s.world
  {}

  function Binding(s: State, p: Plan): OwnerBinding
    requires p.pipe in s.world
  {
    var keys := s.world[p.pipe];
    OwnerBinding(VERSION, BINDING_TYPE, keys.owner, keys.authority, p.pipe, Epoch(s.tables, p.pipe))
  }

  function Invite(s: State, p: Plan): ExactInvite
    requires p.pipe in s.world
  {
    ExactInvite(VERSION, INVITE_TYPE, s.world[p.pipe].authority, p.pipe, Some(Binding(s, p)), p.inviteJti,
                p.shareAt, p.shareAt, p.shareAt + DEFAULT_INVITE_TTL, Epoch(s.tables, p.pipe), true)
  }

  function Lease(s: State, p: Plan): AccessLease
    requires p.pipe in s.world
  {
    AccessLease(VERSION, LEASE_TYPE, s.world[p.pipe].authority, p.client, p.pipe, p.leaseJti, p.redeemAt, p.redeemAt,
                p.redeemAt + LeaseLifetime(p), Epoch(s.tables, p.pipe))
  }

  function ShareActions(p: Plan): seq<Action> {
    [ShareRead(p.t, p.pipe), ShareMint(p.t, p.shareAt, p.inviteJti)]
  }

  function ProveAndVerify(s: State, p: Plan): seq<Action>
    requires p.pipe in s.world
  {
    [Sign(p.client, Proof(SM.REDEEM_PROOF_PURPOSE, [p.inviteJti, p.pipe, p.challenge])),
     RedeemVerify(p.t, Invite(s, p), p.client, p.challenge, p.redeemAt, p.wall, p.ttl)]
  }

  function RedeemActions(p: Plan): seq<Action> {
    [RedeemCheckRevoked(p.t), RedeemCheckEpoch(p.t), RedeemCommit(p.t, p.session), RedeemMint(p.t, p.leaseJti)]
  }

  function OpenActions(s: State, p: Plan): seq<Action>
    requires p.pipe in s.world
  {
    [Sign(p.client, Proof(SM.OPEN_PROOF_PURPOSE, [p.nonce, p.pipe])),
     OpenVerify(p.t, p.pipe, Lease(s, p), p.client, p.nonce, p.openAt, p.wall),
     OpenCheckRevoked(p.t), OpenCheckEpoch(p.t)]
  }

  function HonestActions(s: State, p: Plan): seq<Action>
    requires p.pipe in s.world
  {
    ShareActions(p) + (ProveAndVerify(s, p) + (RedeemActions(p) + OpenActions(s, p)))
  }

  /** The world, the tables and the identifiers not yet used are as in s. */
  ghost predicate Keeps(s: State, n: State, p: Plan) {
    n.world == s.world && n.tables == s.tables && p.leaseJti !in n.invites && n.leases == s.leases
  }

  ghost predicate Invited(s: State, n: State, p: Plan)
    requires p.pipe in s.world
  {
    && Keeps(s, n, p) && p.pipe in n.provisioned
    && (s.world[p.pipe].owner, BindingBody(Binding(s, p))) in n.signed
    && (s.world[p.pipe].authority, InviteBody(Invite(s, p))) in n.signed
  }

  lemma Two(s: State, a: Action, b: Action)
    ensures After(s, [a, b]) == Next(Next(s, a), b)
  {
    hide Next;
    assert [a, b][..1] == [a] && [a][..0] == [];
    assert After(s, [a]) == Next(s, a);
  }

  // ---- which code an action runs

  lemma RunsShareMint(m: State, t: nat, now: Time, jti: string)
    requires t in m.threads && m.threads[t].Sharing?
    ensures Effect(m, ShareMint(t, now, jti)) == DoShareMint(m, t, m.threads[t], now, jti)
  {
    hide DoShareMint, DoRedeemCheckRevoked, DoRedeemCheckEpoch, DoRedeemCommit, DoRedeemMint, DoRenewCheckRevoked,
      DoRenewCheckEpoch, DoRenewMint, DoRevoke, DoOpenCheckRevoked, DoOpenCheckEpoch, StartEffect;
  }

  lemma RunsRedeem(m: State, t: nat, session: string, jti: string)
    requires t in m.threads && m.threads[t].Redeeming?
    ensures m.threads[t].stage.Verified? ==>
      Effect(m, RedeemCheckRevoked(t)) == DoRedeemCheckRevoked(m, t, m.threads[t])
    ensures m.threads[t].stage.NotRevoked? ==> Effect(m, RedeemCheckEpoch(t)) == DoRedeemCheckEpoch(m, t, m.threads[t])
    ensures m.threads[t].stage.EpochMatched? ==>
      Effect(m, RedeemCommit(t, session)) == DoRedeemCommit(m, t, m.threads[t], session)
    ensures m.threads[t].stage.Committed? ==> Effect(m, RedeemMint(t, jti)) == DoRedeemMint(m, t, m.threads[t], jti)
  {
    hide DoShareMint, DoRedeemCheckRevoked, DoRedeemCheckEpoch, DoRedeemCommit, DoRedeemMint, DoRenewCheckRevoked,
      DoRenewCheckEpoch, DoRenewMint, DoRevoke, DoOpenCheckRevoked, DoOpenCheckEpoch, StartEffect;
  }

  lemma RunsOpen(m: State, t: nat)
    requires t in m.threads && m.threads[t].Opening?
    ensures !m.threads[t].unrevoked ==> Effect(m, OpenCheckRevoked(t)) == DoOpenCheckRevoked(m, t, m.threads[t])
    ensures m.threads[t].unrevoked ==> Effect(m, OpenCheckEpoch(t)) == DoOpenCheckEpoch(m, t, m.threads[t])
  {
    hide DoShareMint, DoRedeemCheckRevoked, DoRedeemCheckEpoch, DoRedeemCommit, DoRedeemMint, DoRenewCheckRevoked,
      DoRenewCheckEpoch, DoRenewMint, DoRevoke, DoOpenCheckRevoked, DoOpenCheckEpoch, StartEffect;
  }

  lemma Starts(n: State, a: Action)
    requires a.Sign? || (!a.RevokeCall? && a.t !in n.threads)
    ensures Effect(n, a) == StartEffect(n, a)
  {
    hide StartEffect, ThreadEffect;
  }

  // ---- which threads an action touches

  /** The change ends or moves no thread but this one. */
  predicate Touches(c: Change, t: nat) {
    match c
    case Idle => true
    case WriteRevocation(ended, _) => ended <= {t}
    case AddSignature(_, _) => true
    case _ => c.t == t
  }

  lemma ThreadTouches(s: State, a: Action, t: nat, th: Thread)
    ensures Touches(ThreadEffect(s, a, t, th), t)
  {
    hide RevokeTx, RedeemTx, NewAccessLease, NewExactInvite, IsRevoked, Epoch, Challenge, FreshId;
  }

  lemma StartTouches(s: State, a: Action)
    requires !a.RevokeCall?
    ensures var c := StartEffect(s, a); if a.Sign? then c.Idle? || c.AddSignature? else Touches(c, a.t)
  {
    hide Redeemable, Openable, Loads, BindingVerified, CanonicalPublic, IsAuthority, IsOwner, Epoch;
  }

  /** The action belongs to another thread than t. */
  predicate ByAnother(a: Action, t: nat) {
    a.Sign? || (!a.RevokeCall? && a.t != t)
  }

  lemma AppliedElsewhere(s: State, c: Change, u: nat, t: nat)
    requires t in s.threads && u != t && Touches(c, u)
    ensures var n := Applied(s, c); t in n.threads && n.threads[t] == s.threads[t]
  {}

  lemma OtherThreadStays(s: State, a: Action, t: nat)
    requires t in s.threads && ByAnother(a, t)
    ensures var n := Next(s, a); t in n.threads && n.threads[t] == s.threads[t]
  {
    hide StartEffect, ThreadEffect, Applied;
    StartTouches(s, a);
    if !a.Sign? && a.t in s.threads {
      ThreadTouches(s, a, a.t, s.threads[a.t]);
    }
    AppliedElsewhere(s, Effect(s, a), if a.Sign? then t + 1 else a.t, t);
  }

  // ---- share

  lemma ShareReads(s: State, p: Plan)
    requires p.pipe in s.world && p.t !in s.threads
    ensures Effect(s, ShareRead(p.t, p.pipe)) == SetThread(p.t, Sharing(p.pipe, Epoch(s.tables, p.pipe), |s.past|))
  {}

  lemma ShareMints(s: State, m: State, p: Plan, at: nat)
    requires Prepared(s, p) && m.world == s.world && FreshId(m, p.inviteJti)
    requires p.t in m.threads && m.threads[p.t] == Sharing(p.pipe, Epoch(s.tables, p.pipe), at)
    ensures Effect(m, ShareMint(p.t, p.shareAt, p.inviteJti)) == MintInvite(p.t, Binding(s, p), Invite(s, p), at)
  {
    hide Effect, Epoch, CanonicalPublic, Blank, IsRevoked;
    RunsShareMint(m, p.t, p.shareAt, p.inviteJti);
  }

  lemma Shares(s: State, p: Plan)
    requires Prepared(s, p)
    ensures var n := After(s, ShareActions(p)); Invited(s, n, p) && p.t !in n.threads
  {
    hide Effect, Epoch, After, CanonicalPublic, Blank, IsRevoked, GoodKeys;
    Two(s, ShareRead(p.t, p.pipe), ShareMint(p.t, p.shareAt, p.inviteJti));
    ShareReads(s, p);
    ShareMints(s, Next(s, ShareRead(p.t, p.pipe)), p, |s.past|);
  }

  // ---- redeem

  lemma InviteHolds(s: State, n: State, p: Plan)
    requires Prepared(s, p) && Invited(s, n, p)
    ensures InviteVerified(Invite(s, p), p.redeemAt, p.wall, p.pipe, n.signed)
    ensures BindingVerified(Binding(s, p), n.signed) && Loads(n, p.pipe, Binding(s, p))
  {
    hide CanonicalPublic, Blank, IsRevoked, Epoch;
    KeyLengths(s, p);
  }

  lemma Presentable(s: State, n: State, p: Plan)
    requires Prepared(s, p) && Invited(s, n, p)
    requires (p.client, Proof(SM.REDEEM_PROOF_PURPOSE, [p.inviteJti, p.pipe, p.challenge])) in n.signed
    ensures Redeemable(n, Invite(s, p), p.client, p.challenge, p.redeemAt, p.wall)
  {
    hide InviteVerified, BindingVerified, Loads, CanonicalPublic;
    InviteHolds(s, n, p);
  }

  lemma Signs(n: State, key: string, purpose: string, parts: seq<string>)
    ensures Effect(n, Sign(key, Proof(purpose, parts))) == AddSignature(key, Proof(purpose, parts))
  {
    hide Effect, IsAuthority, IsOwner;
    Starts(n, Sign(key, Proof(purpose, parts)));
  }

  lemma Verifies(s: State, n: State, p: Plan)
    requires Prepared(s, p) && Invited(s, n, p) && p.t !in n.threads
    requires (p.client, Proof(SM.REDEEM_PROOF_PURPOSE, [p.inviteJti, p.pipe, p.challenge])) in n.signed
    ensures Effect(n, RedeemVerify(p.t, Invite(s, p), p.client, p.challenge, p.redeemAt, p.wall, p.ttl))
         == SetThread(p.t, Redeeming(Invite(s, p), p.client, p.redeemAt, p.ttl, Verified))
  {
    hide Effect, Redeemable, Prepared, Feasible, Invite;
    InWorld(s, p);
    Presentable(s, n, p);
    Starts(n, RedeemVerify(p.t, Invite(s, p), p.client, p.challenge, p.redeemAt, p.wall, p.ttl));
  }

  lemma Proves(s: State, n: State, p: Plan)
    requires Prepared(s, p) && Invited(s, n, p) && p.t !in n.threads
    ensures var m := After(n, ProveAndVerify(s, p));
      && Keeps(s, m, p) && p.pipe in m.provisioned && p.t in m.threads
      && m.threads[p.t] == Redeeming(Invite(s, p), p.client, p.redeemAt, p.ttl, Verified)
  {
    hide Effect, After, Prepared, Feasible, Invite, Binding;
    InWorld(s, p);
    var acts := ProveAndVerify(s, p);
    Two(n, acts[0], acts[1]);
    Signs(n, p.client, SM.REDEEM_PROOF_PURPOSE, [p.inviteJti, p.pipe, p.challenge]);
    Verifies(s, Next(n, acts[0]), p);
  }

  /** The redemption of this plan has reached `stage`. */
  ghost predicate Redeems(s: State, m: State, p: Plan, stage: RedeemStage)
    requires p.pipe in s.world
  {
    p.t in m.threads && m.threads[p.t] == Redeeming(Invite(s, p), p.client, p.redeemAt, p.ttl, stage)
  }

  lemma Checks(s: State, m: State, p: Plan)
    requires Prepared(s, p) && Keeps(s, m, p)
    ensures Redeems(s, m, p, Verified) ==>
              Effect(m, RedeemCheckRevoked(p.t)) ==
                  SetThread(p.t, Redeeming(Invite(s, p), p.client, p.redeemAt, p.ttl, NotRevoked))
    ensures Redeems(s, m, p, NotRevoked) ==>
              Effect(m, RedeemCheckEpoch(p.t)) ==
                  SetThread(p.t, Redeeming(Invite(s, p), p.client, p.redeemAt, p.ttl, EpochMatched(|m.past|)))
  {
    hide Effect, Epoch, CanonicalPublic, Blank, IsRevoked, GoodKeys, FreshId;
    if p.t in m.threads && m.threads[p.t].Redeeming? {
      RunsRedeem(m, p.t, "", "");
    }
  }

  /** The tables with this plan's redemption written. */
  function Redeemed(s: State, p: Plan): Tables {
    s.tables.(redemptions := s.tables.redemptions[(p.inviteJti, p.pipe) := p.client],
              accepted := s.tables.accepted[(p.pipe, p.client) := Relationship(p.inviteJti, Epoch(s.tables, p.pipe))])
  }

  lemma NamesAreNotBlank(s: State, p: Plan)
    requires Prepared(s, p)
    ensures !Blank(p.inviteJti) && !Blank(p.pipe) && !Blank(p.client)
  {
    hide IsRevoked, Epoch;
    assert p.inviteJti[0] == 'j' && p.pipe[0] == 'p';
    assert Base64UrlValue(p.client[0]) >= 0 && !IsSpace(p.client[0]);
  }

  lemma Commits(s: State, m: State, p: Plan, at: nat)
    requires Prepared(s, p) && Keeps(s, m, p) && Redeems(s, m, p, EpochMatched(at))
    ensures Effect(m, RedeemCommit(p.t, p.session))
         == WriteRedemption(p.t, Redeeming(Invite(s, p), p.client, p.redeemAt, p.ttl, Committed), Redeemed(s, p))
  {
    hide Effect, Blank, CanonicalPublic, Epoch, IsRevoked, GoodKeys, FreshId;
    NamesAreNotBlank(s, p);
    RunsRedeem(m, p.t, p.session, "");
  }

  lemma Mints(s: State, m: State, p: Plan)
    requires Prepared(s, p) && m.world == s.world && FreshId(m, p.leaseJti) && Redeems(s, m, p, Committed)
    ensures Effect(m, RedeemMint(p.t, p.leaseJti)) == MintLease(p.t, Lease(s, p), p.inviteJti)
  {
    hide Effect, Epoch, CanonicalPublic, Blank, IsRevoked;
    KeyLengths(s, p);
    RunsRedeem(m, p.t, "", p.leaseJti);
  }

  ghost predicate Leased(s: State, n: State, p: Plan)
    requires p.pipe in s.world
  {
    && n.world == s.world && n.tables == Redeemed(s, p) && p.pipe in n.provisioned && p.t !in n.threads
    && (s.world[p.pipe].authority, LeaseBody(Lease(s, p))) in n.signed
  }

  lemma RedemptionRuns(s: State, m: State, p: Plan)
    requires Prepared(s, p) && Keeps(s, m, p) && p.pipe in m.provisioned && Redeems(s, m, p, Verified)
    ensures Leased(s, After(m, RedeemActions(p)), p)
  {
    hide Effect, After, Prepared, Feasible, Invite, Lease, Redeemed;
    InWorld(s, p);
    var a := RedeemActions(p);
    assert a == [a[0], a[1]] + [a[2], a[3]];
    AfterAppend(m, [a[0], a[1]], [a[2], a[3]]);
    Two(m, a[0], a[1]);
    Checks(s, m, p);
    var m1 := Next(m, a[0]);
    Checks(s, m1, p);
    var m2 := Next(m1, a[1]);
    Two(m2, a[2], a[3]);
    Commits(s, m2, p, |m1.past|);
    var m3 := Next(m2, a[2]);
    assert FreshId(m3, p.leaseJti) by { LeaseIdIsFresh(s, p); }
    Mints(s, m3, p);
    LeaseIssuer(s, p);
  }

  lemma LeaseIdIsFresh(s: State, p: Plan)
    requires Prepared(s, p)
    ensures FreshJti(p.leaseJti) && p.leaseJti !in s.leases
  {}

  lemma LeaseIssuer(s: State, p: Plan)
    requires p.pipe in s.world
    ensures Lease(s, p).issuer == s.world[p.pipe].authority
  {}

  // ---- open

  lemma LeaseHolds(s: State, n: State, p: Plan)
    requires Prepared(s, p) && Leased(s, n, p)
    requires (p.client, Proof(SM.OPEN_PROOF_PURPOSE, [p.nonce, p.pipe])) in n.signed
    ensures Openable(n, p.pipe, Lease(s, p), p.client, p.nonce, p.openAt, p.wall)
  {
    hide Epoch, Redeemed, CanonicalPublic, Blank, IsRevoked;
    KeyLengths(s, p);
  }

  /** The open of this plan stands here. */
  ghost predicate Opens(s: State, m: State, p: Plan, unrevoked: bool)
    requires p.pipe in s.world
  {
    && m.tables == Redeemed(s, p) && p.t in m.threads
    && m.threads[p.t] == Opening(p.pipe, Lease(s, p), p.client, unrevoked)
  }

  lemma OpenVerifies(s: State, n: State, p: Plan)
    requires Prepared(s, p) && Leased(s, n, p)
    requires (p.client, Proof(SM.OPEN_PROOF_PURPOSE, [p.nonce, p.pipe])) in n.signed
    ensures Effect(n, OpenVerify(p.t, p.pipe, Lease(s, p), p.client, p.nonce, p.openAt, p.wall))
         == SetThread(p.t, Opening(p.pipe, Lease(s, p), p.client, false))
  {
    hide Effect, Openable, Prepared, Feasible, Lease;
    InWorld(s, p);
    LeaseHolds(s, n, p);
    Starts(n, OpenVerify(p.t, p.pipe, Lease(s, p), p.client, p.nonce, p.openAt, p.wall));
  }

  lemma OpenChecks(s: State, m: State, p: Plan)
    requires Prepared(s, p)
    ensures Opens(s, m, p, false) ==>
              Effect(m, OpenCheckRevoked(p.t)) == SetThread(p.t, Opening(p.pipe, Lease(s, p), p.client, true))
    ensures Opens(s, m, p, true) ==>
              Effect(m, OpenCheckEpoch(p.t)) == RecordOpen(p.t, Open(Lease(s, p), p.client, p.pipe, |m.past|))
  {
    hide Effect, CanonicalPublic, Blank, GoodKeys, FreshId;
    if p.t in m.threads && m.threads[p.t].Opening? {
      RunsOpen(m, p.t);
    }
  }

  lemma OpenRuns(s: State, n: State, p: Plan)
    requires Prepared(s, p) && Leased(s, n, p)
    ensures exists o | o in After(n, OpenActions(s, p)).opens ::
      o.client == p.client && o.pipe == p.pipe && o.lease == Lease(s, p)
  {
    hide Effect, After, Prepared, Feasible, Lease, Redeemed;
    InWorld(s, p);
    var a := OpenActions(s, p);
    assert a == [a[0], a[1]] + [a[2], a[3]];
    AfterAppend(n, [a[0], a[1]], [a[2], a[3]]);
    Two(n, a[0], a[1]);
    Signs(n, p.client, SM.OPEN_PROOF_PURPOSE, [p.nonce, p.pipe]);
    var n1 := Next(n, a[0]);
    OpenVerifies(s, n1, p);
    var n2 := Next(n1, a[1]);
    Two(n2, a[2], a[3]);
    OpenChecks(s, n2, p);
    var n3 := Next(n2, a[2]);
    OpenChecks(s, n3, p);
    assert Open(Lease(s, p), p.client, p.pipe, |n3.past|) in Next(n3, a[3]).opens;
  }

  /** The plan ends in an open by this client, on a lease from the invite it redeemed. */
  lemma HonestClientOpens(s: State, p: Plan)
    requires ValidWorld(s.world) && Feasible(s, p)
    ensures exists o | o in After(s, HonestActions(s, p)).opens ::
      o.client == p.client && o.pipe == p.pipe && o.lease == Lease(s, p)
  {
    WorldHasGoodKeys(s.world, p.pipe);
    hide After, Prepared, Feasible, ValidWorld, Invited, Leased, Lease, ShareActions, ProveAndVerify, RedeemActions,
      OpenActions;
    var shared := After(s, ShareActions(p));
    Shares(s, p);
    var verified := After(shared, ProveAndVerify(s, p));
    Proves(s, shared, p);
    var leased := After(verified, RedeemActions(p));
    RedemptionRuns(s, verified, p);
    OpenRuns(s, leased, p);
    AfterAppend(s, ShareActions(p), ProveAndVerify(s, p) + (RedeemActions(p) + OpenActions(s, p)));
    AfterAppend(shared, ProveAndVerify(s, p), RedeemActions(p) + OpenActions(s, p));
    AfterAppend(verified, RedeemActions(p), OpenActions(s, p));
  }
}
