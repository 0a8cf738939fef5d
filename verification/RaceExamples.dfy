/**
 Three races of the exact-access protocol, played out: what the exact conditions of
 RevokeRaisesIffUncontended, AcceptanceIsCurrentIffUnrevoked and AcceptanceLowersIffNewer rule out does happen.
 */
module RaceExamples {
  import opened Units
  import opened Wrappers
  import opened Credentials
  import opened ExactTables
  import opened ExactAccess
  import opened HonestAccess

  lemma RunsRevoke(m: State, t: nat)
    requires t in m.threads && m.threads[t].Revoking?
    ensures var th := m.threads[t];
      Effect(m, RevokeCommit(t)) == DoRevoke(m, {t}, th.revokePipe, PIPE_ACCESS, th.revokePipe, th.newEpoch)
  {
    hide DoShareMint, DoRedeemCheckRevoked, DoRedeemCheckEpoch, DoRedeemCommit, DoRedeemMint, DoRenewCheckRevoked,
      DoRenewCheckEpoch, DoRenewMint, DoRevoke, DoOpenCheckRevoked, DoOpenCheckEpoch, StartEffect;
  }

  lemma Reads(s: State, t: nat, pipe: string)
    requires t !in s.threads
    ensures Effect(s, RevokeRead(t, pipe)) == SetThread(t, Revoking(pipe, Epoch(s.tables, pipe) + 1, |s.past|))
  {
    hide Effect, Epoch;
    Starts(s, RevokeRead(t, pipe));
  }

  /** A committed revocation of an epoch not below the current one: the epoch is then this one. */
  lemma Commits(m: State, t: nat, pipe: string, epoch: nat)
    requires t in m.threads && m.threads[t].Revoking? && m.threads[t].revokePipe == pipe
      && m.threads[t].newEpoch == epoch
    requires !Blank(pipe) && |pipe| <= 8192 && 0 < epoch && Epoch(m.tables, pipe) <= epoch
    ensures var n := Next(m, RevokeCommit(t));
      && Epoch(n.tables, pipe) == epoch && n.threads == m.threads - {t}
      && n.tables.redemptions == m.tables.redemptions && n.tables.accepted == m.tables.accepted
  {
    hide Effect, Blank;
    RunsRevoke(m, t);
    AccessIsNotBlank();
  }

  lemma AccessIsNotBlank()
    ensures !Blank(PIPE_ACCESS)
  {
    assert !IsSpace(PIPE_ACCESS[0]);
  }

  /** Two revocations that both read before either commits raise the epoch once. */
  lemma TwoRevocationsRaiseOnce(s: State, t: nat, u: nat, pipe: string)
    requires t !in s.threads && u !in s.threads && t != u && !Blank(pipe) && |pipe| <= 8192
    ensures var m := After(s, [RevokeRead(t, pipe), RevokeRead(u, pipe)]);
      var n := After(m, [RevokeCommit(t), RevokeCommit(u)]);
      Epoch(n.tables, pipe) == Epoch(s.tables, pipe) + 1
  {
    hide Effect, Epoch, After, Blank;
    Two(s, RevokeRead(t, pipe), RevokeRead(u, pipe));
    Reads(s, t, pipe);
    var s1 := Next(s, RevokeRead(t, pipe));
    Reads(s1, u, pipe);
    var m := Next(s1, RevokeRead(u, pipe));
    Two(m, RevokeCommit(t), RevokeCommit(u));
    Commits(m, t, pipe, Epoch(s.tables, pipe) + 1);
    Commits(Next(m, RevokeCommit(t)), u, pipe, Epoch(s.tables, pipe) + 1);
  }

  /** A revocation between a redemption's epoch check and its write leaves a relationship below the epoch. */
  lemma OvertakenRedemptionIsStale(s: State, t: nat, u: nat, session: string)
    requires FirstRedemption(s, t) && u !in s.threads && t != u && !Blank(session)
    requires var i := s.threads[t].invite; |i.pipe| <= 8192 && i.epoch == Epoch(s.tables, i.pipe)
    ensures var th := s.threads[t];
      var m := After(s, [RevokeRead(u, th.invite.pipe), RevokeCommit(u)]);
      var n := Next(m, RedeemCommit(t, session));
      && (th.invite.pipe, th.recipient) in n.tables.accepted
      && n.tables.accepted[(th.invite.pipe, th.recipient)].epoch < Epoch(n.tables, th.invite.pipe)
  {
    hide Effect, Epoch, After, Blank;
    var th := s.threads[t];
    var pipe := th.invite.pipe;
    Two(s, RevokeRead(u, pipe), RevokeCommit(u));
    Reads(s, u, pipe);
    var s1 := Next(s, RevokeRead(u, pipe));
    Commits(s1, u, pipe, Epoch(s.tables, pipe) + 1);
    var m := Next(s1, RevokeCommit(u));
    RunsRedeem(m, t, session, "");
    SameEpoch(m.tables, Next(m, RedeemCommit(t, session)).tables, pipe);
  }

  lemma SameEpoch(a: Tables, b: Tables, pipe: string)
    requires a.revocations == b.revocations
    ensures Epoch(a, pipe) == Epoch(b, pipe)
  {}

  // ---- an overtaken redemption replaces a newer relationship

  lemma {:induction false} OtherThreadsStay(s: State, actions: seq<Action>, t: nat)
    requires t in s.threads && forall a | a in actions :: ByAnother(a, t)
    ensures var n := After(s, actions); t in n.threads && n.threads[t] == s.threads[t]
  {
    hide Next;
    if actions != [] {
      var k := |actions| - 1;
      OtherThreadsStay(s, actions[..k], t);
      OtherThreadStays(After(s, actions[..k]), actions[k], t);
    }
  }

  /** Share and redeem, as an undisturbed client does. */
  function ShareAndRedeem(s: State, p: Plan): seq<Action>
    requires p.pipe in s.world
  {
    ShareActions(p) + (ProveAndVerify(s, p) + RedeemActions(p))
  }

  lemma SharesAndRedeems(s: State, p: Plan)
    requires ValidWorld(s.world) && Feasible(s, p)
    ensures Leased(s, After(s, ShareAndRedeem(s, p)), p)
  {
    WorldHasGoodKeys(s.world, p.pipe);
    hide After, Prepared, Feasible, ValidWorld, Invited, Leased, ShareActions, ProveAndVerify, RedeemActions;
    var shared := After(s, ShareActions(p));
    Shares(s, p);
    var verified := After(shared, ProveAndVerify(s, p));
    Proves(s, shared, p);
    RedemptionRuns(s, verified, p);
    AfterAppend(s, ShareActions(p), ProveAndVerify(s, p) + RedeemActions(p));
    AfterAppend(shared, ProveAndVerify(s, p), RedeemActions(p));
  }

  /** The relationship that redemption thread t's client holds, if any. */
  function HeldEpoch(s: State, pipe: string, client: string): Option<nat> {
    if (pipe, client) in s.tables.accepted then Some(s.tables.accepted[(pipe, client)].epoch) else None
  }

  lemma OwnActions(s: State, p: Plan, t: nat)
    requires p.pipe in s.world && p.t != t
    ensures forall a | a in ShareAndRedeem(s, p) :: ByAnother(a, t)
  {}

  /**
   A redemption has checked the epoch. The Pipe is revoked, shared again, and the same client redeems the
   new invite. Then the first redemption commits, and lowers the epoch of the client's relationship.
   */
  lemma OvertakenRedemptionLowersEpoch(s: State, t: nat, u: nat, p: Plan, session: string)
    requires ValidWorld(s.world) && FirstRedemption(s, t) && u !in s.threads && t != u && !Blank(session)
    requires var th := s.threads[t];
      && th.invite.pipe == p.pipe && th.recipient == p.client && p.t != t && th.invite.jti != p.inviteJti
      && |p.pipe| <= 8192 && th.invite.epoch == Epoch(s.tables, p.pipe)
    requires Feasible(After(s, [RevokeRead(u, p.pipe), RevokeCommit(u)]), p)
    ensures var m := After(s, [RevokeRead(u, p.pipe), RevokeCommit(u)]);
      var n := After(m, ShareAndRedeem(m, p));
      && HeldEpoch(n, p.pipe, p.client) == Some(Epoch(s.tables, p.pipe) + 1)
      && HeldEpoch(Next(n, RedeemCommit(t, session)), p.pipe, p.client) == Some(Epoch(s.tables, p.pipe))
  {
    hide Effect, Epoch, After, Blank, ValidWorld, Feasible, ShareAndRedeem, FreshId;
    var th := s.threads[t];
    Two(s, RevokeRead(u, p.pipe), RevokeCommit(u));
    Reads(s, u, p.pipe);
    var s1 := Next(s, RevokeRead(u, p.pipe));
    Commits(s1, u, p.pipe, Epoch(s.tables, p.pipe) + 1);
    var m := Next(s1, RevokeCommit(u));
    SameWorld(s1, u);
    PlansInWorld(m, p);
    SharesAndRedeems(m, p);
    OwnActions(m, p, t);
    OtherThreadsStay(m, ShareAndRedeem(m, p), t);
    RunsRedeem(After(m, ShareAndRedeem(m, p)), t, session, "");
  }

  lemma PlansInWorld(m: State, p: Plan)
    requires Feasible(m, p)
    ensures p.pipe in m.world
  {}

  lemma SameWorld(m: State, t: nat)
    requires t in m.threads && m.threads[t].Revoking?
    ensures Next(m, RevokeCommit(t)).world == m.world
  {
    hide Effect, RevokeTx;
    RunsRevoke(m, t);
  }
}
