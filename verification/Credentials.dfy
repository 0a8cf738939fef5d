/**
 The exact-Pipe credentials: access lease, owner binding and one-time invite
 (internal/accesslease), and the lifetimes the Exact Authority mints leases with
 (internal/exactauthority).

 Signatures are symbolic: a key has signed exactly the bodies paired with it in a `Signed` set.
 */
module Credentials {
  import opened Units
  import opened Wrappers

  // Times count from the zero time.Time, so that ZERO_TIME is IsZero().
  const ZERO_TIME: Time := 0
  const MAX_CLOCK_SKEW: Duration := 30 * SECOND
  const MAX_TTL: Duration := 600 * SECOND
  const DEFAULT_INVITE_TTL: Duration := 600 * SECOND
  const MAX_DURATION: Duration := 0x7fff_ffff_ffff_ffff

  const VERSION := 1
  const LEASE_TYPE := "pipe.open.access"
  const INVITE_TYPE := "pipe.open.invite"
  const BINDING_TYPE := "exact.owner.binding"
  const MAX_FIELD_LEN := 4096
  const MAX_PIPE_ID_LEN := 256

  datatype AccessLease = AccessLease(
    version: int, kind: string, issuer: string, subject: string, pipe: string, jti: string,
    issuedAt: Time, notBefore: Time, expiresAt: Time, epoch: nat)

  datatype OwnerBinding = OwnerBinding(
    version: int, kind: string, owner: string, authorityKey: string, pipe: string, epoch: nat)

  // `binding` is the decoded embedded binding; None when its text does not decode.
  datatype ExactInvite = ExactInvite(
    version: int, kind: string, issuer: string, pipe: string, binding: Option<OwnerBinding>, jti: string,
    issuedAt: Time, notBefore: Time, expiresAt: Time, epoch: nat, oneTime: bool)

  /** What a signature covers. SigningMessages shows that the families never share a message. */
  datatype Body =
    | LeaseBody(lease: AccessLease)
    | InviteBody(invite: ExactInvite)
    | BindingBody(binding: OwnerBinding)
    | Proof(purpose: string, parts: seq<string>)

  type Signed = set<(string, Body)>

  // time.Time.Sub saturates at the int64 range.
  function Sub(a: Time, b: Time): Duration {
    var d := a - b;
    if d > MAX_DURATION then MAX_DURATION
    else if d < -MAX_DURATION - 1 then -MAX_DURATION - 1
    else d
  }

  predicate ValidString(s: string) {
    0 < |s| <= MAX_FIELD_LEN
  }

  function Base64UrlValue(c: char): int {
    if 'A' <= c <= 'Z' then c as int - 'A' as int
    else if 'a' <= c <= 'z' then c as int - 'a' as int + 26
    else if '0' <= c <= '9' then c as int - '0' as int + 52
    else if c == '-' then 62
    else if c == '_' then 63
    else -1
  }

  /** PublicFromString succeeds: canonical unpadded base64url text of 32 bytes. */
  predicate CanonicalPublic(s: string) {
    && |s| == 43
    && (forall i | 0 <= i < 43 :: Base64UrlValue(s[i]) >= 0)
    && Base64UrlValue(s[42]) % 4 == 0
  }

  /** PipeIDFromOwner, with its digest idealised as collision free. */
  function PipeIdFromOwner(owner: string): string {
    "pip_" + owner
  }

  predicate PipeOwner(pipe: string, owner: string) {
    pipe != "" && pipe == PipeIdFromOwner(owner)
  }

  predicate BindingVerified(b: OwnerBinding, signed: Signed) {
    && b.version == VERSION && b.kind == BINDING_TYPE
    && ValidString(b.owner) && ValidString(b.authorityKey) && ValidString(b.pipe) && |b.pipe| <= MAX_PIPE_ID_LEN
    && CanonicalPublic(b.owner) && CanonicalPublic(b.authorityKey)
    && (b.owner, BindingBody(b)) in signed
  }

  predicate HasJtiPrefix(jti: string) {
    "jti_" <= jti
  }

  function Effective(now: Time, wall: Time): Time {
    if now == ZERO_TIME then wall else now
  }

  /** AccessLease.Verify; `wall` is the clock it falls back to for a zero `now`. */
  predicate LeaseVerified(
    l: AccessLease, public: string, subject: string, pipe: string, now: Time, wall: Time, signed: Signed)
  {
    var at := Effective(now, wall);
    && l.version == VERSION && l.kind == LEASE_TYPE
    && l.issuer == public && ValidString(l.issuer) && ValidString(l.subject)
    && ValidString(l.pipe) && ValidString(l.jti) && HasJtiPrefix(l.jti)
    && CanonicalPublic(l.subject)
    && |l.pipe| <= MAX_PIPE_ID_LEN
    && l.issuedAt != ZERO_TIME && l.notBefore != ZERO_TIME && l.expiresAt > l.issuedAt
    && l.issuedAt <= at + MAX_CLOCK_SKEW
    && l.notBefore <= at + MAX_CLOCK_SKEW
    && l.expiresAt > at
    && Sub(l.expiresAt, l.issuedAt) <= MAX_TTL
    && (subject != "" ==> l.subject == subject)
    && (pipe != "" ==> l.pipe == pipe)
    && (public, LeaseBody(l)) in signed
  }

  /** ExactInvite.Verify. */
  predicate InviteVerified(i: ExactInvite, now: Time, wall: Time, pipe: string, signed: Signed) {
    var at := Effective(now, wall);
    && i.version == VERSION && i.kind == INVITE_TYPE
    && ValidString(i.issuer) && ValidString(i.pipe) && ValidString(i.jti) && HasJtiPrefix(i.jti)
    && |i.pipe| <= MAX_PIPE_ID_LEN
    && i.oneTime
    && i.issuedAt != ZERO_TIME && i.notBefore != ZERO_TIME && i.expiresAt > i.issuedAt
    && i.issuedAt <= at + MAX_CLOCK_SKEW
    && i.notBefore <= at + MAX_CLOCK_SKEW
    && i.expiresAt > at
    && Sub(i.expiresAt, i.issuedAt) <= MAX_TTL
    && (pipe != "" ==> i.pipe == pipe)
    && i.binding.Some?
    && BindingVerified(i.binding.value, signed)
    && PipeOwner(i.pipe, i.binding.value.owner)
    && i.binding.value.authorityKey == i.issuer
    && i.binding.value.pipe == i.pipe
    && CanonicalPublic(i.issuer)
    && (i.issuer, InviteBody(i)) in signed
  }

  datatype MintError = InvalidSubjectOrPipe | SubjectNotCanonical | LifetimeOutsideWindow

  /** NewAccessLease up to its signature; `jti` is the fresh random identifier. */
  function NewAccessLease(
    issuer: string, subject: string, pipe: string, now: Time, lifetime: Duration, epoch: nat, jti: string
  ): (r: Result<AccessLease, MintError>)
    ensures r.Success? <==> CanonicalPublic(subject) && 0 < |pipe| <= 256 && 0 < lifetime <= 600 * SECOND
  {
    if !ValidString(subject) || !ValidString(pipe) || |pipe| > MAX_PIPE_ID_LEN then
      Failure(InvalidSubjectOrPipe)
    else if !CanonicalPublic(subject) then
      Failure(SubjectNotCanonical)
    else if lifetime <= 0 || lifetime > MAX_TTL then
      Failure(LifetimeOutsideWindow)
    else
      Success(AccessLease(VERSION, LEASE_TYPE, issuer, subject, pipe, jti, now, now, now + lifetime, epoch))
  }

  /** NewExactInvite up to its signature; the binding is the owner's, for this authority key. */
  function NewExactInvite(
    binding: OwnerBinding, pipe: string, now: Time, lifetime: Duration, epoch: nat, jti: string
  ): (r: Result<ExactInvite, MintError>)
    ensures r.Success? <==> 0 < |pipe| <= 256 && binding.pipe == pipe && 0 < lifetime <= 600 * SECOND
  {
    if !ValidString(pipe) || |pipe| > MAX_PIPE_ID_LEN || binding.pipe != pipe then
      Failure(InvalidSubjectOrPipe)
    else if lifetime <= 0 || lifetime > MAX_TTL then
      Failure(LifetimeOutsideWindow)
    else
      Success(ExactInvite(VERSION, INVITE_TYPE, binding.authorityKey, pipe, Some(binding), jti,
                          now, now, now + lifetime, epoch, true))
  }

  /** The lifetime redemption mints with: bounded by MAX_TTL and by what is left of the invite. */
  function RedemptionLifetime(configured: Duration, inviteExpires: Time, now: Time): (r: Duration) {
    var bounded := if configured <= 0 || configured > MAX_TTL then MAX_TTL else configured;
    var left := Sub(inviteExpires, now);
    var capped := if left < bounded && left > 0 then left else bounded;
    if capped <= 0 then MAX_TTL else capped
  }

  /** The lifetime of a renewed lease. */
  function RenewalLifetime(configured: Duration): Duration {
    if configured <= 0 || configured > MAX_TTL then MAX_TTL else configured
  }

  predicate IsBase32(c: char) {
    'A' <= c <= 'Z' || '2' <= c <= '7'
  }

  /** NewJTI: the fixed prefix and sixteen random bytes. */
  predicate FreshJti(jti: string) {
    |jti| == 30 && HasJtiPrefix(jti) && forall i | 4 <= i < 30 :: IsBase32(jti[i])
  }

  /** RandomChallenge: twenty-four random bytes. */
  predicate Challenge(c: string) {
    |c| == 39 && forall i | 0 <= i < 39 :: IsBase32(c[i])
  }

  /** randomNonce, the challenge of a tunnel open: twenty-four random bytes in base64url. */
  predicate Nonce(c: string) {
    |c| == 32 && forall i | 0 <= i < 32 :: Base64UrlValue(c[i]) >= 0
  }

  /**
   A lease minted at t under its own key verifies for its subject and Pipe at t' exactly when t is
   a real time and t - 30s <= t' < expiry.
   */
  lemma MintedLeaseWindow(
    issuer: string, subject: string, pipe: string, t: Time, lifetime: Duration, epoch: nat, jti: string,
    l: AccessLease, at: Time, wall: Time, signed: Signed)
    requires CanonicalPublic(issuer) && FreshJti(jti)
    requires NewAccessLease(issuer, subject, pipe, t, lifetime, epoch, jti) == Success(l)
    requires (issuer, LeaseBody(l)) in signed
    ensures LeaseVerified(l, issuer, subject, pipe, at, wall, signed)
            <==> t != ZERO_TIME && t - 30 * SECOND <= Effective(at, wall) < l.expiresAt
    ensures t < l.expiresAt == t + lifetime <= t + 600 * SECOND
    ensures l.issuer == issuer && l.subject == subject && l.pipe == pipe && l.jti == jti && l.epoch == epoch
  {
  }

  /** The owner's signed binding of this Pipe to this authority key. */
  predicate OwnersBinding(b: OwnerBinding, pipe: string, signed: Signed) {
    && b.version == VERSION && b.kind == BINDING_TYPE && b.pipe == pipe == PipeIdFromOwner(b.owner)
    && CanonicalPublic(b.owner) && CanonicalPublic(b.authorityKey)
    && (b.owner, BindingBody(b)) in signed
  }

  /**
   An invite minted at t under the key its binding names verifies for its Pipe at t' exactly when the owner
   signed that binding for the Pipe, t is a real time and t - 30s <= t' < expiry.
   */
  lemma MintedInviteWindow(
    binding: OwnerBinding, pipe: string, t: Time, lifetime: Duration, epoch: nat, jti: string,
    i: ExactInvite, at: Time, wall: Time, signed: Signed)
    requires FreshJti(jti)
    requires NewExactInvite(binding, pipe, t, lifetime, epoch, jti) == Success(i)
    requires (binding.authorityKey, InviteBody(i)) in signed
    ensures InviteVerified(i, at, wall, pipe, signed)
            <==> && OwnersBinding(binding, pipe, signed)
                 && t != ZERO_TIME && t - 30 * SECOND <= Effective(at, wall) < i.expiresAt
    ensures t < i.expiresAt == t + lifetime <= t + 600 * SECOND
    ensures i.issuer == binding.authorityKey && i.pipe == pipe && i.jti == jti && i.epoch == epoch && i.oneTime
  {
    assert |PipeIdFromOwner(binding.owner)| == 4 + |binding.owner|;
  }

  /** The lifetime in force: the configured one when it lies in (0, 10 minutes], ten minutes otherwise. */
  function InForce(configured: Duration): Duration {
    if 0 < configured <= 600 * SECOND then configured else 600 * SECOND
  }

  /**
   A lease minted by redeeming an invite that verifies at the real time t is always minted, is
   valid exactly in [t - 30s, expiry), and expires at the end of the lifetime in force or with the
   invite, whichever comes first.
   */
  lemma RedemptionLeaseWindow(
    invite: ExactInvite, subject: string, t: Time, configured: Duration, jti: string,
    at: Time, wall: Time, wallAtMint: Time, signed: Signed)
    requires t != ZERO_TIME && CanonicalPublic(subject) && FreshJti(jti)
    requires InviteVerified(invite, t, wallAtMint, invite.pipe, signed)
    ensures
      var minted := NewAccessLease(invite.issuer, subject, invite.pipe, t,
                                   RedemptionLifetime(configured, invite.expiresAt, t), invite.epoch, jti);
      && minted.Success?
      && minted.value.expiresAt == (if t + InForce(configured) <= invite.expiresAt then t + InForce(configured)
                                    else invite.expiresAt)
      && minted.value.expiresAt <= t + 600 * SECOND
      && ((invite.issuer, LeaseBody(minted.value)) in signed ==>
            (LeaseVerified(minted.value, invite.issuer, subject, invite.pipe, at, wall, signed)
             <==> t - 30 * SECOND <= Effective(at, wall) < minted.value.expiresAt))
  {
    var lifetime := RedemptionLifetime(configured, invite.expiresAt, t);
    assert 0 < lifetime <= 600 * SECOND && t + lifetime <= invite.expiresAt;
  }

  /** A renewed lease: minted for every configured lifetime, lasts the lifetime in force, same window. */
  lemma RenewalLeaseWindow(
    issuer: string, subject: string, pipe: string, t: Time, configured: Duration, epoch: nat, jti: string,
    at: Time, wall: Time, signed: Signed)
    requires t != ZERO_TIME && CanonicalPublic(issuer) && CanonicalPublic(subject) && FreshJti(jti)
    requires ValidString(pipe) && |pipe| <= MAX_PIPE_ID_LEN
    ensures
      var minted := NewAccessLease(issuer, subject, pipe, t, RenewalLifetime(configured), epoch, jti);
      && minted.Success?
      && minted.value.expiresAt == t + InForce(configured) <= t + 600 * SECOND
      && ((issuer, LeaseBody(minted.value)) in signed ==>
            (LeaseVerified(minted.value, issuer, subject, pipe, at, wall, signed)
             <==> t - 30 * SECOND <= Effective(at, wall) < minted.value.expiresAt))
  {
  }
}
