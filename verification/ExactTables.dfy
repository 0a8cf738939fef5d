/**
 The authority's tables for exact access: revocation epochs, one-time invite redemptions and
 accepted relationships (internal/store/store.go:1706-1884). Each transaction is a function of
 the tables; ExactStore is the object that runs it in place.
 */
module ExactTables {
  import opened Wrappers

  const PIPE_ACCESS := "pipe-access"
  const PIPE_PUBLISH := "pipe-publish"
  const EXACT_INVITE := "exact.invite"
  const ACCESS_LEASE := "access-lease"

  datatype Subject = Subject(scope: string, kind: string, jti: string)

  datatype Relationship = Relationship(jti: string, epoch: nat)

  datatype Tables = Tables(
    revocations: map<Subject, nat>,               // subject -> epoch
    redemptions: map<(string, string), string>,   // (invite jti, pipe) -> recipient
    accepted: map<(string, string), Relationship> // (pipe, recipient) -> current relationship
  )

  datatype StoreError = InvalidRevocation | InvalidEpoch | EpochRollback | InvalidRedemption | InviteRedeemed
                      | InvalidLookup

  function RevocationEpoch(t: Tables, scope: string, kind: string, jti: string): nat {
    var s := Subject(scope, kind, jti);
    if s in t.revocations then t.revocations[s] else 0
  }

  predicate IsRevoked(t: Tables, scope: string, kind: string, jti: string) {
    Subject(scope, kind, jti) in t.revocations
  }

  /** The pipe-access epoch of a Scope-less Pipe, whose revocation scope is its own id. */
  function Epoch(t: Tables, pipe: string): nat {
    RevocationEpoch(t, pipe, PIPE_ACCESS, pipe)
  }

  /** Revoke: an existing greater epoch is never replaced. */
  function RevokeTx(t: Tables, scope: string, kind: string, jti: string, epoch: nat): Result<Tables, StoreError> {
    var s := Subject(scope, kind, jti);
    if Blank(scope) || Blank(kind) || Blank(jti) || |scope| > 8192 || |kind| > 128 || |jti| > 8192 then
      Failure(InvalidRevocation)
    else if epoch == 0 then
      Failure(InvalidEpoch)
    else if s in t.revocations && t.revocations[s] > epoch then
      Failure(EpochRollback)
    else
      Success(t.(revocations := t.revocations[s := epoch]))
  }

  /** RedeemInviteAndAccept: the first redemption also writes the relationship; a retry does not. */
  function RedeemTx(t: Tables, jti: string, pipe: string, session: string, client: string, epoch: nat)
    : Result<Tables, StoreError>
  {
    if Blank(jti) || Blank(pipe) || Blank(session) || Blank(client) then
      Failure(InvalidRedemption)
    else if (jti, pipe) !in t.redemptions then
      Success(t.(redemptions := t.redemptions[(jti, pipe) := client],
                 accepted := t.accepted[(pipe, client) := Relationship(jti, epoch)]))
    else if t.redemptions[(jti, pipe)] != client then
      Failure(InviteRedeemed)
    else
      Success(t)
  }

  class ExactStore {
    var revocations: map<Subject, nat>
    var redemptions: map<(string, string), string>
    var accepted: map<(string, string), Relationship>

    constructor ()
      ensures Contents() == Tables(map[], map[], map[])
    {
      revocations, redemptions, accepted := map[], map[], map[];
    }

    function Contents(): Tables
      reads this
    {
      Tables(revocations, redemptions, accepted)
    }

    method Revoke(scope: string, kind: string, jti: string, epoch: nat) returns (error: Option<StoreError>)
      modifies this
      ensures match RevokeTx(old(Contents()), scope, kind, jti, epoch)
              case Success(t) => error == None && Contents() == t
              case Failure(e) => error == Some(e) && Contents() == old(Contents())
      ensures error == None <==>
        && !Blank(scope) && !Blank(kind) && !Blank(jti) && |scope| <= 8192 && |kind| <= 128 && |jti| <= 8192
        && 0 < epoch && RevocationEpoch(old(Contents()), scope, kind, jti) <= epoch
      ensures error == None ==> revocations == old(revocations)[Subject(scope, kind, jti) := epoch]
      ensures error != None ==> revocations == old(revocations)
      ensures redemptions == old(redemptions) && accepted == old(accepted)
    {
      if Blank(scope) || Blank(kind) || Blank(jti) || |scope| > 8192 || |kind| > 128 || |jti| > 8192 {
        return Some(InvalidRevocation);
      }
      if epoch == 0 {
        return Some(InvalidEpoch);
      }
      var subject := Subject(scope, kind, jti);
      if subject in revocations && revocations[subject] > epoch {
        return Some(EpochRollback);
      }
      // The maximum is taken over the same row, so for pipe epochs this repeats the check above.
      if kind == PIPE_ACCESS || kind == PIPE_PUBLISH {
        if subject in revocations && revocations[subject] > epoch {
          return Some(EpochRollback);
        }
      }
      revocations := revocations[subject := epoch];
      return None;
    }

    method RedeemInviteAndAccept(jti: string, pipe: string, session: string, client: string, epoch: nat)
      returns (r: Result<bool, StoreError>)
      modifies this
      ensures match RedeemTx(old(Contents()), jti, pipe, session, client, epoch)
              case Success(t) => r == Success(true) && Contents() == t
              case Failure(e) => r == Failure(e) && Contents() == old(Contents())
      ensures r.Success? <==>
        && !Blank(jti) && !Blank(pipe) && !Blank(session) && !Blank(client)
        && ((jti, pipe) in old(redemptions) ==> old(redemptions)[(jti, pipe)] == client)
      ensures r.Success? ==> redemptions == old(redemptions)[(jti, pipe) := client]
      ensures r.Success? ==> accepted == if (jti, pipe) in old(redemptions) then old(accepted)
                                         else old(accepted)[(pipe, client) := Relationship(jti, epoch)]
      ensures revocations == old(revocations)
    {
      if Blank(jti) || Blank(pipe) || Blank(session) || Blank(client) {
        return Failure(InvalidRedemption);
      }
      var affected := if (jti, pipe) in redemptions then 0 else 1;
      if affected == 1 {
        redemptions := redemptions[(jti, pipe) := client];
        accepted := accepted[(pipe, client) := Relationship(jti, epoch)];
        return Success(true);
      }
      if redemptions[(jti, pipe)] != client {
        return Failure(InviteRedeemed);
      }
      return Success(true);
    }

    method AcceptedRelationship(pipe: string, client: string) returns (r: Result<Option<Relationship>, StoreError>)
      ensures (Blank(pipe) || Blank(client)) <==> r.Failure?
      ensures r.Success? && r.value.Some? <==>
              !Blank(pipe) && !Blank(client) && (pipe, client) in accepted
      ensures r.Success? && r.value.Some? ==> r.value.value == accepted[(pipe, client)]
    {
      if Blank(pipe) || Blank(client) {
        return Failure(InvalidLookup);
      }
      if (pipe, client) in accepted {
        return Success(Some(accepted[(pipe, client)]));
      }
      return Success(None);
    }
  }

  /** No transaction lowers a revocation epoch, forgets a revocation or rebinds a redeemed invite. */
  ghost predicate Later(t: Tables, u: Tables) {
    && (forall s | s in t.revocations :: s in u.revocations && t.revocations[s] <= u.revocations[s])
    && (forall k | k in t.redemptions :: k in u.redemptions && t.redemptions[k] == u.redemptions[k])
  }

  lemma RevokeIsLater(t: Tables, scope: string, kind: string, jti: string, epoch: nat)
    ensures RevokeTx(t, scope, kind, jti, epoch).Success? ==>
              Later(t, RevokeTx(t, scope, kind, jti, epoch).value)
  {}

  lemma RedeemIsLater(t: Tables, jti: string, pipe: string, session: string, client: string, epoch: nat)
    ensures RedeemTx(t, jti, pipe, session, client, epoch).Success? ==>
              Later(t, RedeemTx(t, jti, pipe, session, client, epoch).value)
  {}
}
