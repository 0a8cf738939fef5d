/**
 The byte strings that the exact-access keys sign (internal/accesslease/sign.go).

 A credential signs its signing domain followed by the canonical payload; a possession
 proof signs its purpose, a NUL, and the NUL-joined parts.
 */
module SigningMessages {
  const NUL: char := '\0'

  const ACCESS_LEASE_DOMAIN := "tubo://access-lease/v1\0"
  const OWNER_BINDING_DOMAIN := "tubo://exact-owner-binding/v1\0"
  const EXACT_INVITE_DOMAIN := "tubo://exact-invite/v1\0"

  const OPEN_PROOF_PURPOSE := "tubo-open-v2"
  const REDEEM_PROOF_PURPOSE := "tubo-exact-redeem-v2"
  const RENEW_PROOF_PURPOSE := "tubo-exact-renew-v2"

  /** The six exchanges a key can sign for. */
  datatype Family = AccessLease | OwnerBinding | ExactInvite | OpenProof | RedeemProof | RenewProof

  function DomainBytes(domain: string, payload: string): string {
    domain + payload
  }

  /** strings.Join with a NUL separator. */
  function Join(parts: seq<string>): string {
    if |parts| == 0 then ""
    else if |parts| == 1 then parts[0]
    else parts[0] + [NUL] + Join(parts[1..])
  }

  function ProofMessage(purpose: string, parts: seq<string>): string {
    purpose + [NUL] + Join(parts)
  }

  /** What a signature of this family covers; a proof's payload is its joined parts. */
  function Message(family: Family, payload: string): string {
    match family
    case AccessLease => DomainBytes(ACCESS_LEASE_DOMAIN, payload)
    case OwnerBinding => DomainBytes(OWNER_BINDING_DOMAIN, payload)
    case ExactInvite => DomainBytes(EXACT_INVITE_DOMAIN, payload)
    case OpenProof => OPEN_PROOF_PURPOSE + [NUL] + payload
    case RedeemProof => REDEEM_PROOF_PURPOSE + [NUL] + payload
    case RenewProof => RENEW_PROOF_PURPOSE + [NUL] + payload
  }

  /** A signed message names its family and its payload: no signature serves two exchanges. */
  lemma MessageNamesFamilyAndPayload(f: Family, p: string, g: Family, q: string)
    requires Message(f, p) == Message(g, q)
    ensures f == g && p == q
  {
    var m, n := Message(f, p), Message(g, q);
    // The families part ways at one of these positions, whatever follows.
    assert m[4] == n[4] && m[5] == n[5] && m[7] == n[7] && (|m| > 13 ==> m[13] == n[13]);
    if f == g {
      assert p == m[|m| - |p|..];
      assert q == n[|n| - |q|..];
    }
  }

  ghost predicate NulFree(s: string) {
    NUL !in s
  }

  ghost predicate AllNulFree(parts: seq<string>) {
    forall i | 0 <= i < |parts| :: NulFree(parts[i])
  }

  /** The only list of this length that signs to this message. */
  ghost predicate Determined(purpose: string, parts: seq<string>) {
    forall other: seq<string> ::
      |other| == |parts| && ProofMessage(purpose, other) == ProofMessage(purpose, parts) ==> other == parts
  }

  /**
   A proof message determines its parts, among lists of the same length, exactly when no part
   holds a NUL. A single part is always determined.
   */
  lemma ProofDeterminesPartsIffNulFree(purpose: string, parts: seq<string>)
    ensures Determined(purpose, parts) <==> |parts| <= 1 || AllNulFree(parts)
  {
    if |parts| <= 1 || AllNulFree(parts) {
      forall other: seq<string> |
        |other| == |parts| && ProofMessage(purpose, other) == ProofMessage(purpose, parts)
        ensures other == parts
      {
        ProofBody(purpose, other);
        ProofBody(purpose, parts);
        if |parts| <= 1 {
          assert other == parts;
        } else {
          JoinInjective(other, parts);
        }
      }
    } else {
      var other := JoinAmbiguous(parts);
    }
  }

  lemma ProofBody(purpose: string, parts: seq<string>)
    ensures ProofMessage(purpose, parts)[|purpose| + 1..] == Join(parts)
  {}

  function Nuls(s: string): nat {
    if s == "" then 0 else (if s[0] == NUL then 1 else 0) + Nuls(s[1..])
  }

  lemma NulsConcat(a: string, b: string)
    ensures Nuls(a + b) == Nuls(a) + Nuls(b)
  {
    if a == "" {
      assert a + b == b;
    } else {
      assert (a + b)[1..] == a[1..] + b;
      NulsConcat(a[1..], b);
    }
  }

  lemma NulsZero(s: string)
    ensures Nuls(s) == 0 <==> NulFree(s)
  {
    if s != "" {
      NulsZero(s[1..]);
      assert s == [s[0]] + s[1..];
    }
  }

  lemma JoinNuls(parts: seq<string>)
    requires |parts| > 0
    ensures Nuls(Join(parts)) >= |parts| - 1
    ensures AllNulFree(parts) <==> Nuls(Join(parts)) == |parts| - 1
  {
    NulsZero(parts[0]);
    if |parts| > 1 {
      JoinNuls(parts[1..]);
      NulsConcat(parts[0] + [NUL], Join(parts[1..]));
      NulsConcat(parts[0], [NUL]);
      assert Nuls([NUL]) == 1;
      assert parts == [parts[0]] + parts[1..];
    }
  }

  /** Splitting at the first NUL: the head before it is unique. */
  lemma FirstNul(a: string, x: string, b: string, y: string)
    requires NulFree(a) && NulFree(b)
    requires a + [NUL] + x == b + [NUL] + y
    ensures a == b && x == y
  {
    var m, n := a + [NUL] + x, b + [NUL] + y;
    assert m[|a|] == NUL && n[|b|] == NUL;
    assert a == m[..|a|] && b == n[..|b|];
    assert x == m[|a| + 1..] && y == n[|b| + 1..];
  }

  lemma {:induction false} JoinInjective(other: seq<string>, parts: seq<string>)
    requires |other| == |parts| > 0
    requires AllNulFree(parts) && Join(other) == Join(parts)
    ensures other == parts
  {
    JoinNuls(other);
    JoinNuls(parts);
    if |parts| > 1 {
      FirstNul(other[0], Join(other[1..]), parts[0], Join(parts[1..]));
      JoinInjective(other[1..], parts[1..]);
      assert other == [other[0]] + other[1..] && parts == [parts[0]] + parts[1..];
    }
  }

  /** A part that holds a NUL lets a boundary move: some other list joins to the same bytes. */
  lemma {:induction false} JoinAmbiguous(parts: seq<string>) returns (other: seq<string>)
    requires |parts| >= 2 && !AllNulFree(parts)
    ensures |other| == |parts| && other != parts && Join(other) == Join(parts)
  {
    if !NulFree(parts[0]) {
      var i :| 0 <= i < |parts[0]| && parts[0][i] == NUL;
      var a, b := parts[0][..i], parts[0][i + 1..];
      var second := b + [NUL] + parts[1];
      other := [a, second] + parts[2..];
      assert parts[0] == a + [NUL] + b;
      MoveBoundary(a, b, parts);
    } else {
      var rest := parts[1..];
      assert parts == [parts[0]] + rest;
      if |rest| >= 2 {
        var moved := JoinAmbiguous(rest);
        other := [parts[0]] + moved;
        assert other[1..] == moved;
      } else {
        var last := rest[0];
        var i :| 0 <= i < |last| && last[i] == NUL;
        var a, b := last[..i], last[i + 1..];
        other := [parts[0] + [NUL] + a, b];
        assert last == a + [NUL] + b;
        assert Join(other) == parts[0] + [NUL] + a + [NUL] + b;
        assert Join(parts) == parts[0] + [NUL] + last;
        assert |other[0]| > |parts[0]|;
      }
    }
  }

  lemma MoveBoundary(a: string, b: string, parts: seq<string>)
    requires |parts| >= 2 && parts[0] == a + [NUL] + b
    ensures var other := [a, b + [NUL] + parts[1]] + parts[2..];
            other != parts && Join(other) == Join(parts)
  {
    var other := [a, b + [NUL] + parts[1]] + parts[2..];
    assert |other[0]| < |parts[0]|;
    var tail := parts[1..];
    assert other[1..] == [b + [NUL] + parts[1]] + parts[2..];
    if |parts| == 2 {
      assert Join(other[1..]) == b + [NUL] + Join(tail);
    } else {
      assert other[1..][1..] == tail[1..];
      assert Join(other[1..]) == b + [NUL] + (parts[1] + [NUL] + Join(tail[1..]));
    }
    assert Join(other) == a + [NUL] + (b + [NUL] + Join(tail));
    assert Join(parts) == (a + [NUL] + b) + [NUL] + Join(tail);
  }
}
