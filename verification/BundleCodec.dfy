/**
 The bundle codec as it runs: writers append to one buffer, readers advance one shared slice
 (internal/reachability/bundle/bundle.go:114-369).
 */
module BundleCodec {
  import opened Units
  import opened Wrappers
  import opened Bundle

  /** canonical(): the checks, then the buffer, whose address loop may still refuse. */
  method Canonical(env: Env, b: Bundle) returns (r: Result<Bytes, Error>)
    ensures r == CanonicalOf(env, b)
    ensures r.Success? <==> WellFormed(env, b)
  {
    CanonicalIffWellFormed(env, b);
    if b.kind != KIND_BOOTSTRAP || b.version < MIN_VERSION || b.version > MAX_VERSION {
      return Failure(Malformed);
    }
    if b.rootKeyId == [] || |b.rootKeyId| > MAX_KEY_ID_LEN || b.peerId == [] || |b.peerId| > MAX_PEER_ID_LEN {
      return Failure(Malformed);
    }
    if !env.peerOk(b.peerId) {
      return Failure(Malformed);
    }
    if b.addresses == [] {
      return Failure(EmptyAddress);
    }
    if |b.addresses| > MAX_ADDRS {
      return Failure(Malformed);
    }
    if b.notAfter <= b.notBefore {
      return Failure(InvalidValidity);
    }
    hide Field, BigEndian, Nanos, EncodeAddresses, CheckAddresses, WellFormed;
    var out := MAGIC + BigEndian(b.version, 4);
    out := out + Field(b.kind, 1);
    out := out + Field(b.rootKeyId, 1);
    out := out + Field(b.peerId, 1);
    out := out + BigEndian(|b.addresses|, 2);
    var written := WriteAddresses(env, out, b.addresses, b.peerId);
    if written.Failure? {
      return Failure(written.error);
    }
    Joined(b, out, written.value);
    out := written.value + Nanos(b.notBefore);
    out := out + Nanos(b.notAfter);
    return Success(out);
  }

  /** The address loop of canonical(): checks each address and appends it to the buffer. */
  method WriteAddresses(env: Env, buffer: Bytes, addrs: seq<Bytes>, peer: Bytes) returns (r: Result<Bytes, Error>)
    ensures match CheckAddresses(env, addrs, [], peer)
      case Some(e) => r == Failure(e)
      case None => r == Success(buffer + EncodeAddresses(addrs, []))
  {
    hide Field;
    var out := buffer;
    var seen: set<Bytes> := {};
    for i := 0 to |addrs|
      invariant forall a :: a in seen <==> a in addrs[..i]
      invariant CheckAddresses(env, addrs, [], peer) == CheckAddresses(env, addrs[i..], addrs[..i], peer)
      invariant out + EncodeAddresses(addrs[i..], []) == buffer + EncodeAddresses(addrs, [])
    {
      var addr := addrs[i];
      assert addrs[i..][0] == addr && addrs[i..][1..] == addrs[i + 1..];
      assert addrs[..i] + [addr] == addrs[..i + 1];
      if |addr| > MAX_ADDR_LEN {
        return Failure(Malformed);
      }
      if addr in seen {
        return Failure(DuplicateAddrs);
      }
      seen := seen + {addr};
      var err := env.address(addr, peer);
      if err.Some? {
        return Failure(err.value);
      }
      Regroup(out, Field(addr, 2), EncodeAddresses(addrs[i + 1..], []));
      out := out + Field(addr, 2);
    }
    assert out + [] == out;
    return Success(out);
  }

  lemma Regroup(a: Bytes, b: Bytes, c: Bytes)
    ensures a + (b + c) == a + b + c
  {}

  lemma Joined(b: Bundle, head: Bytes, out: Bytes)
    requires head == MAGIC + BigEndian(b.version, 4) + Field(b.kind, 1) + Field(b.rootKeyId, 1) + Field(b.peerId, 1)
                     + BigEndian(|b.addresses|, 2)
    requires out == head + EncodeAddresses(b.addresses, [])
    ensures out + Nanos(b.notBefore) + Nanos(b.notAfter) == Unsigned(b)
  {
    hide Field, BigEndian, Nanos, EncodeAddresses;
    AddressesAppend(b.addresses, [], Times(b, []));
    assert [] + Times(b, []) == Times(b, []);
  }

  /** Sign; `sign` is ed25519.Sign with the root's private key. There is no check of the whole size. */
  method Sign(env: Env, b: Bundle, sign: Bytes -> Bytes) returns (r: Result<Bytes, Error>)
    requires forall m :: |sign(m)| == SIGNATURE_LEN
    ensures r.Failure? <==> CanonicalOf(env, b).Failure?
    ensures r.Failure? ==> CanonicalOf(env, b) == Failure(r.error)
    ensures r.Success? ==> r.value == CanonicalOf(env, b).value + [64] + sign(CanonicalOf(env, b).value)
  {
    var unsigned := Canonical(env, b);
    if unsigned.Failure? {
      return Failure(unsigned.error);
    }
    var sig := sign(unsigned.value);
    var out := unsigned.value;
    out := out + [|sig| as byte];
    out := out + sig;
    return Success(out);
  }

  class Cursor {
    var rest: Bytes

    constructor (rest: Bytes)
      ensures this.rest == rest
    {
      this.rest := rest;
    }

    /** readLen8 and readLen16; the count of length bytes tells them apart. */
    method ReadLen(k: nat, max: nat) returns (r: Result<Bytes, Error>)
      modifies this
      ensures match ReadField(old(rest), k, max)
        case Failure(e) => r == Failure(e)
        case Success((v, tail)) => r == Success(v) && rest == tail
      ensures r == Failure(Oversized) <==> |old(rest)| >= k && FromBigEndian(old(rest)[..k]) > max
      ensures r == Failure(Malformed) <==>
        |old(rest)| < k || |old(rest)| - k < FromBigEndian(old(rest)[..k]) <= max
    {
      if |rest| < k {
        return Failure(Malformed);
      }
      var n := FromBigEndian(rest[..k]);
      rest := rest[k..];
      if n > max {
        return Failure(Oversized);
      }
      if |rest| < n {
        return Failure(Malformed);
      }
      r := Success(rest[..n]);
      rest := rest[n..];
      assert old(rest)[k..][..n] == old(rest)[k..k + n] && old(rest)[k..][n..] == old(rest)[k + n..];
    }

    method ReadTime() returns (r: Result<int, Error>)
      modifies this
      ensures |old(rest)| < 8 ==> r == Failure(Malformed)
      ensures |old(rest)| >= 8 ==> r == Success(FromNanos(old(rest)[..8])) && rest == old(rest)[8..]
    {
      if |rest| < 8 {
        return Failure(Malformed);
      }
      r := Success(FromNanos(rest[..8]));
      rest := rest[8..];
    }

    method ReadAddressList(env: Env, count: nat, peer: Bytes) returns (r: Result<seq<Bytes>, Error>)
      modifies this
      ensures match ReadAddresses(env, old(rest), count, [], peer)
        case Failure(e) => r == Failure(e)
        case Success((addrs, tail)) => r == Success(addrs) && rest == tail
    {
      var seen: set<Bytes> := {};
      var addrs: seq<Bytes> := [];
      for i := 0 to count
        invariant forall a :: a in seen <==> a in addrs
        invariant ReadAddresses(env, old(rest), count, [], peer) == ReadAddresses(env, rest, count - i, addrs, peer)
      {
        var next := ReadLen(2, MAX_ADDR_LEN);
        if next.Failure? {
          return Failure(next.error);
        }
        var addr := next.value;
        if addr in seen {
          return Failure(DuplicateAddrs);
        }
        seen := seen + {addr};
        var err := env.address(addr, peer);
        if err.Some? {
          return Failure(err.value);
        }
        addrs := addrs + [addr];
      }
      return Success(addrs);
    }

    method ParseUnsigned(env: Env) returns (r: Result<Bundle, Error>)
      modifies this
      ensures match ParseUnsignedOf(env, old(rest))
        case Failure(e) => r == Failure(e)
        case Success((b, tail)) => r == Success(b) && rest == tail
    {
      hide ReadField;
      if |rest| < 4 {
        return Failure(Malformed);
      }
      EightBytes();
      var version := FromBigEndian(rest[..4]);
      rest := rest[4..];
      var kind := ReadLen(1, MAX_KIND_LEN);
      if kind.Failure? {
        return Failure(kind.error);
      }
      var root := ReadLen(1, MAX_KEY_ID_LEN);
      if root.Failure? {
        return Failure(root.error);
      }
      var peer := ReadLen(1, MAX_PEER_ID_LEN);
      if peer.Failure? {
        return Failure(peer.error);
      }
      r := ParseBody(env, version, kind.value, root.value, peer.value);
    }

    method ParseBody(env: Env, version: uint32, kind: Bytes, root: Bytes, peer: Bytes)
      returns (r: Result<Bundle, Error>)
      modifies this
      ensures match ReadBody(env, old(rest), version, kind, root, peer)
        case Failure(e) => r == Failure(e)
        case Success((b, tail)) => r == Success(b) && rest == tail
    {
      hide ReadAddresses;
      if kind != KIND_BOOTSTRAP || !env.peerOk(peer) || |rest| < 2 {
        return Failure(Malformed);
      }
      var count := FromBigEndian(rest[..2]);
      rest := rest[2..];
      if count == 0 || count > MAX_ADDRS {
        return Failure(Malformed);
      }
      var addrs := ReadAddressList(env, count, peer);
      if addrs.Failure? {
        return Failure(addrs.error);
      }
      ghost var tail := rest;
      var notBefore := ReadTime();
      if notBefore.Failure? {
        return Failure(notBefore.error);
      }
      var notAfter := ReadTime();
      if notAfter.Failure? {
        return Failure(notAfter.error);
      }
      assert tail[8..][..8] == tail[8..16] && tail[8..][8..] == tail[16..];
      if notAfter.value <= notBefore.value {
        return Failure(InvalidValidity);
      }
      return Success(Bundle(version, kind, root, peer, addrs.value, notBefore.value, notAfter.value));
    }
  }

  method FindRoot(roots: seq<Root>, keyId: Bytes) returns (root: Option<Root>)
    ensures root == PinnedRoot(roots, keyId)
    ensures root.None? <==> forall i | 0 <= i < |roots| :: roots[i].keyId != keyId
    ensures root.Some? ==> exists i :: FirstWith(roots, keyId, i) && roots[i] == root.value
    ensures forall i | FirstWith(roots, keyId, i) :: root == Some(roots[i])
  {
    PinnedRootIsFirst(roots, keyId);
    for i := 0 to |roots|
      invariant PinnedRoot(roots, keyId) == PinnedRoot(roots[i..], keyId)
    {
      if roots[i].keyId == keyId {
        return Some(roots[i]);
      }
      assert roots[i..][1..] == roots[i + 1..];
    }
    return None;
  }

  method ParseVerify(env: Env, raw: Bytes, roots: seq<Root>, now: int) returns (r: Result<Bundle, Error>)
    ensures r == ParseVerifyOf(env, raw, roots, now)
  {
    hide ParseUnsignedOf, PinnedRoot, Refusal, Unsigned;
    if |raw| > MAX_BUNDLE_SIZE {
      return Failure(Oversized);
    }
    if |raw| < |MAGIC| || raw[..|MAGIC|] != MAGIC {
      return Failure(Malformed);
    }
    var cursor := new Cursor(raw[|MAGIC|..]);
    var parsed := cursor.ParseUnsigned(env);
    if parsed.Failure? {
      return Failure(parsed.error);
    }
    var b := parsed.value;
    if b.version < MIN_VERSION {
      return Failure(Downgrade);
    }
    if b.version > MAX_VERSION {
      return Failure(UnknownVersion);
    }
    var rest := cursor.rest;
    if |rest| < 1 {
      return Failure(Malformed);
    }
    var sigLen := rest[0] as int;
    rest := rest[1..];
    if sigLen != SIGNATURE_LEN || |rest| < sigLen {
      return Failure(Malformed);
    }
    var sig := rest[..sigLen];
    rest := rest[sigLen..];
    if rest != [] {
      return Failure(Malformed);
    }
    assert sig == cursor.rest[1..];
    var root := FindRoot(roots, b.rootKeyId);
    if root.None? || root.value.role != ROLE_BOOTSTRAP {
      return Failure(UnpinnedRoot);
    }
    var unsigned := Canonical(env, b);
    if unsigned.Failure? {
      return Failure(unsigned.error);
    }
    if !env.verify(root.value.public, unsigned.value, sig) {
      return Failure(InvalidSignature);
    }
    if now < b.notBefore {
      return Failure(NotYetValid);
    }
    if now >= b.notAfter {
      return Failure(Expired);
    }
    return Success(b);
  }
}
