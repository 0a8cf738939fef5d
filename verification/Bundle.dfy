/**
 The signed bootstrap bundle's binary encoding (internal/reachability/bundle/bundle.go). Peer-ID and
 multiaddr validity and Ed25519 are parameters; times are integer nanoseconds, written as int64.
 */
module Bundle {
  import opened Units
  import opened Wrappers

  type Bytes = seq<byte>
  type uint32 = n: nat | n < 0x1_0000_0000

  const MAGIC: Bytes := [84, 85, 66, 78] // "TUBN"
  const KIND_BOOTSTRAP: Bytes := [98, 111, 111, 116, 115, 116, 114, 97, 112] // "bootstrap"
  const ROLE_BOOTSTRAP: string := "tubo.bootstrap.v1"
  const MIN_VERSION := 1
  const MAX_VERSION := 1
  const SIGNATURE_LEN := 64
  const MAX_BUNDLE_SIZE := 16 * 1024
  const MAX_KIND_LEN := 64
  const MAX_KEY_ID_LEN := 128
  const MAX_PEER_ID_LEN := 128
  const MAX_ADDR_LEN := 4096
  const MAX_ADDRS := 64

  datatype Error =
    | Malformed | Oversized | UnknownVersion | Downgrade | UnpinnedRoot | DuplicateAddrs | IdentityMismatch
    | InvalidSignature | NotYetValid | Expired | EmptyAddress | InvalidValidity

  type Key = nat

  datatype Root = Root(keyId: Bytes, role: string, public: Key)

  datatype Bundle = Bundle(
    version: uint32, kind: Bytes, rootKeyId: Bytes, peerId: Bytes, addresses: seq<Bytes>, notBefore: int, notAfter: int)

  /** The library checks: peer.Decode accepts, the error of validateAddress, and ed25519.Verify. */
  datatype Env = Env(
    peerOk: Bytes -> bool, address: (Bytes, Bytes) -> Option<Error>, verify: (Key, Bytes, Bytes) -> bool)

  // ---- fixed-width integers, big-endian

  function Pow256(k: nat): (p: nat)
    ensures p >= 1
  {
    if k == 0 then 1 else 256 * Pow256(k - 1)
  }

  /** The low k bytes of n. */
  function BigEndian(n: nat, k: nat): (s: Bytes)
    ensures |s| == k
  {
    if k == 0 then [] else BigEndian(n / 256, k - 1) + [(n % 256) as byte]
  }

  function FromBigEndian(s: Bytes): (n: nat)
    ensures n < Pow256(|s|)
  {
    if s == [] then 0 else 256 * FromBigEndian(s[..|s| - 1]) + s[|s| - 1] as nat
  }

  lemma Digits(m: nat, d: nat)
    requires d < 256
    ensures (256 * m + d) / 256 == m && (256 * m + d) % 256 == d
  {
    hide *;
  }

  lemma BigEndianStep(m: nat, d: nat, k: nat)
    requires d < 256
    ensures BigEndian(256 * m + d, k + 1) == BigEndian(m, k) + [d as byte]
  {
    Digits(m, d);
  }

  lemma FromBigEndianStep(s: Bytes, d: byte)
    ensures FromBigEndian(s + [d]) == 256 * FromBigEndian(s) + d as nat
  {
    assert (s + [d])[..|s|] == s;
  }

  lemma {:induction false} DecodesInteger(n: nat, k: nat)
    requires n < Pow256(k)
    ensures FromBigEndian(BigEndian(n, k)) == n
  {
    if k > 0 {
      var m, d := n / 256, n % 256;
      assert m < Pow256(k - 1);
      DecodesInteger(m, k - 1);
      assert n == 256 * m + d;
      BigEndianStep(m, d, k - 1);
      FromBigEndianStep(BigEndian(m, k - 1), d as byte);
    }
  }

  lemma {:induction false} EncodesInteger(s: Bytes)
    ensures BigEndian(FromBigEndian(s), |s|) == s
  {
    hide BigEndian, FromBigEndian;
    if s == [] {
      NoDigits();
    } else {
      var init, d := s[..|s| - 1], s[|s| - 1];
      assert s == init + [d];
      EncodesInteger(init);
      FromBigEndianStep(init, d);
      BigEndianStep(FromBigEndian(init), d as nat, |init|);
    }
  }

  lemma NoDigits()
    ensures BigEndian(FromBigEndian([]), 0) == []
  {}

  const TWO_63: int := 0x8000_0000_0000_0000
  const TWO_64: int := 0x1_0000_0000_0000_0000

  predicate Int64(t: int) {
    -TWO_63 <= t < TWO_63
  }

  /** UnixNano as eight bytes: two's complement, wrapping. */
  function Nanos(t: int): Bytes {
    BigEndian(t % TWO_64, 8)
  }

  function FromNanos(s: Bytes): (t: int)
    requires |s| == 8
    ensures Int64(t)
  {
    EightBytes();
    var n := FromBigEndian(s);
    if n < TWO_63 then n else n - TWO_64
  }

  lemma EightBytes()
    ensures Pow256(8) == TWO_64 && Pow256(4) == 0x1_0000_0000 && Pow256(2) == 0x1_0000
  {
    assert Pow256(4) == 0x1_0000_0000;
  }

  lemma DecodesTime(t: int)
    ensures FromNanos(Nanos(t)) == t <==> Int64(t)
  {
    EightBytes();
    DecodesInteger(t % TWO_64, 8);
  }

  lemma EncodesTime(s: Bytes)
    requires |s| == 8
    ensures Nanos(FromNanos(s)) == s
  {
    EightBytes();
    EncodesInteger(s);
    assert FromNanos(s) % TWO_64 == FromBigEndian(s);
  }

  // ---- length-prefixed fields

  function Field(v: Bytes, k: nat): Bytes {
    BigEndian(|v|, k) + v
  }

  /** readLen8 (k = 1) and readLen16 (k = 2): the field and what follows it. */
  function ReadField(rest: Bytes, k: nat, max: nat): Result<(Bytes, Bytes), Error> {
    if |rest| < k then Failure(Malformed)
    else
      var n := FromBigEndian(rest[..k]);
      if n > max then Failure(Oversized)
      else if |rest| - k < n then Failure(Malformed)
      else Success((rest[k..k + n], rest[k + n..]))
  }

  lemma ReadsField(v: Bytes, k: nat, max: nat, tail: Bytes)
    requires |v| <= max && |v| < Pow256(k)
    ensures ReadField(Field(v, k) + tail, k, max) == Success((v, tail))
  {
    var s := Field(v, k) + tail;
    assert s[..k] == BigEndian(|v|, k);
    DecodesInteger(|v|, k);
    assert s[k..k + |v|] == v && s[k + |v|..] == tail;
  }

  lemma FieldRead(rest: Bytes, k: nat, max: nat)
    requires ReadField(rest, k, max).Success?
    ensures var (v, tail) := ReadField(rest, k, max).value; |v| <= max && rest == Field(v, k) + tail
  {
    EncodesInteger(rest[..k]);
    var n := FromBigEndian(rest[..k]);
    assert rest == rest[..k] + (rest[k..k + n] + rest[k + n..]);
  }

  // ---- addresses

  /** The first address that is too long, repeated or not this peer's. */
  function CheckAddresses(env: Env, addrs: seq<Bytes>, seen: seq<Bytes>, peer: Bytes): Option<Error> {
    if addrs == [] then None
    else if |addrs[0]| > MAX_ADDR_LEN then Some(Malformed)
    else if addrs[0] in seen then Some(DuplicateAddrs)
    else if env.address(addrs[0], peer).Some? then env.address(addrs[0], peer)
    else CheckAddresses(env, addrs[1..], seen + [addrs[0]], peer)
  }

  function EncodeAddresses(addrs: seq<Bytes>, tail: Bytes): Bytes {
    if addrs == [] then tail else Field(addrs[0], 2) + EncodeAddresses(addrs[1..], tail)
  }

  function ReadAddresses(env: Env, rest: Bytes, count: nat, seen: seq<Bytes>, peer: Bytes)
    : Result<(seq<Bytes>, Bytes), Error>
    decreases count
  {
    if count == 0 then Success((seen, rest))
    else match ReadField(rest, 2, MAX_ADDR_LEN)
      case Failure(e) => Failure(e)
      case Success((addr, tail)) =>
        if addr in seen then Failure(DuplicateAddrs)
        else if env.address(addr, peer).Some? then Failure(env.address(addr, peer).value)
        else ReadAddresses(env, tail, count - 1, seen + [addr], peer)
  }

  lemma {:induction false} ReadsAddresses(env: Env, addrs: seq<Bytes>, seen: seq<Bytes>, peer: Bytes, tail: Bytes)
    requires CheckAddresses(env, addrs, seen, peer) == None
    ensures ReadAddresses(env, EncodeAddresses(addrs, tail), |addrs|, seen, peer) == Success((seen + addrs, tail))
    decreases |addrs|
  {
    hide ReadField, Field, BigEndian;
    if addrs == [] {
      assert seen + addrs == seen;
    } else {
      EightBytes();
      ReadsField(addrs[0], 2, MAX_ADDR_LEN, EncodeAddresses(addrs[1..], tail));
      ReadsAddresses(env, addrs[1..], seen + [addrs[0]], peer, tail);
      assert seen + [addrs[0]] + addrs[1..] == seen + addrs;
    }
  }

  lemma {:induction false} AddressesRead(env: Env, rest: Bytes, count: nat, seen: seq<Bytes>, peer: Bytes)
    returns (addrs: seq<Bytes>)
    requires ReadAddresses(env, rest, count, seen, peer).Success?
    ensures var (all, tail) := ReadAddresses(env, rest, count, seen, peer).value;
      && all == seen + addrs && |addrs| == count && rest == EncodeAddresses(addrs, tail)
      && CheckAddresses(env, addrs, seen, peer) == None
    decreases count
  {
    hide ReadField, Field, BigEndian, FromBigEndian;
    if count == 0 {
      addrs := [];
    } else {
      FieldRead(rest, 2, MAX_ADDR_LEN);
      var (addr, tail) := ReadField(rest, 2, MAX_ADDR_LEN).value;
      var more := AddressesRead(env, tail, count - 1, seen + [addr], peer);
      addrs := [addr] + more;
      assert addrs[1..] == more;
      assert seen + [addr] + more == seen + addrs;
    }
  }

  // ---- the unsigned encoding

  function Times(b: Bundle, tail: Bytes): Bytes {
    Nanos(b.notBefore) + (Nanos(b.notAfter) + tail)
  }

  /** Everything after the magic, followed by `tail`. */
  function Fields(b: Bundle, tail: Bytes): Bytes {
    BigEndian(b.version, 4) + (Field(b.kind, 1) + (Field(b.rootKeyId, 1) + (Field(b.peerId, 1)
      + (BigEndian(|b.addresses|, 2) + EncodeAddresses(b.addresses, Times(b, tail))))))
  }

  function Unsigned(b: Bundle): Bytes {
    MAGIC + Fields(b, [])
  }

  /** The checks of canonical(), in its order. */
  function Refusal(env: Env, b: Bundle): Option<Error> {
    if b.kind != KIND_BOOTSTRAP then Some(Malformed)
    else if b.version < MIN_VERSION || b.version > MAX_VERSION then Some(Malformed)
    else if b.rootKeyId == [] || |b.rootKeyId| > MAX_KEY_ID_LEN then Some(Malformed)
    else if b.peerId == [] || |b.peerId| > MAX_PEER_ID_LEN then Some(Malformed)
    else if !env.peerOk(b.peerId) then Some(Malformed)
    else if b.addresses == [] then Some(EmptyAddress)
    else if |b.addresses| > MAX_ADDRS then Some(Malformed)
    else if b.notAfter <= b.notBefore then Some(InvalidValidity)
    else CheckAddresses(env, b.addresses, [], b.peerId)
  }

  function CanonicalOf(env: Env, b: Bundle): Result<Bytes, Error> {
    match Refusal(env, b)
    case Some(e) => Failure(e)
    case None => Success(Unsigned(b))
  }

  ghost predicate Distinct(addrs: seq<Bytes>) {
    forall i, j | 0 <= i < j < |addrs| :: addrs[i] != addrs[j]
  }

  /** What canonical() demands of a bundle, all at once. */
  ghost predicate WellFormed(env: Env, b: Bundle) {
    && b.kind == [98, 111, 111, 116, 115, 116, 114, 97, 112] && b.version == 1
    && 0 < |b.rootKeyId| <= 128 && 0 < |b.peerId| <= 128 && env.peerOk(b.peerId)
    && 0 < |b.addresses| <= 64 && b.notBefore < b.notAfter
    && (forall a | a in b.addresses :: |a| <= 4096 && env.address(a, b.peerId) == None)
    && Distinct(b.addresses)
  }

  lemma DistinctStep(addrs: seq<Bytes>)
    requires addrs != []
    ensures Distinct(addrs) <==> addrs[0] !in addrs[1..] && Distinct(addrs[1..])
  {
    var more := addrs[1..];
    assert forall j | 0 <= j < |more| :: more[j] == addrs[j + 1];
    assert forall j | 0 < j < |addrs| :: addrs[j] == more[j - 1];
  }

  lemma {:induction false} AddressesAcceptedIff(env: Env, addrs: seq<Bytes>, seen: seq<Bytes>, peer: Bytes)
    ensures CheckAddresses(env, addrs, seen, peer) == None <==>
      && (forall a | a in addrs :: |a| <= 4096 && env.address(a, peer) == None && a !in seen)
      && Distinct(addrs)
    decreases |addrs|
  {
    if addrs != [] {
      hide Distinct;
      AddressesAcceptedIff(env, addrs[1..], seen + [addrs[0]], peer);
      DistinctStep(addrs);
      assert forall a :: a in addrs <==> a == addrs[0] || a in addrs[1..];
    }
  }

  /** Digit i of a k-byte big-endian integer. */
  lemma {:induction false} BigEndianDigit(n: nat, k: nat, i: nat)
    requires i < k
    ensures BigEndian(n, k)[i] as nat == n / Pow256(k - 1 - i) % 256
  {
    if i < k - 1 {
      BigEndianDigit(n / 256, k - 1, i);
      DivideTwice(n, Pow256(k - 2 - i));
    }
  }

  lemma DivideTwice(n: nat, p: nat)
    requires p > 0
    ensures n / 256 / p == n / (256 * p)
  {
    hide *;
    var q, r := n / 256, n % 256;
    var a, b := q / p, q % p;
    assert n == 256 * q + r && q == a * p + b;
    assert n == a * (256 * p) + (256 * b + r);
    assert 256 * b + r < 256 * p;
    DivisionIs(n, 256 * p, a, 256 * b + r);
  }

  lemma DivisionIs(n: nat, p: nat, a: nat, r: nat)
    requires p > 0 && r < p && n == a * p + r
    ensures n / p == a
  {
    hide *;
    var d := n / p - a;
    assert n == (n / p) * p + n % p;
    assert d * p == r - n % p;
    assert d >= 1 ==> d * p >= p;
    assert d <= -1 ==> d * p + p <= 0;
  }

  /** One length byte, or two with the high one first, before the value. */
  lemma FieldLayout(v: Bytes)
    ensures |v| < 256 ==> Field(v, 1) == [|v| as byte] + v
    ensures |v| < 0x1_0000 ==> Field(v, 2) == [(|v| / 256) as byte, (|v| % 256) as byte] + v
  {
    assert BigEndian(|v|, 1) == BigEndian(|v| / 256, 0) + [(|v| % 256) as byte];
    assert BigEndian(|v|, 2) == BigEndian(|v| / 256, 1) + [(|v| % 256) as byte];
    assert BigEndian(|v| / 256, 1) == BigEndian(|v| / 256 / 256, 0) + [(|v| / 256 % 256) as byte];
  }

  /** The eight bytes of a time, most significant first. */
  lemma NanosLayout(t: int, i: nat)
    requires i < 8
    ensures |Nanos(t)| == 8 && Nanos(t)[i] as int == t % TWO_64 / Pow256(7 - i) % 256
  {
    BigEndianDigit(t % TWO_64, 8, i);
  }

  /** Each address, in order, behind its two length bytes. */
  lemma AddressLayout(addr: Bytes, more: seq<Bytes>, tail: Bytes)
    requires |addr| <= 4096
    ensures EncodeAddresses([], tail) == tail
    ensures EncodeAddresses([addr] + more, tail) ==
      [(|addr| / 256) as byte, (|addr| % 256) as byte] + addr + EncodeAddresses(more, tail)
  {
    FieldLayout(addr);
    assert ([addr] + more)[1..] == more;
  }

  /**
   canonical() accepts exactly the well-formed bundles and writes: the magic, the version 1 in four bytes, the
   kind, root key ID and peer ID behind one length byte each, the address count in two bytes, the addresses,
   and the two times of eight bytes.
   */
  lemma CanonicalIffWellFormed(env: Env, b: Bundle)
    ensures CanonicalOf(env, b).Success? <==> WellFormed(env, b)
    ensures WellFormed(env, b) ==>
      CanonicalOf(env, b).value ==
        [84, 85, 66, 78, 0, 0, 0, 1] + [9] + b.kind + [|b.rootKeyId| as byte] + b.rootKeyId
        + [|b.peerId| as byte] + b.peerId + [0, |b.addresses| as byte]
        + EncodeAddresses(b.addresses, Nanos(b.notBefore) + Nanos(b.notAfter))
  {
    AddressesAcceptedIff(env, b.addresses, [], b.peerId);
    if WellFormed(env, b) {
      WrittenLayout(b);
    }
  }

  lemma SmallIntegers(n: nat)
    requires n < 256
    ensures BigEndian(n, 2) == [0, n as byte] && BigEndian(1, 4) == [0, 0, 0, 1]
  {
    assert BigEndian(n, 1) == [n as byte];
    assert BigEndian(0, 1) == [0] && BigEndian(0, 2) == [0, 0] && BigEndian(0, 3) == [0, 0, 0];
  }

  lemma WrittenLayout(b: Bundle)
    requires b.version == 1 && |b.kind| == 9 && |b.rootKeyId| < 256 && |b.peerId| < 256 && |b.addresses| < 256
    ensures Unsigned(b) ==
      [84, 85, 66, 78, 0, 0, 0, 1] + [9] + b.kind + [|b.rootKeyId| as byte] + b.rootKeyId
      + [|b.peerId| as byte] + b.peerId + [0, |b.addresses| as byte]
      + EncodeAddresses(b.addresses, Nanos(b.notBefore) + Nanos(b.notAfter))
  {
    hide Field, BigEndian, Nanos, EncodeAddresses;
    FieldLayout(b.kind);
    FieldLayout(b.rootKeyId);
    FieldLayout(b.peerId);
    SmallIntegers(|b.addresses|);
    assert Times(b, []) == Nanos(b.notBefore) + Nanos(b.notAfter);
  }

  // ---- parsing

  function ReadTimes(rest: Bytes): Result<(int, int, Bytes), Error> {
    if |rest| < 8 || |rest| - 8 < 8 then Failure(Malformed)
    else
      var notBefore, notAfter := FromNanos(rest[..8]), FromNanos(rest[8..16]);
      if notAfter <= notBefore then Failure(InvalidValidity) else Success((notBefore, notAfter, rest[16..]))
  }

  /** From the address count on. */
  function ReadBody(env: Env, rest: Bytes, version: uint32, kind: Bytes, root: Bytes, peer: Bytes)
    : Result<(Bundle, Bytes), Error>
  {
    if kind != KIND_BOOTSTRAP then Failure(Malformed)
    else if !env.peerOk(peer) then Failure(Malformed)
    else if |rest| < 2 then Failure(Malformed)
    else
      var count := FromBigEndian(rest[..2]);
      if count == 0 || count > MAX_ADDRS then Failure(Malformed)
      else match ReadAddresses(env, rest[2..], count, [], peer)
        case Failure(e) => Failure(e)
        case Success((addrs, tail)) =>
          match ReadTimes(tail)
          case Failure(e) => Failure(e)
          case Success((notBefore, notAfter, end)) =>
            Success((Bundle(version, kind, root, peer, addrs, notBefore, notAfter), end))
  }

  /** parseUnsigned: the bundle and what follows it. */
  function ParseUnsignedOf(env: Env, rest: Bytes): Result<(Bundle, Bytes), Error> {
    if |rest| < 4 then Failure(Malformed)
    else
      EightBytes();
      var version := FromBigEndian(rest[..4]);
      match ReadField(rest[4..], 1, MAX_KIND_LEN)
      case Failure(e) => Failure(e)
      case Success((kind, r1)) =>
        match ReadField(r1, 1, MAX_KEY_ID_LEN)
        case Failure(e) => Failure(e)
        case Success((root, r2)) =>
          match ReadField(r2, 1, MAX_PEER_ID_LEN)
          case Failure(e) => Failure(e)
          case Success((peer, r3)) => ReadBody(env, r3, version, kind, root, peer)
  }

  function PinnedRoot(roots: seq<Root>, keyId: Bytes): Option<Root> {
    if roots == [] then None
    else if roots[0].keyId == keyId then Some(roots[0])
    else PinnedRoot(roots[1..], keyId)
  }

  /** roots[i] is the first root with this key ID. */
  ghost predicate FirstWith(roots: seq<Root>, keyId: Bytes, i: int) {
    0 <= i < |roots| && roots[i].keyId == keyId && forall j | 0 <= j < i :: roots[j].keyId != keyId
  }

  lemma {:induction false} PinnedRootIsFirst(roots: seq<Root>, keyId: Bytes)
    ensures PinnedRoot(roots, keyId).None? <==> forall i | 0 <= i < |roots| :: roots[i].keyId != keyId
    ensures PinnedRoot(roots, keyId).Some? ==>
      exists i :: FirstWith(roots, keyId, i) && roots[i] == PinnedRoot(roots, keyId).value
  {
    if roots != [] {
      if roots[0].keyId == keyId {
        assert FirstWith(roots, keyId, 0);
      } else {
        PinnedRootIsFirst(roots[1..], keyId);
        if PinnedRoot(roots[1..], keyId).Some? {
          var i :| FirstWith(roots[1..], keyId, i) && roots[1..][i] == PinnedRoot(roots[1..], keyId).value;
          assert FirstWith(roots, keyId, i + 1);
        }
      }
    }
  }

  /** The first pinned root with this key ID is a bootstrap root. */
  ghost predicate Pinned(roots: seq<Root>, keyId: Bytes) {
    exists i :: FirstWith(roots, keyId, i) && roots[i].role == "tubo.bootstrap.v1"
  }

  /** The first pinned root with this key ID is a bootstrap root, and it signed these bytes. */
  ghost predicate Vouched(env: Env, roots: seq<Root>, keyId: Bytes, unsigned: Bytes, sig: Bytes) {
    exists i :: && FirstWith(roots, keyId, i) && roots[i].role == "tubo.bootstrap.v1"
                && env.verify(roots[i].public, unsigned, sig)
  }

  lemma VouchedIff(env: Env, roots: seq<Root>, keyId: Bytes, unsigned: Bytes, sig: Bytes)
    ensures var root := PinnedRoot(roots, keyId);
      && (Pinned(roots, keyId) <==> root.Some? && root.value.role == ROLE_BOOTSTRAP)
      && (Vouched(env, roots, keyId, unsigned, sig) <==>
            Pinned(roots, keyId) && env.verify(root.value.public, unsigned, sig))
  {
    PinnedRootIsFirst(roots, keyId);
    assert forall i, j | FirstWith(roots, keyId, i) && FirstWith(roots, keyId, j) :: i == j;
  }

  /** Root, canonical form, signature and validity window of a parsed bundle. */
  function VerifyParsed(env: Env, b: Bundle, sig: Bytes, roots: seq<Root>, now: int): Result<Bundle, Error> {
    var root := PinnedRoot(roots, b.rootKeyId);
    if root.None? || root.value.role != ROLE_BOOTSTRAP then Failure(UnpinnedRoot)
    else match CanonicalOf(env, b)
      case Failure(e) => Failure(e)
      case Success(unsigned) =>
        if !env.verify(root.value.public, unsigned, sig) then Failure(InvalidSignature)
        else if now < b.notBefore then Failure(NotYetValid)
        else if now >= b.notAfter then Failure(Expired)
        else Success(b)
  }

  function ParseVerifyOf(env: Env, raw: Bytes, roots: seq<Root>, now: int): Result<Bundle, Error> {
    if |raw| > MAX_BUNDLE_SIZE then Failure(Oversized)
    else if |raw| < 4 || raw[..4] != MAGIC then Failure(Malformed)
    else match ParseUnsignedOf(env, raw[4..])
      case Failure(e) => Failure(e)
      case Success((b, rest)) =>
        if b.version < MIN_VERSION then Failure(Downgrade)
        else if b.version > MAX_VERSION then Failure(UnknownVersion)
        else if |rest| < 1 || rest[0] as int != SIGNATURE_LEN || |rest| != 1 + SIGNATURE_LEN then Failure(Malformed)
        else VerifyParsed(env, b, rest[1..], roots, now)
  }

  // ---- parsing undoes encoding

  lemma ReadsTimes(b: Bundle, tail: Bytes)
    requires b.notBefore < b.notAfter && Int64(b.notBefore) && Int64(b.notAfter)
    ensures ReadTimes(Times(b, tail)) == Success((b.notBefore, b.notAfter, tail))
  {
    var s := Times(b, tail);
    DecodesTime(b.notBefore);
    DecodesTime(b.notAfter);
    assert s[..8] == Nanos(b.notBefore) && s[8..16] == Nanos(b.notAfter) && s[16..] == tail;
  }

  /** canonical() would accept the bundle at version 1. */
  predicate Encodable(env: Env, b: Bundle) {
    Refusal(env, b.(version := 1)) == None
  }

  lemma ReadsBody(env: Env, b: Bundle, tail: Bytes)
    requires Encodable(env, b) && Int64(b.notBefore) && Int64(b.notAfter)
    ensures ReadBody(env, BigEndian(|b.addresses|, 2) + EncodeAddresses(b.addresses, Times(b, tail)),
                     b.version, b.kind, b.rootKeyId, b.peerId) == Success((b, tail))
  {
    hide ReadAddresses, EncodeAddresses, CheckAddresses, Times, ReadTimes;
    var more := EncodeAddresses(b.addresses, Times(b, tail));
    var rest := BigEndian(|b.addresses|, 2) + more;
    EightBytes();
    DecodesInteger(|b.addresses|, 2);
    assert rest[..2] == BigEndian(|b.addresses|, 2) && rest[2..] == more;
    ReadsAddresses(env, b.addresses, [], b.peerId, Times(b, tail));
    assert [] + b.addresses == b.addresses;
    ReadsTimes(b, tail);
  }

  lemma ParsesUnsigned(env: Env, b: Bundle, tail: Bytes)
    requires Encodable(env, b) && Int64(b.notBefore) && Int64(b.notAfter)
    ensures ParseUnsignedOf(env, Fields(b, tail)) == Success((b, tail))
  {
    hide ReadBody, ReadField, Field, EncodeAddresses, CheckAddresses, Times;
    EightBytes();
    assert Pow256(1) == 256;
    var r3 := BigEndian(|b.addresses|, 2) + EncodeAddresses(b.addresses, Times(b, tail));
    var r2 := Field(b.peerId, 1) + r3;
    var r1 := Field(b.rootKeyId, 1) + r2;
    var rest := Fields(b, tail);
    DecodesInteger(b.version, 4);
    assert rest[..4] == BigEndian(b.version, 4) && rest[4..] == Field(b.kind, 1) + r1;
    ReadsField(b.kind, 1, MAX_KIND_LEN, r1);
    ReadsField(b.rootKeyId, 1, MAX_KEY_ID_LEN, r2);
    ReadsField(b.peerId, 1, MAX_PEER_ID_LEN, r3);
    ReadsBody(env, b, tail);
  }

  lemma {:induction false} AddressesAppend(addrs: seq<Bytes>, s: Bytes, tail: Bytes)
    ensures EncodeAddresses(addrs, s) + tail == EncodeAddresses(addrs, s + tail)
  {
    if addrs != [] {
      AddressesAppend(addrs[1..], s, tail);
      assert Field(addrs[0], 2) + EncodeAddresses(addrs[1..], s) + tail ==
        Field(addrs[0], 2) + (EncodeAddresses(addrs[1..], s) + tail);
    }
  }

  lemma FieldsAppend(b: Bundle, tail: Bytes)
    ensures Unsigned(b) + tail == MAGIC + Fields(b, tail)
  {
    hide Field, EncodeAddresses, BigEndian;
    AddressesAppend(b.addresses, Times(b, []), tail);
    assert Times(b, []) + tail == Times(b, tail);
  }

  lemma SignedParts(b: Bundle, sig: Bytes)
    ensures var raw := Unsigned(b) + [64] + sig;
      && |raw| >= 4 && raw[..4] == MAGIC && raw[4..] == Fields(b, [64] + sig)
  {
    hide Fields;
    var raw := Unsigned(b) + [64] + sig;
    assert raw == Unsigned(b) + ([64] + sig);
    FieldsAppend(b, [64] + sig);
    assert raw[..4] == MAGIC && raw[4..] == Fields(b, [64] + sig);
  }

  /**
   A signed encoding parses back to the bundle exactly when it is at most 16 KiB, its times are int64
   nanoseconds, the first pinned root of its key ID is a bootstrap root and verifies it, and now is within
   its window.
   */
  lemma RoundTripIff(env: Env, b: Bundle, sig: Bytes, roots: seq<Root>, now: int)
    requires CanonicalOf(env, b).Success? && |sig| == SIGNATURE_LEN
    ensures var u := CanonicalOf(env, b).value;
      ParseVerifyOf(env, u + [64] + sig, roots, now) == Success(b)
      <==> && |u| + 1 + SIGNATURE_LEN <= MAX_BUNDLE_SIZE
           && Int64(b.notBefore) && Int64(b.notAfter)
           && Vouched(env, roots, b.rootKeyId, u, sig)
           && b.notBefore <= now < b.notAfter
  {
    hide ParseUnsignedOf, Fields, CheckAddresses, Pinned, Vouched, PinnedRoot;
    var raw := Unsigned(b) + [64] + sig;
    SignedParts(b, sig);
    VouchedIff(env, roots, b.rootKeyId, Unsigned(b), sig);
    if Int64(b.notBefore) && Int64(b.notAfter) {
      ParsesUnsigned(env, b, [64] + sig);
      assert ([64] + sig)[1..] == sig;
    } else if ParseUnsignedOf(env, raw[4..]).Success? {
      ParsedTimes(env, raw[4..]);
    }
  }

  /** Why a signed encoding with int64 times is refused: the first reason in this order. */
  lemma SignedRefusals(env: Env, b: Bundle, sig: Bytes, roots: seq<Root>, now: int)
    requires Encodable(env, b) && |sig| == SIGNATURE_LEN && Int64(b.notBefore) && Int64(b.notAfter)
    ensures var u := Unsigned(b);
      ParseVerifyOf(env, u + [64] + sig, roots, now) ==
        if |u| + 65 > 16384 then Failure(Oversized)
        else if b.version == 0 then Failure(Downgrade)
        else if b.version > 1 then Failure(UnknownVersion)
        else if !Pinned(roots, b.rootKeyId) then Failure(UnpinnedRoot)
        else if !Vouched(env, roots, b.rootKeyId, u, sig) then Failure(InvalidSignature)
        else if now < b.notBefore then Failure(NotYetValid)
        else if b.notAfter <= now then Failure(Expired)
        else Success(b)
  {
    hide ParseUnsignedOf, Fields, CheckAddresses, Pinned, Vouched, PinnedRoot;
    SignedParts(b, sig);
    VouchedIff(env, roots, b.rootKeyId, Unsigned(b), sig);
    ParsesUnsigned(env, b, [64] + sig);
    assert ([64] + sig)[1..] == sig;
    assert b.version == 1 ==> b.(version := 1) == b;
  }

  lemma ParsedTimes(env: Env, rest: Bytes)
    requires ParseUnsignedOf(env, rest).Success?
    ensures var b := ParseUnsignedOf(env, rest).value.0; Int64(b.notBefore) && Int64(b.notAfter)
  {
    hide ReadField, ReadAddresses;
  }

  // ---- only canonical bytes are accepted

  lemma TwoTimes(rest: Bytes)
    requires |rest| >= 16
    ensures rest == rest[..8] + (rest[8..16] + rest[16..])
  {}

  lemma TimesRead(rest: Bytes)
    requires ReadTimes(rest).Success?
    ensures var (notBefore, notAfter, end) := ReadTimes(rest).value;
      rest == Nanos(notBefore) + (Nanos(notAfter) + end) && notBefore < notAfter
  {
    hide BigEndian, FromBigEndian, Pow256, Nanos, FromNanos;
    EncodesTime(rest[..8]);
    EncodesTime(rest[8..16]);
    TwoTimes(rest);
  }

  lemma BodyRead(env: Env, rest: Bytes, version: uint32, kind: Bytes, root: Bytes, peer: Bytes)
    requires ReadBody(env, rest, version, kind, root, peer).Success?
    ensures var (b, end) := ReadBody(env, rest, version, kind, root, peer).value;
      && (b.version, b.kind, b.rootKeyId, b.peerId) == (version, kind, root, peer)
      && rest == BigEndian(|b.addresses|, 2) + EncodeAddresses(b.addresses, Times(b, end))
  {
    hide EncodeAddresses, CheckAddresses, ReadTimes, ReadAddresses;
    EncodesInteger(rest[..2]);
    var count := FromBigEndian(rest[..2]);
    var addrs := AddressesRead(env, rest[2..], count, [], peer);
    assert [] + addrs == addrs;
    TimesRead(ReadAddresses(env, rest[2..], count, [], peer).value.1);
    assert rest == rest[..2] + rest[2..];
  }

  lemma UnsignedRead(env: Env, rest: Bytes)
    requires ParseUnsignedOf(env, rest).Success?
    ensures var (b, end) := ParseUnsignedOf(env, rest).value; rest == Fields(b, end)
  {
    hide ReadBody, ReadField, Field, EncodeAddresses, Times;
    EncodesInteger(rest[..4]);
    FieldRead(rest[4..], 1, MAX_KIND_LEN);
    var (kind, r1) := ReadField(rest[4..], 1, MAX_KIND_LEN).value;
    FieldRead(r1, 1, MAX_KEY_ID_LEN);
    var (root, r2) := ReadField(r1, 1, MAX_KEY_ID_LEN).value;
    FieldRead(r2, 1, MAX_PEER_ID_LEN);
    var (peer, r3) := ReadField(r2, 1, MAX_PEER_ID_LEN).value;
    EightBytes();
    BodyRead(env, r3, FromBigEndian(rest[..4]), kind, root, peer);
    assert rest == rest[..4] + rest[4..];
  }

  /** Every accepted byte string is canonical(b), the byte 64 and a signature of it by a pinned bootstrap root. */
  lemma AcceptedIsCanonical(env: Env, raw: Bytes, roots: seq<Root>, now: int)
    requires ParseVerifyOf(env, raw, roots, now).Success?
    ensures var b := ParseVerifyOf(env, raw, roots, now).value;
      && 65 <= |raw| <= MAX_BUNDLE_SIZE
      && CanonicalOf(env, b) == Success(raw[..|raw| - 65]) && raw[|raw| - 65] == 64
      && WellFormed(env, b)
      && Vouched(env, roots, b.rootKeyId, raw[..|raw| - 65], raw[|raw| - 64..])
      && b.notBefore <= now < b.notAfter
  {
    hide ParseUnsignedOf, Fields, Refusal, PinnedRoot, Pinned, Vouched, WellFormed;
    UnsignedRead(env, raw[4..]);
    var (b, rest) := ParseUnsignedOf(env, raw[4..]).value;
    FieldsAppend(b, rest);
    assert raw == raw[..4] + raw[4..] == Unsigned(b) + rest;
    assert raw[..|raw| - 65] == Unsigned(b) && raw[|raw| - 64..] == rest[1..];
    VouchedIff(env, roots, b.rootKeyId, Unsigned(b), rest[1..]);
    CanonicalIffWellFormed(env, b);
  }

  /** Two accepted byte strings for the same bundle differ at most in their signatures. */
  lemma OneEncodingPerBundle(
    env: Env, raw: Bytes, raw': Bytes, roots: seq<Root>, roots': seq<Root>, now: int, now': int)
    requires ParseVerifyOf(env, raw, roots, now).Success?
    requires ParseVerifyOf(env, raw', roots', now') == ParseVerifyOf(env, raw, roots, now)
    ensures |raw| == |raw'| >= 65 && raw[..|raw| - 64] == raw'[..|raw| - 64]
  {
    hide ParseVerifyOf, CanonicalOf;
    AcceptedIsCanonical(env, raw, roots, now);
    AcceptedIsCanonical(env, raw', roots', now');
    assert raw[..|raw| - 64] == raw[..|raw| - 65] + [raw[|raw| - 65]];
    assert raw'[..|raw| - 64] == raw'[..|raw'| - 65] + [raw'[|raw'| - 65]];
  }

  /**
   Sign has no size check: with any five distinct addresses of the greatest length that the peer's
   validation accepts, its output is refused as oversized.
   */
  lemma SignedButOversized(env: Env, b: Bundle, sig: Bytes, roots: seq<Root>, now: int)
    requires b.kind == KIND_BOOTSTRAP && b.version == 1 && 0 < |b.rootKeyId| <= MAX_KEY_ID_LEN
    requires 0 < |b.peerId| <= MAX_PEER_ID_LEN && env.peerOk(b.peerId) && b.notBefore < b.notAfter
    requires |b.addresses| == 5
      && (forall a | a in b.addresses :: |a| == MAX_ADDR_LEN && env.address(a, b.peerId) == None)
    requires forall i, j | 0 <= i < j < 5 :: b.addresses[i] != b.addresses[j]
    requires |sig| == SIGNATURE_LEN
    ensures CanonicalOf(env, b).Success?
    ensures ParseVerifyOf(env, CanonicalOf(env, b).value + [64] + sig, roots, now) == Failure(Oversized)
  {
    hide Field, Times, BigEndian;
    AddressesAcceptedIff(env, b.addresses, [], b.peerId);
    LongSize(b.addresses, Times(b, []));
  }

  lemma {:induction false} LongSize(addrs: seq<Bytes>, tail: Bytes)
    requires forall a | a in addrs :: |a| == MAX_ADDR_LEN
    ensures |EncodeAddresses(addrs, tail)| == |addrs| * (2 + MAX_ADDR_LEN) + |tail|
  {
    if addrs != [] {
      LongSize(addrs[1..], tail);
    }
  }
}
