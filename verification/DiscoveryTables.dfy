/**
 The discovery tables of one scope (internal/store/store.go:948-1158 and 1298-1437): record rows,
 the authority's snapshot counter, the member's freshness and the scope-sync lease. Each
 transaction is a function of the tables, whose failure is a rollback; DiscoveryStore runs the
 transactions in place, loop by loop.

 Every writer fills the index columns of a row from its payload, so a row is its decoded payload
 and the discovered flag. A digest is the set of payloads it covers: the hash is taken as
 collision free.
 */
module DiscoveryTables {
  import opened Units
  import opened Wrappers
  import opened TimeText
  import opened SyncLease

  const MAX_SNAPSHOT_RECORDS := 256
  const MAX_PAYLOAD := 0x1_0000
  const MAX_COUNTER: nat := 0x7fff_ffff_ffff_ffff

  datatype Visibility = Discoverable | Unlisted

  /** A verified discovery record; `body` is the rest of its encoding. */
  datatype PipeRecord = PipeRecord(
    pipe: string, name: string, expiresAt: Time, sequence: nat, visibility: Visibility, body: string)

  datatype Row = Row(record: PipeRecord, discovered: bool)
  type Rows = map<string, Row>

  type Digest = set<PipeRecord>

  datatype Counter = Counter(generation: nat, highWater: nat)

  datatype Freshness = Freshness(
    lastAttempt: Option<Time>, lastSuccess: Option<Time>, complete: bool, errorClass: string,
    nextRetry: Option<Time>, generation: nat, highWater: nat, digest: Option<Digest>)

  datatype Snapshot = Snapshot(generation: nat, highWater: nat, records: seq<PipeRecord>)

  datatype Tables = Tables(
    rows: Rows, counter: Option<Counter>, freshness: Option<Freshness>, lease: Option<LeaseRow>)

  datatype StoreError =
    | InvalidRecord | RecordExpired | Replayed | Conflicting | CounterExhausted | NotInitialized
    | InvalidMetadata | DuplicateRecord | LeaseLost | Rollback | Ambiguous | InvalidFailure

  // ---- one row

  predicate WellFormed(r: PipeRecord) {
    && !Blank(r.pipe) && |r.pipe| <= 8192 && |r.name| <= 8192
    && 0 < |r.body| <= MAX_PAYLOAD && 0 < r.sequence <= MAX_COUNTER
  }

  function Validate(r: PipeRecord, now: Time): Option<StoreError> {
    if !WellFormed(r) then Some(InvalidRecord)
    else if r.expiresAt <= now then Some(RecordExpired)
    else None
  }

  /** putRecordTx */
  function Put(rows: Rows, r: PipeRecord, discovered: bool, now: Time): Result<Rows, StoreError> {
    if Validate(r, now).Some? then Failure(Validate(r, now).value)
    else if r.pipe in rows && r.sequence < rows[r.pipe].record.sequence then Failure(Replayed)
    else if r.pipe in rows && r.sequence == rows[r.pipe].record.sequence then
      if rows[r.pipe].record != r then Failure(Conflicting) else Success(rows)
    else Success(rows[r.pipe := Row(r, discovered)])
  }

  /** putDiscoveredRecordTx: a locally owned row is never replaced. */
  function PutDiscovered(rows: Rows, r: PipeRecord, now: Time): Result<Rows, StoreError> {
    if r.pipe in rows && !rows[r.pipe].discovered then Success(rows) else Put(rows, r, true, now)
  }

  function PutAll(rows: Rows, rs: seq<PipeRecord>, now: Time): Result<Rows, StoreError> {
    if rs == [] then Success(rows)
    else
      match PutAll(rows, rs[..|rs| - 1], now)
      case Failure(e) => Failure(e)
      case Success(u) => PutDiscovered(u, rs[|rs| - 1], now)
  }

  /** DELETE ... WHERE discovered=? AND expires_at<=?, by text. */
  function DropExpired(rows: Rows, discovered: bool, now: Time): Rows {
    map p | p in rows && !(rows[p].discovered == discovered && TextLessEq(rows[p].record.expiresAt, now)) :: rows[p]
  }

  function KeepListed(rows: Rows, listed: set<string>): Rows {
    map p | p in rows && !(rows[p].discovered && p !in listed) :: rows[p]
  }

  // ---- the authority

  /** advanceAuthoritySnapshotTx */
  function Advance(c: Option<Counter>): Result<Counter, StoreError> {
    match c
    case None => Success(Counter(1, 1))
    case Some(Counter(g, h)) =>
      if g == MAX_COUNTER || h == MAX_COUNTER then Failure(CounterExhausted) else Success(Counter(g + 1, h + 1))
  }

  /** PutAuthoritativeRecord */
  function PutAuthoritative(t: Tables, r: PipeRecord, now: Time): Result<Tables, StoreError> {
    match Put(t.rows, r, false, now)
    case Failure(e) => Failure(e)
    case Success(rows) =>
      match Advance(t.counter)
      case Failure(e) => Failure(e)
      case Success(c) => Success(t.(rows := rows, counter := Some(c)))
  }

  /** The prune that AuthoritySnapshot commits before it reads. */
  function SnapshotTx(t: Tables, now: Time): Result<Tables, StoreError> {
    var rows := DropExpired(t.rows, false, now);
    var counter :=
      if rows != t.rows then Advance(t.counter)
      else if t.counter.None? then Failure(NotInitialized)
      else Success(t.counter.value);
    match counter
    case Failure(e) => Failure(e)
    case Success(c) =>
      if c.generation == 0 || c.highWater == 0 then Failure(InvalidMetadata)
      else Success(t.(rows := rows, counter := Some(c)))
  }

  predicate Keyed(rows: Rows) {
    forall p | p in rows :: rows[p].record.pipe == p
  }

  /** The rows the store owns itself, or caches. */
  function Held(rows: Rows, discovered: bool): map<string, PipeRecord> {
    map p | p in rows && rows[p].discovered == discovered :: rows[p].record
  }

  /** ORDER BY name, pipe_id. */
  predicate Before(a: PipeRecord, b: PipeRecord) {
    Less(a.name, b.name) || (a.name == b.name && Less(a.pipe, b.pipe))
  }

  predicate InListingOrder(rs: seq<PipeRecord>) {
    forall i, j | 0 <= i < j < |rs| :: Before(rs[i], rs[j])
  }

  lemma BeforeIsTransitive(a: PipeRecord, b: PipeRecord, c: PipeRecord)
    requires Before(a, b) && Before(b, c)
    ensures Before(a, c)
  {
    if Less(a.name, b.name) && Less(b.name, c.name) {
      LessIsTransitive(a.name, b.name, c.name);
    } else if a.name == b.name == c.name {
      LessIsTransitive(a.pipe, b.pipe, c.pipe);
    }
  }

  lemma BeforeIsTotal(a: PipeRecord, b: PipeRecord)
    requires a.pipe != b.pipe
    ensures Before(a, b) || Before(b, a)
  {
    LessIsStrict(a.name, b.name);
    LessIsStrict(a.pipe, b.pipe);
  }

  /** The first of these rows in listing order. */
  method First(owned: map<string, PipeRecord>, left: set<string>) returns (p: string)
    requires left != {} && left <= owned.Keys && forall q | q in left :: owned[q].pipe == q
    ensures p in left && forall q | q in left && q != p :: Before(owned[p], owned[q])
  {
    hide Less;
    p :| p in left;
    var todo := left - {p};
    while todo != {}
      invariant p in left && todo <= left && p !in todo
      invariant forall q | q in left && q != p && q !in todo :: Before(owned[p], owned[q])
      decreases todo
    {
      var q :| q in todo;
      todo := todo - {q};
      BeforeIsTotal(owned[p], owned[q]);
      if Before(owned[q], owned[p]) {
        forall x | x in left && x != q && x !in todo
          ensures Before(owned[q], owned[x])
        {
          if x != p {
            BeforeIsTransitive(owned[q], owned[p], owned[x]);
          }
        }
        p := q;
      }
    }
  }

  /** The rows in listing order, cut at the limit. */
  method ListRows(owned: map<string, PipeRecord>, limit: nat) returns (records: seq<PipeRecord>, complete: bool)
    requires forall q | q in owned :: owned[q].pipe == q
    ensures complete <==> |owned| <= limit
    ensures |records| <= limit && NoDuplicates(records) && InListingOrder(records)
    ensures forall x | x in records :: x.pipe in owned && owned[x.pipe] == x
    ensures forall x, p | x in records && p in owned && owned[p] !in records :: Before(x, owned[p])
    ensures complete ==> forall p | p in owned :: owned[p] in records
  {
    hide Less;
    var left := owned.Keys;
    records := [];
    while left != {} && |records| < limit
      invariant left <= owned.Keys && |records| + |left| == |owned| && |records| <= limit
      invariant NoDuplicates(records) && InListingOrder(records)
      invariant forall x | x in records :: x.pipe !in left && x.pipe in owned && owned[x.pipe] == x
      invariant forall x, p | x in records && p in left :: Before(x, owned[p])
      invariant forall p | p in owned && p !in left :: owned[p] in records
      decreases left
    {
      var p := First(owned, left);
      records, left := records + [owned[p]], left - {p};
    }
    complete := left == {};
  }

  // ---- the member

  predicate NoDuplicates(rs: seq<PipeRecord>) {
    forall i, j | 0 <= i < j < |rs| :: rs[i].pipe != rs[j].pipe
  }

  function Pipes(rs: seq<PipeRecord>): set<string> {
    set r | r in rs :: r.pipe
  }

  function DigestOf(rs: seq<PipeRecord>): Digest {
    set r | r in rs
  }

  function FirstInvalid(rs: seq<PipeRecord>, now: Time): Option<StoreError> {
    if rs == [] then None
    else if Validate(rs[0], now).Some? then Validate(rs[0], now)
    else FirstInvalid(rs[1..], now)
  }

  /** The ordering and ambiguity checks against what the member already took. */
  function Regression(f: Option<Freshness>, s: Snapshot): Option<StoreError> {
    if f.Some? && (s.generation < f.value.generation || s.highWater < f.value.highWater) then Some(Rollback)
    else if f.Some? && s.generation == f.value.generation && f.value.digest.Some?
         && (Some(DigestOf(s.records)) != f.value.digest || s.highWater != f.value.highWater) then Some(Ambiguous)
    else None
  }

  function Refreshed(s: Snapshot, now: Time): Freshness {
    Freshness(Some(now), Some(now), true, "", None, s.generation, s.highWater, Some(DigestOf(s.records)))
  }

  /** reconcileAuthoritativeSnapshotOnce, for a complete snapshot from the pinned authority. */
  function Reconcile(t: Tables, s: Snapshot, lease: Option<Lease>, now: Time): Result<Tables, StoreError> {
    if s.generation == 0 || s.highWater == 0 || |s.records| > MAX_SNAPSHOT_RECORDS then Failure(InvalidMetadata)
    else if !NoDuplicates(s.records) then Failure(DuplicateRecord)
    else if FirstInvalid(s.records, now).Some? then Failure(FirstInvalid(s.records, now).value)
    else if lease.Some? && !Current(t.lease, lease.value, now) then Failure(LeaseLost)
    else if Regression(t.freshness, s).Some? then Failure(Regression(t.freshness, s).value)
    else
      match PutAll(t.rows, s.records, now)
      case Failure(e) => Failure(e)
      case Success(rows) =>
        Success(t.(rows := DropExpired(KeepListed(rows, Pipes(s.records)), true, now),
                   freshness := Some(Refreshed(s, now))))
  }

  /** recordSnapshotFailure: the snapshot position is kept. */
  function RecordFailure(t: Tables, errorClass: string, nextRetry: Option<Time>, lease: Option<Lease>, now: Time)
    : Result<Tables, StoreError>
  {
    if errorClass == "" then Failure(InvalidFailure)
    else if lease.Some? && !Current(t.lease, lease.value, now) then Failure(LeaseLost)
    else
      var was := if t.freshness.Some? then t.freshness.value else Freshness(None, None, false, "", None, 0, 0, None);
      Success(t.(freshness := Some(was.(lastAttempt := Some(now), complete := false, errorClass := errorClass,
                                        nextRetry := nextRetry))))
  }

  // ---- when the transactions commit

  /** A record that may be stored: every field in bounds, and not expired. */
  predicate Storable(r: PipeRecord, now: Time) {
    && !Blank(r.pipe) && |r.pipe| <= 8192 && |r.name| <= 8192 && 0 < |r.body| <= 0x1_0000
    && 0 < r.sequence <= 0x7fff_ffff_ffff_ffff && now < r.expiresAt
  }

  /** The record neither replays nor contradicts the one in its row. */
  predicate Supersedes(r: PipeRecord, was: PipeRecord) {
    r.sequence > was.sequence || r == was
  }

  predicate FencedBy(row: Option<LeaseRow>, fence: Option<Lease>, now: Time) {
    fence.Some? ==>
      var l := fence.value;
      Fenced(row, l.scope, l.holder, l.process, l.token, now)
  }

  predicate ValidSnapshot(s: Snapshot, now: Time) {
    && 0 < s.generation && 0 < s.highWater && |s.records| <= 256
    && (forall i, j | 0 <= i < j < |s.records| :: s.records[i].pipe != s.records[j].pipe)
    && (forall r | r in s.records :: Storable(r, now))
  }

  /** An older snapshot than the one taken last. */
  predicate Older(f: Option<Freshness>, s: Snapshot) {
    f.Some? && (s.generation < f.value.generation || s.highWater < f.value.highWater)
  }

  /** Another snapshot of the generation taken last. */
  predicate Contradicts(f: Option<Freshness>, s: Snapshot) {
    && f.Some? && f.value.digest.Some? && s.generation == f.value.generation
    && ((set r | r in s.records) != f.value.digest.value || s.highWater != f.value.highWater)
  }

  /** No cached row is replayed or contradicted; a row of the store's own never is. */
  predicate NoReplay(rows: Rows, s: Snapshot) {
    forall r | r in s.records && r.pipe in rows && rows[r.pipe].discovered :: Supersedes(r, rows[r.pipe].record)
  }

  lemma PutIff(rows: Rows, r: PipeRecord, discovered: bool, now: Time)
    ensures Put(rows, r, discovered, now).Success? <==>
              Storable(r, now) && (r.pipe in rows ==> Supersedes(r, rows[r.pipe].record))
    ensures Put(rows, r, discovered, now).Success? ==>
              Put(rows, r, discovered, now).value ==
              if r.pipe in rows && r == rows[r.pipe].record then rows else rows[r.pipe := Row(r, discovered)]
  {}

  predicate Cacheable(rows: Rows, r: PipeRecord, now: Time) {
    (r.pipe in rows ==> rows[r.pipe].discovered) ==>
      Storable(r, now) && (r.pipe in rows ==> Supersedes(r, rows[r.pipe].record))
  }

  lemma PutDiscoveredIff(rows: Rows, r: PipeRecord, now: Time)
    ensures PutDiscovered(rows, r, now).Success? <==> Cacheable(rows, r, now)
    ensures PutDiscovered(rows, r, now).Success? ==>
              forall p | p != r.pipe ::
                var u := PutDiscovered(rows, r, now).value;
                (p in u <==> p in rows) && (p in u ==> u[p] == rows[p])
  {}

  lemma {:induction false} PutAllIff(rows: Rows, rs: seq<PipeRecord>, now: Time)
    requires NoDuplicates(rs)
    ensures PutAll(rows, rs, now).Success? <==> forall r | r in rs :: Cacheable(rows, r, now)
    ensures PutAll(rows, rs, now).Success? ==>
              forall p | p !in Pipes(rs) ::
                var u := PutAll(rows, rs, now).value;
                (p in u <==> p in rows) && (p in u ==> u[p] == rows[p])
  {
    hide Put, PutDiscovered, Storable, Supersedes;
    if rs != [] {
      var k := |rs| - 1;
      assert rs == rs[..k] + [rs[k]];
      PutAllIff(rows, rs[..k], now);
      if PutAll(rows, rs[..k], now).Success? {
        var u := PutAll(rows, rs[..k], now).value;
        assert rs[k].pipe !in Pipes(rs[..k]);
        PutDiscoveredIff(u, rs[k], now);
        assert Cacheable(u, rs[k], now) <==> Cacheable(rows, rs[k], now);
      }
    }
  }

  lemma {:induction false} FirstInvalidIff(rs: seq<PipeRecord>, now: Time)
    ensures FirstInvalid(rs, now) == None <==> forall r | r in rs :: Storable(r, now)
    ensures FirstInvalid(rs, now) in [None, Some(InvalidRecord), Some(RecordExpired)]
  {
    if rs != [] {
      assert Validate(rs[0], now) == None <==> Storable(rs[0], now);
      FirstInvalidIff(rs[1..], now);
      assert forall r :: r in rs <==> r == rs[0] || r in rs[1..];
    }
  }

  lemma {:induction false} PutAllErrors(rows: Rows, rs: seq<PipeRecord>, now: Time)
    ensures PutAll(rows, rs, now).Success? || PutAll(rows, rs, now).error in
              [InvalidRecord, RecordExpired, Replayed, Conflicting]
  {
    if rs != [] {
      PutAllErrors(rows, rs[..|rs| - 1], now);
    }
  }

  /**
   A reconcile commits exactly for a well-formed, unexpired, duplicate-free snapshot that the fence, if any,
   still admits, that is not older than the last one nor another one of its generation, and that replays no
   cached record. Of a well-formed snapshot, a lost fence is reported first, then age, then ambiguity.
   */
  lemma ReconcileCommitsIff(t: Tables, s: Snapshot, fence: Option<Lease>, now: Time)
    ensures var r := Reconcile(t, s, fence, now);
      && (r.Success? <==> && ValidSnapshot(s, now) && FencedBy(t.lease, fence, now)
                          && !Older(t.freshness, s) && !Contradicts(t.freshness, s) && NoReplay(t.rows, s))
      && (r == Failure(LeaseLost) <==> ValidSnapshot(s, now) && !FencedBy(t.lease, fence, now))
      && (r == Failure(Rollback) <==>
            ValidSnapshot(s, now) && FencedBy(t.lease, fence, now) && Older(t.freshness, s))
      && (r == Failure(Ambiguous) <==> && ValidSnapshot(s, now) && FencedBy(t.lease, fence, now)
                                       && !Older(t.freshness, s) && Contradicts(t.freshness, s))
  {
    hide PutAll, FirstInvalid, Storable, Supersedes, Fenced, Current;
    FirstInvalidIff(s.records, now);
    PutAllErrors(t.rows, s.records, now);
    FenceIff(t.lease, fence, now);
    if NoDuplicates(s.records) {
      PutAllIff(t.rows, s.records, now);
    }
  }

  lemma FenceIff(row: Option<LeaseRow>, fence: Option<Lease>, now: Time)
    ensures FencedBy(row, fence, now) <==> (fence.Some? ==> Current(row, fence.value, now))
  {}

  /** A failed refresh is recorded under the same fence, and keeps every row and the last snapshot's position. */
  lemma FailureKeepsPosition(
    t: Tables, errorClass: string, nextRetry: Option<Time>, fence: Option<Lease>, now: Time)
    ensures var r := RecordFailure(t, errorClass, nextRetry, fence, now);
      && (r.Success? <==> errorClass != "" && FencedBy(t.lease, fence, now))
      && (r == Failure(LeaseLost) <==> errorClass != "" && !FencedBy(t.lease, fence, now))
      && (r.Success? ==>
            var u := r.value;
            && u.rows == t.rows && u.counter == t.counter && u.lease == t.lease && u.freshness.Some?
            && var f := u.freshness.value;
               && f.lastAttempt == Some(now) && !f.complete && f.errorClass == errorClass && f.nextRetry == nextRetry
               && (t.freshness.None? ==> f.lastSuccess == None && f.generation == f.highWater == 0 && f.digest == None)
               && (t.freshness.Some? ==>
                     var g := t.freshness.value;
                     && f.lastSuccess == g.lastSuccess && f.generation == g.generation
                     && f.highWater == g.highWater && f.digest == g.digest))
  {}

  method FindDuplicate(rs: seq<PipeRecord>) returns (duplicate: bool, seen: set<string>)
    ensures duplicate <==> !NoDuplicates(rs)
    ensures !duplicate ==> seen == Pipes(rs)
  {
    seen := {};
    for i := 0 to |rs|
      invariant seen == Pipes(rs[..i]) && NoDuplicates(rs[..i])
    {
      assert rs[..i + 1] == rs[..i] + [rs[i]];
      if rs[i].pipe in seen {
        return true, seen;
      }
      seen := seen + {rs[i].pipe};
    }
    assert rs[..|rs|] == rs;
    duplicate := false;
  }

  method ValidateAll(rs: seq<PipeRecord>, now: Time) returns (error: Option<StoreError>)
    ensures error == FirstInvalid(rs, now)
  {
    for i := 0 to |rs|
      invariant FirstInvalid(rs, now) == FirstInvalid(rs[i..], now)
    {
      var invalid := Validate(rs[i], now);
      if invalid.Some? {
        return invalid;
      }
      assert rs[i..][1..] == rs[i + 1..];
    }
    return None;
  }

  method PutRecords(rows: Rows, rs: seq<PipeRecord>, now: Time) returns (r: Result<Rows, StoreError>)
    requires Keyed(rows)
    ensures r == PutAll(rows, rs, now)
    ensures r.Success? ==> Keyed(r.value)
  {
    var tx := rows;
    for i := 0 to |rs|
      invariant PutAll(rows, rs[..i], now) == Success(tx) && Keyed(tx)
    {
      assert rs[..i + 1][..i] == rs[..i];
      var put := PutDiscovered(tx, rs[i], now);
      if put.Failure? {
        PutAllStops(rows, rs, now, i + 1);
        return put;
      }
      tx := put.value;
    }
    assert rs[..|rs|] == rs;
    r := Success(tx);
  }

  class DiscoveryStore {
    var rows: Rows
    var counter: Option<Counter>
    var freshness: Option<Freshness>
    var lease: Option<LeaseRow>

    constructor ()
      ensures Valid() && Contents() == Tables(map[], None, None, None)
    {
      rows, counter, freshness, lease := map[], None, None, None;
    }

    function Contents(): Tables
      reads this
    {
      Tables(rows, counter, freshness, lease)
    }

    // pipe_id is the key of a row and a field of its payload.
    ghost predicate Valid()
      reads this
    {
      Keyed(rows)
    }

    method PutAuthoritativeRecord(r: PipeRecord, now: Time) returns (error: Option<StoreError>)
      requires Valid()
      modifies this
      ensures Valid()
      ensures match PutAuthoritative(old(Contents()), r, now)
              case Success(t) => error == None && Contents() == t
              case Failure(e) => error == Some(e) && Contents() == old(Contents())
      ensures error == None <==>
        && Storable(r, now) && (r.pipe in old(rows) ==> Supersedes(r, old(rows)[r.pipe].record))
        && (old(counter).Some? ==>
              old(counter).value.generation != MAX_COUNTER && old(counter).value.highWater != MAX_COUNTER)
      ensures error == None && old(counter).None? ==> counter == Some(Counter(1, 1))
      ensures error == None && old(counter).Some? ==>
        counter == Some(Counter(old(counter).value.generation + 1, old(counter).value.highWater + 1))
      ensures error == None ==>
        rows == if r.pipe in old(rows) && r == old(rows)[r.pipe].record then old(rows)
                else old(rows)[r.pipe := Row(r, false)]
      ensures freshness == old(freshness) && lease == old(lease)
    {
      PutIff(rows, r, false, now);
      var put := Put(rows, r, false, now);
      if put.Failure? {
        return Some(put.error);
      }
      var advanced := Advance(counter);
      if advanced.Failure? {
        return Some(advanced.error);
      }
      rows, counter := put.value, Some(advanced.value);
      return None;
    }

    /** The snapshot read: every owned row by name and Pipe ID, cut at the limit. */
    method AuthoritySnapshot(limit: nat, now: Time) returns (r: Result<Snapshot, StoreError>, complete: bool)
      requires Valid()
      modifies this
      ensures Valid()
      ensures limit == 0 || limit > MAX_SNAPSHOT_RECORDS ==>
        r == Failure(InvalidMetadata) && Contents() == old(Contents())
      ensures 0 < limit <= MAX_SNAPSHOT_RECORDS ==>
                match SnapshotTx(old(Contents()), now)
                case Failure(e) => r == Failure(e) && Contents() == old(Contents())
                case Success(t) =>
                  && r.Success? && Contents() == t
                  && t.counter == Some(Counter(r.value.generation, r.value.highWater))
                  && (complete <==> |Held(t.rows, false)| <= limit)
                  && |r.value.records| <= limit
                  && NoDuplicates(r.value.records) && InListingOrder(r.value.records)
                  && (forall x, p | x in r.value.records && p in Held(t.rows, false)
                        && Held(t.rows, false)[p] !in r.value.records :: Before(x, Held(t.rows, false)[p]))
                  && (forall x | x in r.value.records ::
                      x.pipe in Held(t.rows, false) && Held(t.rows, false)[x.pipe] == x)
                  && (complete ==> forall p | p in Held(t.rows, false) :: Held(t.rows, false)[p] in r.value.records)
      ensures r.Success? ==>
        && (forall x | x in r.value.records :: TextLess(now, x.expiresAt))
        && (forall i, j | 0 <= i < j < |r.value.records| ::
              var a, b := r.value.records[i], r.value.records[j];
              Less(a.name, b.name) || (a.name == b.name && Less(a.pipe, b.pipe)))
        && (forall p | p in old(rows) ::
              p in rows <==> old(rows)[p].discovered || TextLess(now, old(rows)[p].record.expiresAt))
        && (forall p | p in rows :: p in old(rows) && rows[p] == old(rows)[p])
      ensures r.Success? && rows == old(rows) ==> counter == old(counter)
      ensures r.Success? && rows != old(rows) && old(counter).Some? ==>
        counter == Some(Counter(old(counter).value.generation + 1, old(counter).value.highWater + 1))
      ensures freshness == old(freshness) && lease == old(lease)
    {
      complete := false;
      if limit == 0 || limit > MAX_SNAPSHOT_RECORDS {
        return Failure(InvalidMetadata), false;
      }
      var tx := SnapshotTx(Contents(), now);
      if tx.Failure? {
        return Failure(tx.error), false;
      }
      var c := tx.value.counter.value;
      rows, counter := tx.value.rows, Some(c);
      // Every owned row that survived the prune has an expiry text after now's.
      var records;
      records, complete := ListRows(Held(rows, false), limit);
      r := Success(Snapshot(c.generation, c.highWater, records));
    }

    /** Reconcile one complete snapshot; the writes made before a failure are rolled back. */
    method ReconcileAuthoritativeSnapshot(s: Snapshot, fence: Option<Lease>, now: Time)
      returns (error: Option<StoreError>)
      requires Valid()
      modifies this
      ensures Valid()
      ensures match Reconcile(old(Contents()), s, fence, now)
              case Success(t) => error == None && Contents() == t
              case Failure(e) => error == Some(e) && Contents() == old(Contents())
      ensures error == None <==>
        && ValidSnapshot(s, now) && FencedBy(old(lease), fence, now)
        && !Older(old(freshness), s) && !Contradicts(old(freshness), s) && NoReplay(old(rows), s)
      ensures error == Some(LeaseLost) <==> ValidSnapshot(s, now) && !FencedBy(old(lease), fence, now)
      ensures error == None ==> freshness == Some(Freshness(Some(now), Some(now), true, "", None, s.generation,
                                                            s.highWater, Some(set r | r in s.records)))
      ensures counter == old(counter) && lease == old(lease)
    {
      ReconcileCommitsIff(Contents(), s, fence, now);
      if s.generation == 0 || s.highWater == 0 || |s.records| > MAX_SNAPSHOT_RECORDS {
        return Some(InvalidMetadata);
      }
      var duplicate, seen := FindDuplicate(s.records);
      if duplicate {
        return Some(DuplicateRecord);
      }
      var invalid := ValidateAll(s.records, now);
      if invalid.Some? {
        return invalid;
      }
      if fence.Some? && !Current(lease, fence.value, now) {
        return Some(LeaseLost);
      }
      var regression := Regression(freshness, s);
      if regression.Some? {
        return regression;
      }
      var put := PutRecords(rows, s.records, now);
      if put.Failure? {
        return Some(put.error);
      }
      rows := DropExpired(KeepListed(put.value, seen), true, now);
      freshness := Some(Refreshed(s, now));
      return None;
    }
  }

  lemma {:induction false} PutAllStops(rows: Rows, rs: seq<PipeRecord>, now: Time, i: nat)
    requires i <= |rs| && PutAll(rows, rs[..i], now).Failure?
    ensures PutAll(rows, rs, now) == PutAll(rows, rs[..i], now)
  {
    if i == |rs| {
      assert rs[..i] == rs;
    } else {
      assert rs[..|rs| - 1][..i] == rs[..i];
      PutAllStops(rows, rs[..|rs| - 1], now, i);
    }
  }
}
