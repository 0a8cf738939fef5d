/**
 The multi-hop traversal protocol: each serve checks the visited chain and the hop budget of the open it
 receives, appends its own Pipe ID, and forwards to the next Pipe (internal/runtime/serve.go:73-135,
 internal/engine/engine.go:65-128 and 230-264).
 */
module Traversal {
  import opened Units
  import opened Wrappers

  const MAX_FIELD := 8192
  const MAX_LEASE_BYTES := 48 * 1024

  datatype OpenPipe = OpenPipe(pipeId: string, proof: string, lease: string, visited: seq<string>, hopLimit: int)

  datatype TraversalState = TraversalState(visited: seq<string>, remaining: int, maxHops: int)

  datatype TraversalError = HopLimitExceeded | LoopDetected

  datatype OpenError = InvalidInput | NotFound | HopLimit | Loop | AuthorizationDenied | TargetUnreachable

  predicate Distinct(ids: seq<string>) {
    forall i, j | 0 <= i < j < |ids| :: ids[i] != ids[j]
  }

  predicate Bounded(ids: seq<string>) {
    forall i | 0 <= i < |ids| :: |ids[i]| <= MAX_FIELD
  }

  // ---- the engine

  /** A hop moves one unit of the budget to the visited list. */
  function Advance(s: TraversalState, pipeId: string): (r: Result<TraversalState, TraversalError>)
    ensures r.Success? <==> 0 < s.remaining && forall i | 0 <= i < |s.visited| :: s.visited[i] != pipeId
    ensures r.Success? ==>
      && |r.value.visited| + r.value.remaining == |s.visited| + s.remaining && r.value.maxHops == s.maxHops
      && r.value.visited == s.visited + [pipeId]
    ensures r == Failure(HopLimitExceeded) <==> s.remaining <= 0
  {
    if s.remaining <= 0 then Failure(HopLimitExceeded)
    else if pipeId in s.visited then Failure(LoopDetected)
    else Success(TraversalState(s.visited + [pipeId], s.remaining - 1, s.maxHops))
  }

  function FromWireOf(visited: seq<string>, hopLimit: int): Result<TraversalState, TraversalError> {
    if hopLimit <= 0 || hopLimit > DEFAULT_MAX_PIPE_HOPS then Failure(HopLimitExceeded)
    else if !Distinct(visited) then Failure(LoopDetected)
    else if |visited| >= hopLimit then Failure(HopLimitExceeded)
    else Success(TraversalState(visited, hopLimit - |visited|, hopLimit))
  }

  /** What forwardPipeTarget checks before it opens the next Pipe. */
  function ForwardTest(s: TraversalState, next: string): Option<TraversalError> {
    if next in s.visited then Some(LoopDetected)
    else if s.remaining < 1 then Some(HopLimitExceeded)
    else None
  }

  /** The open that a downstream opener sends (exact_downstream.go:120-129, pipe.go:873-877). */
  function OpenFor(s: TraversalState, next: string, proof: string, lease: string): OpenPipe {
    OpenPipe(next, proof, lease, s.visited, if s.maxHops <= 0 then DEFAULT_MAX_PIPE_HOPS else s.maxHops)
  }

  method FromWire(visited: seq<string>, hopLimit: int) returns (r: Result<TraversalState, TraversalError>)
    ensures r == FromWireOf(visited, hopLimit)
    ensures r.Success? <==> 0 < hopLimit <= 8 && |visited| < hopLimit
                            && forall i, j | 0 <= i < j < |visited| :: visited[i] != visited[j]
    ensures r.Success? ==>
      r.value.visited == visited && r.value.maxHops == hopLimit == |visited| + r.value.remaining
    ensures r == Failure(LoopDetected) <==>
      0 < hopLimit <= 8 && exists i, j | 0 <= i < j < |visited| :: visited[i] == visited[j]
  {
    if hopLimit <= 0 || hopLimit > DEFAULT_MAX_PIPE_HOPS {
      return Failure(HopLimitExceeded);
    }
    var seen: set<string> := {};
    for i := 0 to |visited|
      invariant forall id :: id in seen <==> id in visited[..i]
      invariant Distinct(visited[..i])
    {
      if visited[i] in seen {
        var j :| 0 <= j < i && visited[..i][j] == visited[i];
        assert visited[j] == visited[i];
        return Failure(LoopDetected);
      }
      seen := seen + {visited[i]};
      assert visited[..i + 1] == visited[..i] + [visited[i]];
    }
    assert visited[..|visited|] == visited;
    if |visited| >= hopLimit {
      return Failure(HopLimitExceeded);
    }
    return Success(TraversalState(visited, hopLimit - |visited|, hopLimit));
  }

  // ---- serve

  /** The checks of serve on the open itself, in order. */
  function WireTest(self: string, open: OpenPipe): Option<OpenError> {
    if !Bounded([open.pipeId, open.proof] + open.visited) || |open.lease| > MAX_LEASE_BYTES then Some(InvalidInput)
    else if open.pipeId != self then Some(NotFound)
    else if !(0 < open.hopLimit <= DEFAULT_MAX_PIPE_HOPS) || |open.visited| >= open.hopLimit then Some(HopLimit)
    else if !Distinct(open.visited) || self in open.visited then Some(Loop)
    else None
  }

  method BoundedStrings(values: seq<string>) returns (ok: bool)
    ensures ok == Bounded(values)
  {
    for i := 0 to |values|
      invariant Bounded(values[..i])
    {
      if |values[i]| > MAX_FIELD {
        return false;
      }
    }
    return true;
  }

  /** Every string of the open is within its bound. */
  predicate Sized(open: OpenPipe) {
    && |open.pipeId| <= 8192 && |open.proof| <= 8192 && |open.lease| <= 48 * 1024
    && forall i | 0 <= i < |open.visited| :: |open.visited[i]| <= 8192
  }

  predicate HasBudget(open: OpenPipe) {
    |open.visited| < open.hopLimit <= 8
  }

  /** The open is for this Pipe, within bounds and budget, and has not come around. */
  predicate Admissible(self: string, open: OpenPipe) {
    && Sized(open) && open.pipeId == self && HasBudget(open)
    && (forall i | 0 <= i < |open.visited| :: open.visited[i] != self)
    && (forall i, j | 0 <= i < j < |open.visited| :: open.visited[i] != open.visited[j])
  }

  lemma AdmissibleIff(self: string, open: OpenPipe)
    ensures WireTest(self, open).None? <==> Admissible(self, open)
    ensures WireTest(self, open) == Some(InvalidInput) <==> !Sized(open)
    ensures WireTest(self, open) == Some(NotFound) <==> Sized(open) && open.pipeId != self
    ensures WireTest(self, open) == Some(HopLimit) <==> Sized(open) && open.pipeId == self && !HasBudget(open)
    ensures WireTest(self, open) == Some(Loop) <==>
      Sized(open) && open.pipeId == self && HasBudget(open) && !Admissible(self, open)
  {
    var strings := [open.pipeId, open.proof] + open.visited;
    assert strings[0] == open.pipeId && strings[1] == open.proof;
    assert forall i | 0 <= i < |open.visited| :: strings[i + 2] == open.visited[i];
    assert Bounded(strings) <==> |open.pipeId| <= 8192 && |open.proof| <= 8192 && Bounded(open.visited);
  }

  method CheckOpen(self: string, open: OpenPipe) returns (r: Option<OpenError>)
    ensures r == WireTest(self, open)
    ensures r.None? <==> Admissible(self, open)
    ensures r == Some(InvalidInput) <==> !Sized(open)
    ensures r == Some(NotFound) <==> Sized(open) && open.pipeId != self
    ensures r == Some(HopLimit) <==> Sized(open) && open.pipeId == self && !HasBudget(open)
  {
    AdmissibleIff(self, open);
    hide Admissible, Sized;
    var bounded := BoundedStrings([open.pipeId, open.proof] + open.visited);
    if !bounded || |open.lease| > MAX_LEASE_BYTES {
      return Some(InvalidInput);
    }
    if open.pipeId != self {
      return Some(NotFound);
    }
    if open.hopLimit <= 0 || open.hopLimit > DEFAULT_MAX_PIPE_HOPS || |open.visited| >= open.hopLimit {
      return Some(HopLimit);
    }
    var seen: set<string> := {};
    for i := 0 to |open.visited|
      invariant forall id :: id in seen <==> id in open.visited[..i]
      invariant Distinct(open.visited[..i]) && self !in open.visited[..i]
    {
      if open.visited[i] in seen || open.visited[i] == self {
        if open.visited[i] != self {
          var j :| 0 <= j < i && open.visited[..i][j] == open.visited[i];
          assert open.visited[j] == open.visited[i];
        }
        return Some(Loop);
      }
      seen := seen + {open.visited[i]};
      assert open.visited[..i + 1] == open.visited[..i] + [open.visited[i]];
    }
    assert open.visited[..|open.visited|] == open.visited;
    return None;
  }

  datatype Authorization = Authorization(pipeId: string, subject: string, expiresAt: int)

  /** The receiving boundary's own check of what the authorizer returned; time zero is Go's zero time. */
  predicate Binds(auth: Authorization, open: OpenPipe, client: string, now: int) {
    auth.pipeId == open.pipeId && auth.subject == client && auth.expiresAt != 0 && auth.expiresAt > now
  }

  /** A Service, or a Pipe whose reference resolves to a valid spec with this Pipe ID, or to nothing. */
  datatype Target = Service | Pipe(resolved: Option<string>)

  /**
   What the calls of serve return: the authorizer; the dial of a Service or the opening of a Pipe with the
   proof and lease it sends; the session identifier; the revocation check of the session; the write of the
   result; NewSession; and SetActiveCarrier.
   */
  datatype Calls = Calls(
    auth: Option<Authorization>, reaches: bool, proof: string, lease: string,
    hasId: bool, allowed: bool, answered: bool, registered: bool, installed: bool)

  /** The target that serve got hold of, if any. */
  datatype Reached = Nothing | Dialled | Forwarded(open: OpenPipe)

  /** An error result, an error without one, a carrier left to the stopped session, or a session that ran. */
  datatype Outcome = Refused(error: OpenError) | Dropped | Transferred | Ran

  /** The state with which serve forwards. */
  function Served(self: string, open: OpenPipe): TraversalState {
    TraversalState(open.visited + [self], open.hopLimit - |open.visited| - 1, open.hopLimit)
  }

  predicate Authorized(self: string, open: OpenPipe, client: string, now: int, calls: Calls) {
    WireTest(self, open).None? && calls.auth.Some? && Binds(calls.auth.value, open, client, now)
  }

  /** What an authorized open can reach. */
  function Reachable(self: string, target: Target, open: OpenPipe, calls: Calls): Reached {
    match target
    case Service => if calls.reaches then Dialled else Nothing
    case Pipe(None) => Nothing
    case Pipe(Some(next)) =>
      if ForwardTest(Served(self, open), next).Some? || !calls.reaches then Nothing
      else Forwarded(OpenPipe(next, calls.proof, calls.lease, open.visited + [self], open.hopLimit))
  }

  /** A Service, or a Pipe not yet on the chain with budget left for it. */
  predicate CanReach(self: string, target: Target, open: OpenPipe) {
    match target
    case Service => true
    case Pipe(next) =>
      && next.Some? && next.value != self && |open.visited| + 1 < open.hopLimit
      && forall i | 0 <= i < |open.visited| :: open.visited[i] != next.value
  }

  /**
   serve. It gets hold of a target only after every wire check and a binding authorization, in that order,
   and never refuses for the traversal state after them; a forwarded open carries its own ID and the same
   hop limit. A target that it got hold of is closed by serve itself exactly when no session ran over it.
   */
  method Serve(self: string, target: Target, open: OpenPipe, client: string, now: int, calls: Calls)
    returns (r: Outcome, reached: Reached, closed: bool)
    ensures WireTest(self, open).Some? ==> r == Refused(WireTest(self, open).value)
    ensures WireTest(self, open).None? && !Authorized(self, open, client, now, calls) ==>
      r == Refused(AuthorizationDenied)
    ensures Authorized(self, open, client, now, calls) ==> reached == Reachable(self, target, open, calls)
    ensures !Authorized(self, open, client, now, calls) ==> reached == Nothing
    ensures Authorized(self, open, client, now, calls) && reached == Nothing ==> r == Refused(TargetUnreachable)
    ensures reached != Nothing ==> (r == Refused(AuthorizationDenied) <==> calls.hasId && !calls.allowed)
    ensures r == Ran <==>
      reached != Nothing && calls.hasId && calls.allowed && calls.answered && calls.registered && calls.installed
    ensures closed <==> reached != Nothing && r != Ran
    ensures reached != Nothing <==>
      && Admissible(self, open)
      && calls.auth.Some? && calls.auth.value.pipeId == self && calls.auth.value.subject == client
      && now < calls.auth.value.expiresAt != 0
      && calls.reaches && CanReach(self, target, open)
    ensures reached == Dialled ==> target.Service?
    ensures reached.Forwarded? ==>
      && target.Pipe? && target.resolved == Some(reached.open.pipeId)
      && reached.open.visited == open.visited + [self] && reached.open.hopLimit == open.hopLimit
      && reached.open.proof == calls.proof && reached.open.lease == calls.lease
  {
    AdmissibleIff(self, open);
    hide Admissible;
    reached, closed := Nothing, false;
    var refusal := CheckOpen(self, open);
    if refusal.Some? {
      return Refused(refusal.value), Nothing, false;
    }
    if calls.auth.None? || !Binds(calls.auth.value, open, client, now) {
      return Refused(AuthorizationDenied), Nothing, false;
    }
    match target {
      case Service =>
        if !calls.reaches {
          return Refused(TargetUnreachable), Nothing, false;
        }
        reached := Dialled;
      case Pipe(resolved) =>
        TraversalCannotFail(self, open);
        var wire := FromWire(open.visited, open.hopLimit);
        var advanced := Advance(wire.value, self);
        var state := advanced.value;
        if resolved.None? || ForwardTest(state, resolved.value).Some? || !calls.reaches {
          return Refused(TargetUnreachable), Nothing, false;
        }
        reached := Forwarded(OpenFor(state, resolved.value, calls.proof, calls.lease));
    }
    // From here on a return closes the target, until the session owns it.
    closed := true;
    if !calls.hasId {
      return Dropped, reached, closed;
    }
    if !calls.allowed {
      return Refused(AuthorizationDenied), reached, closed;
    }
    if !calls.answered || !calls.registered {
      return Dropped, reached, closed;
    }
    if !calls.installed {
      return Transferred, reached, closed;
    }
    return Ran, reached, false;
  }

  // ---- one hop

  /** After serve's own checks, FromWire and Advance cannot fail. */
  lemma TraversalCannotFail(self: string, open: OpenPipe)
    requires WireTest(self, open).None?
    ensures FromWireOf(open.visited, open.hopLimit).Success?
    ensures Advance(FromWireOf(open.visited, open.hopLimit).value, self) == Success(Served(self, open))
  {}

  /** The first open of a chain, from a state that has visited nothing, is accepted; without a budget it gets eight. */
  lemma FirstOpenAccepted(s: TraversalState, next: string, proof: string, lease: string)
    requires s.visited == [] && s.maxHops <= 8
    requires |next| <= MAX_FIELD && |proof| <= MAX_FIELD && |lease| <= MAX_LEASE_BYTES
    ensures var open := OpenFor(s, next, proof, lease);
      && WireTest(next, open).None? && open.proof == proof && open.lease == lease
      && open.hopLimit == (if 0 < s.maxHops then s.maxHops else 8)
  {}

  /** Forward's test passes exactly when the downstream's wire test will. */
  lemma ForwardAgreesWithDownstream(self: string, open: OpenPipe, next: string, proof: string, lease: string)
    requires WireTest(self, open).None? && |next| <= MAX_FIELD && |proof| <= MAX_FIELD && |lease| <= MAX_LEASE_BYTES
    ensures ForwardTest(Served(self, open), next).None?
       <==> WireTest(next, OpenFor(Served(self, open), next, proof, lease)).None?
  {
    var down := OpenFor(Served(self, open), next, proof, lease);
    var strings := [open.pipeId, open.proof] + open.visited;
    forall i | 0 <= i < |down.visited|
      ensures |down.visited[i]| <= MAX_FIELD
    {
      assert down.visited[i] == if i < |open.visited| then strings[i + 2] else strings[0];
    }
    assert Distinct(down.visited);
  }

  // ---- chains of hops

  /** opens[k] reached the Pipe ids[k], which accepted it and opened ids[k + 1] downstream. */
  ghost predicate IsChain(ids: seq<string>, opens: seq<OpenPipe>) {
    && |ids| == |opens| > 0
    && (forall k | 0 <= k < |ids| :: WireTest(ids[k], opens[k]).None?)
    && (forall k {:trigger opens[k]} | 0 <= k < |ids| - 1 ::
          opens[k + 1] == OpenFor(Served(ids[k], opens[k]), ids[k + 1], opens[k + 1].proof, opens[k + 1].lease))
  }

  /** Along every chain the visited list grows by exactly the Pipes passed, under an unchanged hop limit. */
  lemma {:induction false} ChainGrows(ids: seq<string>, opens: seq<OpenPipe>, k: nat)
    requires IsChain(ids, opens) && k < |ids|
    ensures opens[k].visited == opens[0].visited + ids[..k]
    ensures opens[k].hopLimit == opens[0].hopLimit
  {
    hide WireTest;
    if k == 0 {
      assert opens[0].visited + ids[..0] == opens[0].visited;
    } else {
      ChainGrows(ids, opens, k - 1);
      PositiveLimit(ids[k - 1], opens[k - 1]);
      assert opens[0].visited + ids[..k - 1] + [ids[k - 1]] == opens[0].visited + ids[..k];
    }
  }

  lemma PositiveLimit(self: string, open: OpenPipe)
    requires WireTest(self, open).None?
    ensures open.hopLimit > 0
  {}

  /**
   Along every chain of serves: no Pipe is entered twice, hopLimit - |visited| drops by exactly one per
   hop, and with what was visited before there are at most eight Pipes.
   */
  lemma ChainIsBounded(ids: seq<string>, opens: seq<OpenPipe>)
    requires IsChain(ids, opens)
    ensures Distinct(opens[0].visited + ids)
    ensures forall k | 0 <= k < |ids| ::
              opens[k].hopLimit - |opens[k].visited| == opens[0].hopLimit - |opens[0].visited| - k
    ensures |opens[0].visited| + |ids| <= opens[0].hopLimit <= DEFAULT_MAX_PIPE_HOPS
  {
    var last := |ids| - 1;
    forall k | 0 <= k < |ids|
      ensures opens[k].hopLimit - |opens[k].visited| == opens[0].hopLimit - |opens[0].visited| - k
    {
      ChainGrows(ids, opens, k);
    }
    ChainGrows(ids, opens, last);
    assert WireTest(ids[last], opens[last]).None?;
    assert ids == ids[..last] + [ids[last]];
    assert opens[0].visited + ids == opens[last].visited + [ids[last]];
  }
}
