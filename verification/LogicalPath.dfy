/**
 Resolution of a logical path: from a Pipe through the targets of valid Pipe specs to a valid Service
 (internal/domain/graph.go:19-65, ref.go, model.go:44-166).
 */
module LogicalPath {
  import opened Units
  import opened Wrappers

  const KIND_SERVICE := "service"
  const KIND_PIPE := "pipe"
  const KINDS := {KIND_SERVICE, KIND_PIPE, "run", "session", "relay", "authority", "gateway"}

  datatype Ref = Ref(kind: string, name: string) {
    function Text(): string {
      if kind == "" && name == "" then "" else kind + "/" + name
    }
  }

  predicate IsLowerAlnum(c: char) {
    'a' <= c <= 'z' || '0' <= c <= '9'
  }

  /** ^[a-z0-9][a-z0-9@._-]{0,62}$ */
  predicate ValidName(name: string) {
    && 1 <= |name| <= 63 && IsLowerAlnum(name[0])
    && forall i | 0 < i < |name| :: IsLowerAlnum(name[i]) || name[i] in {'@', '.', '_', '-'}
  }

  predicate ValidRef(r: Ref) {
    r.kind in KINDS && ValidName(r.name)
  }

  /** A spec by its references; `restValid` stands for the checks of scope, ingress, visibility and access. */
  datatype PipeSpec = PipeSpec(ref: Ref, target: Ref, restValid: bool)

  predicate ValidPipe(p: PipeSpec) {
    && ValidRef(p.ref) && p.ref.kind == KIND_PIPE
    && ValidRef(p.target) && (p.target.kind == KIND_SERVICE || p.target.kind == KIND_PIPE)
    && p.target != p.ref && p.restValid
  }

  datatype ServiceSpec = ServiceSpec(ref: Ref, restValid: bool)

  predicate ValidService(s: ServiceSpec) {
    ValidRef(s.ref) && s.ref.kind == KIND_SERVICE && s.restValid
  }

  /** What the two loaders return for a reference; None is an error. */
  datatype Graph = Graph(pipe: Ref -> Option<PipeSpec>, service: Ref -> Option<ServiceSpec>)

  /** The loaders return the reference they were asked for. */
  ghost predicate Faithful(g: Graph) {
    && (forall r :: g.pipe(r).Some? ==> g.pipe(r).value.ref == r)
    && (forall r :: g.service(r).Some? ==> g.service(r).value.ref == r)
  }

  /** A path by the references that are followed. */
  datatype Path = Path(pipes: seq<Ref>, terminal: Ref)

  datatype Error = InvalidStart | Cycle | NotLoaded | InvalidSpec | TooLong

  /** The reference loads as a valid Pipe with this target. */
  predicate Targets(g: Graph, r: Ref, target: Ref) {
    g.pipe(r).Some? && ValidPipe(g.pipe(r).value) && g.pipe(r).value.target == target
  }

  predicate IsService(g: Graph, r: Ref) {
    r.kind == KIND_SERVICE && g.service(r).Some? && ValidService(g.service(r).value)
  }

  predicate Links(g: Graph, pipes: seq<Ref>) {
    forall k {:trigger pipes[k]} | 0 <= k < |pipes| - 1 ::
        pipes[k + 1].kind == KIND_PIPE && Targets(g, pipes[k], pipes[k + 1])
  }

  /** The declarative meaning: following targets through valid specs from `start` reaches a valid Service. */
  predicate IsPath(g: Graph, start: Ref, p: Path) {
    && ValidRef(start) && start.kind == KIND_PIPE
    && p.pipes != [] && p.pipes[0] == start && Links(g, p.pipes)
    && Targets(g, p.pipes[|p.pipes| - 1], p.terminal) && IsService(g, p.terminal)
  }

  /** The references that the loaded specs themselves carry: what the resolver returns. */
  function Loaded(g: Graph, pipes: seq<Ref>): seq<Ref> {
    seq(|pipes|, i requires 0 <= i < |pipes| => if g.pipe(pipes[i]).Some? then g.pipe(pipes[i]).value.ref else pipes[i])
  }

  function Carried(g: Graph, p: Path): Path {
    Path(Loaded(g, p.pipes), if g.service(p.terminal).Some? then g.service(p.terminal).value.ref else p.terminal)
  }

  /** Loaders that return the reference they were asked for return the path itself. */
  lemma FaithfulCarries(g: Graph, p: Path)
    requires Faithful(g)
    ensures Carried(g, p) == p
  {
    assert Loaded(g, p.pipes) == p.pipes;
  }

  /** The last Pipe of `pipes` targets `next`; with no Pipe yet, `next` is the start. */
  predicate LeadsTo(g: Graph, start: Ref, pipes: seq<Ref>, next: Ref) {
    && Links(g, pipes)
    && if pipes == [] then next == start else pipes[0] == start && Targets(g, pipes[|pipes| - 1], next)
  }

  // ---- paths are unique and never repeat a Pipe

  function Successor(p: Path, k: nat): Ref
    requires k < |p.pipes|
  {
    if k + 1 < |p.pipes| then p.pipes[k + 1] else p.terminal
  }

  lemma PathStep(g: Graph, start: Ref, p: Path, k: nat)
    requires IsPath(g, start, p) && k < |p.pipes|
    ensures Targets(g, p.pipes[k], Successor(p, k))
    ensures if k + 1 < |p.pipes| then Successor(p, k).kind == KIND_PIPE else IsService(g, Successor(p, k))
  {}

  lemma LeadStep(g: Graph, start: Ref, pipes: seq<Ref>, next: Ref, k: nat)
    requires LeadsTo(g, start, pipes, next) && next.kind == KIND_PIPE && k < |pipes|
    ensures pipes[0] == start
    ensures var after := if k + 1 < |pipes| then pipes[k + 1] else next;
      Targets(g, pipes[k], after) && after.kind == KIND_PIPE
  {
    hide ValidPipe;
  }

  lemma {:induction false} Determined(g: Graph, start: Ref, pipes: seq<Ref>, next: Ref, p: Path, k: nat)
    requires LeadsTo(g, start, pipes, next) && next.kind == KIND_PIPE && IsPath(g, start, p)
    requires k <= |pipes|
    ensures k < |p.pipes| && p.pipes[k] == if k < |pipes| then pipes[k] else next
  {
    hide ValidPipe, IsPath, Links;
    if k == 0 {
      StartsSomewhere(g, start, p);
    } else {
      Determined(g, start, pipes, next, p, k - 1);
      LeadStep(g, start, pipes, next, k - 1);
      PathStep(g, start, p, k - 1);
    }
  }

  /** A repetition would repeat for ever, so it never reaches a Service. */
  lemma {:induction false} RepetitionShifts(g: Graph, start: Ref, p: Path, i: nat, j: nat, k: nat)
    requires IsPath(g, start, p) && i < j && j + k < |p.pipes| && p.pipes[i] == p.pipes[j]
    ensures p.pipes[i + k] == p.pipes[j + k]
    decreases k
  {
    hide IsPath;
    if k > 0 {
      RepetitionShifts(g, start, p, i, j, k - 1);
      PathStep(g, start, p, i + k - 1);
      PathStep(g, start, p, j + k - 1);
    }
  }

  lemma PathsDoNotRepeat(g: Graph, start: Ref, p: Path)
    requires IsPath(g, start, p)
    ensures forall i, j | 0 <= i < j < |p.pipes| :: p.pipes[i] != p.pipes[j]
  {
    hide IsPath;
    forall i, j | 0 <= i < j < |p.pipes|
      ensures p.pipes[i] != p.pipes[j]
    {
      if p.pipes[i] == p.pipes[j] {
        var k := |p.pipes| - 1 - j;
        RepetitionShifts(g, start, p, i, j, k);
        PathStep(g, start, p, i + k);
        PathStep(g, start, p, j + k);
      }
    }
  }

  lemma PathsAreUnique(g: Graph, start: Ref, p: Path, q: Path)
    requires IsPath(g, start, p) && IsPath(g, start, q)
    ensures p == q
  {
    hide IsPath;
    ShorterIsPrefix(g, start, p, q);
    ShorterIsPrefix(g, start, q, p);
    assert p.pipes == q.pipes;
    StartsSomewhere(g, start, p);
    PathStep(g, start, p, |p.pipes| - 1);
    PathStep(g, start, q, |q.pipes| - 1);
  }

  lemma StartsSomewhere(g: Graph, start: Ref, p: Path)
    requires IsPath(g, start, p)
    ensures p.pipes != [] && p.pipes[0] == start
  {}

  lemma {:induction false} ShorterIsPrefix(g: Graph, start: Ref, p: Path, q: Path, n: nat := |p.pipes|)
    requires IsPath(g, start, p) && IsPath(g, start, q) && n <= |p.pipes|
    ensures n <= |q.pipes| && forall k | 0 <= k < n :: p.pipes[k] == q.pipes[k]
  {
    hide IsPath;
    StartsSomewhere(g, start, p);
    StartsSomewhere(g, start, q);
    if n > 1 {
      ShorterIsPrefix(g, start, p, q, n - 1);
      PathStep(g, start, p, n - 2);
      PathStep(g, start, q, n - 2);
    }
  }

  lemma TextIdentifiesPipes(a: Ref, b: Ref)
    requires a.kind == KIND_PIPE && b.kind == KIND_PIPE && a.Text() == b.Text()
    ensures a == b
  {
    assert a.name == a.Text()[5..] && b.name == b.Text()[5..];
  }

  // ---- the resolver

  function Limit(maxHops: int): (n: nat)
    ensures n >= 1 && (maxHops > 0 ==> n == maxHops) && (maxHops <= 0 ==> n == 8)
  {
    if maxHops <= 0 then DEFAULT_MAX_PIPE_HOPS else maxHops
  }

  /** Nothing resolvable within n Pipes starts here. */
  ghost predicate Unresolvable(g: Graph, start: Ref, n: nat) {
    forall p | IsPath(g, start, p) :: |p.pipes| > n
  }

  lemma BadStart(g: Graph, start: Ref, n: nat)
    requires !(ValidRef(start) && start.kind == KIND_PIPE)
    ensures Unresolvable(g, start, n)
  {
    hide Links, ValidRef;
  }

  lemma RepeatedPipe(g: Graph, start: Ref, pipes: seq<Ref>, current: Ref, k: nat, n: nat)
    requires LeadsTo(g, start, pipes, current) && current.kind == KIND_PIPE && k < |pipes| && pipes[k] == current
    ensures Unresolvable(g, start, n)
  {
    hide IsPath, LeadsTo;
    forall p | IsPath(g, start, p)
      ensures |p.pipes| > n
    {
      Determined(g, start, pipes, current, p, k);
      Determined(g, start, pipes, current, p, |pipes|);
      PathsDoNotRepeat(g, start, p);
    }
  }

  lemma DeadEnd(g: Graph, start: Ref, pipes: seq<Ref>, current: Ref, n: nat)
    requires LeadsTo(g, start, pipes, current) && current.kind == KIND_PIPE
    requires
      || g.pipe(current).None? || !ValidPipe(g.pipe(current).value)
      || (g.pipe(current).value.target.kind == KIND_SERVICE && !IsService(g, g.pipe(current).value.target))
    ensures Unresolvable(g, start, n)
  {
    hide IsPath, LeadsTo, ValidPipe, ValidService;
    forall p | IsPath(g, start, p)
      ensures |p.pipes| > n
    {
      Determined(g, start, pipes, current, p, |pipes|);
      PathStep(g, start, p, |pipes|);
    }
  }

  lemma Beyond(g: Graph, start: Ref, pipes: seq<Ref>, current: Ref)
    requires LeadsTo(g, start, pipes, current) && current.kind == KIND_PIPE
    ensures Unresolvable(g, start, |pipes|)
  {
    hide IsPath, LeadsTo;
    forall p | IsPath(g, start, p)
      ensures |p.pipes| > |pipes|
    {
      Determined(g, start, pipes, current, p, |pipes|);
    }
  }

  lemma Extends(g: Graph, start: Ref, pipes: seq<Ref>, current: Ref, target: Ref)
    requires ValidRef(start) && start.kind == KIND_PIPE
    requires LeadsTo(g, start, pipes, current) && current.kind == KIND_PIPE && Targets(g, current, target)
    ensures LeadsTo(g, start, pipes + [current], target)
    ensures Loaded(g, pipes + [current]) == Loaded(g, pipes) + [g.pipe(current).value.ref]
    ensures IsService(g, target) ==> IsPath(g, start, Path(pipes + [current], target))
  {
    hide ValidPipe, ValidService, ValidRef;
  }

  /** What makes a Pipe spec invalid. */
  predicate SpecRefused(p: PipeSpec) {
    || !ValidRef(p.ref) || p.ref.kind != "pipe" || !ValidRef(p.target) || p.target.kind !in ["service", "pipe"]
    || p.target == p.ref || !p.restValid
  }

  predicate ServiceRefused(s: ServiceSpec) {
    !ValidRef(s.ref) || s.ref.kind != "service" || !s.restValid
  }

  /** Every spec on a path is valid in every part, and no Pipe on it targets itself. */
  lemma PathSpecs(g: Graph, start: Ref, p: Path, k: nat)
    requires IsPath(g, start, p) && k < |p.pipes|
    ensures g.pipe(p.pipes[k]).Some? && !SpecRefused(g.pipe(p.pipes[k]).value)
    ensures g.pipe(p.pipes[k]).value.target == (if k + 1 < |p.pipes| then p.pipes[k + 1] else p.terminal)
    ensures g.service(p.terminal).Some? && !ServiceRefused(g.service(p.terminal).value)
  {
    hide ValidRef;
    PathStep(g, start, p, k);
  }

  /** What each error says about where the targets lead from `start`. */
  ghost predicate StopsAt(g: Graph, start: Ref, pipes: seq<Ref>, next: Ref, e: Error, n: nat) {
    if e.InvalidStart? then !(ValidRef(start) && start.kind == KIND_PIPE)
    else
      && LeadsTo(g, start, pipes, next) && next.kind == KIND_PIPE
      && match e
         case Cycle => next in pipes
         case TooLong => |pipes| == n
         case NotLoaded =>
           || g.pipe(next).None?
           || (g.pipe(next).value.target.kind == KIND_SERVICE && g.service(g.pipe(next).value.target).None?)
         case InvalidSpec =>
           && g.pipe(next).Some?
           && var target := g.pipe(next).value.target;
              || SpecRefused(g.pipe(next).value)
              || (target.kind == "service" && g.service(target).Some? && ServiceRefused(g.service(target).value))
         case _ => true
  }

  /**
   Succeeds exactly when following targets from a valid Pipe reference reaches a valid Service within
   the hop limit, and then returns the references that this one path's specs carry, which for loaders that
   return what they were asked for is the path itself. So neither the cycle check nor anything else
   refuses a resolvable path.
   */
  method ResolveLogicalPath(g: Graph, start: Ref, maxHops: int) returns (r: Result<Path, Error>)
    ensures r.Success? ==> exists p :: IsPath(g, start, p) && |p.pipes| <= Limit(maxHops) && r.value == Carried(g, p)
    ensures r.Success? && Faithful(g) ==> IsPath(g, start, r.value) && |r.value.pipes| <= Limit(maxHops)
    ensures r.Failure? ==> Unresolvable(g, start, Limit(maxHops))
    ensures r.Failure? ==> exists pipes, next :: StopsAt(g, start, pipes, next, r.error, Limit(maxHops))
  {
    hide IsPath, LeadsTo, Unresolvable, ValidRef, ValidName, Loaded;
    if !ValidRef(start) || start.kind != KIND_PIPE {
      BadStart(g, start, Limit(maxHops));
      assert StopsAt(g, start, [], start, InvalidStart, Limit(maxHops));
      return Failure(InvalidStart);
    }
    var max := Limit(maxHops);
    var pipes: seq<Ref> := [];
    ghost var route: seq<Ref> := [];
    var visited: set<string> := {};
    var current := start;
    Nowhere(g, start);
    for hop := 0 to max
      invariant |route| == hop && current.kind == KIND_PIPE && pipes == Loaded(g, route)
      invariant LeadsTo(g, start, route, current)
      invariant forall k | 0 <= k < hop :: route[k].kind == KIND_PIPE
      invariant forall t | t in visited :: exists k | 0 <= k < hop :: route[k].Text() == t
    {
      if current.Text() in visited {
        ghost var k :| 0 <= k < hop && route[k].Text() == current.Text();
        TextIdentifiesPipes(route[k], current);
        RepeatedPipe(g, start, route, current, k, max);
        assert StopsAt(g, start, route, current, Cycle, max);
        return Failure(Cycle);
      }
      visited := visited + {current.Text()};
      var loaded := g.pipe(current);
      if loaded.None? {
        DeadEnd(g, start, route, current, max);
        assert StopsAt(g, start, route, current, NotLoaded, max);
        return Failure(NotLoaded);
      }
      var pipe := loaded.value;
      if !ValidPipe(pipe) {
        DeadEnd(g, start, route, current, max);
        assert StopsAt(g, start, route, current, InvalidSpec, max);
        return Failure(InvalidSpec);
      }
      Extends(g, start, route, current, pipe.target);
      pipes := pipes + [pipe.ref];
      if pipe.target.kind == KIND_SERVICE {
        var service := g.service(pipe.target);
        if service.None? || !ValidService(service.value) {
          DeadEnd(g, start, route, current, max);
          r := Failure(if service.None? then NotLoaded else InvalidSpec);
          assert StopsAt(g, start, route, current, r.error, max);
          return;
        }
        ghost var p := Path(route + [current], pipe.target);
        if Faithful(g) {
          FaithfulCarries(g, p);
        }
        r := Success(Path(pipes, service.value.ref));
        assert IsPath(g, start, p) && |p.pipes| <= max && r.value == Carried(g, p);
        return;
      }
      Visits(route, current, visited);
      route := route + [current];
      current := pipe.target;
    }
    Beyond(g, start, route, current);
    assert StopsAt(g, start, route, current, TooLong, max);
    return Failure(TooLong);
  }

  lemma Visits(route: seq<Ref>, current: Ref, visited: set<string>)
    requires forall t | t in visited && t != current.Text() :: exists k | 0 <= k < |route| :: route[k].Text() == t
    ensures forall t | t in visited :: exists k | 0 <= k < |route| + 1 :: (route + [current])[k].Text() == t
  {
    var longer := route + [current];
    forall t | t in visited
      ensures exists k | 0 <= k < |route| + 1 :: longer[k].Text() == t
    {
      if t == current.Text() {
        assert longer[|route|].Text() == t;
      } else {
        var k :| 0 <= k < |route| && route[k].Text() == t;
        assert longer[k].Text() == t;
      }
    }
  }

  lemma Nowhere(g: Graph, start: Ref)
    ensures LeadsTo(g, start, [], start) && Loaded(g, []) == []
  {}
}
