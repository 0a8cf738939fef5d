/**
 Session lifecycle: NodeRuntime -> PipeRuntime -> registry -> session
 (internal/runtime/ownership.go, internal/runtime/session.go:109-399).

 Each mutex-protected section, channel close and channel receive is one atomic step of one thread;
 a run is any interleaving. A session record also keeps counts and logs of what was done to it.
 */
module Sessions {
  import opened Wrappers

  type Carrier = nat

  /** One terminal action that the session issued on a carrier: Close when graceful, else Reset. */
  datatype Terminal = Terminal(carrier: Carrier, graceful: bool)

  datatype Session = Session(
    pipe: nat, id: string,
    stopping: bool, workCount: int, workClosed: bool, stopDone: bool,
    active: Option<Carrier>, cancelled: bool, clean: bool, targetClosed: bool,
    closer: nat,               // the thread that beginStop made closer
    captured: Option<Carrier>, // the carrier beginStop handed to it
    // history
    installs: seq<Carrier>, ended: seq<Terminal>, results: seq<(bool, bool)>,
    closers: nat, workDoneCloses: nat, stopDoneCloses: nat)

  function NewSession(pipe: nat, id: string): Session {
    Session(pipe, id, false, 0, false, false, None, false, false, false, 0, None, [], [], [], 0, 0, 0)
  }

  // ---- the mutex-protected sections of one session

  function Install(s: Session, c: Carrier): Session {
    s.(active := Some(c), installs := s.installs + [c])
  }

  function Admit(s: Session): Session {
    s.(workCount := s.workCount + 1)
  }

  function CloseWorkDone(s: Session): Session {
    if s.stopping && s.workCount == 0 && !s.workClosed
    then s.(workClosed := true, workDoneCloses := s.workDoneCloses + 1) else s
  }

  function FinishWork(s: Session): Session {
    CloseWorkDone(s.(workCount := s.workCount - 1))
  }

  function BeginStop(s: Session, closer: nat): Session
    requires !s.stopping
  {
    CloseWorkDone(s.(stopping := true, closer := closer, captured := s.active, active := None,
                     closers := s.closers + 1))
  }

  function EndCarrier(s: Session): Session {
    match s.captured
    case None => s
    case Some(c) => s.(ended := s.ended + [Terminal(c, s.clean)])
  }

  // ---- the runtime tree

  datatype Pipe = Pipe(closed: bool, cancelled: bool, done: bool, registry: map<string, nat>)

  datatype Node = Node(closed: bool, cancelled: bool, done: bool, pipes: set<nat>)

  /** Where a call of Stop stands; a closer runs completeStop statement by statement. */
  datatype StopPc = Entering | Waiting | Closing(line: nat)

  /** How a Read or a Write returned: its error. */
  datatype Outcome = Nil | Eof | Error

  /** A pump direction: in its Read, in its Write of bytes that came with `after`, or past its loop. */
  datatype Direction = Reading | Writing(after: Outcome) | Failing | Ended(clean: bool)

  datatype RunPc = Admitting | Starting | NoCarrier | Pumping(carrier: Carrier, a: Direction, b: Direction) | Finishing

  datatype PipePc =
    | PipeEntering
    | PipeWaiting
    | StoppingAll(todo: set<nat>, current: Option<(nat, StopPc)>)
    | RemovingPipe
    | EndingPipe

  datatype NodePc =
    | NodeEntering
    | NodeWaiting
    | ClosingAll(todo: set<nat>, current: Option<(nat, PipePc)>)
    | EndingNode

  datatype Thread =
    | Stopper(session: nat, pc: StopPc)                       // Stop, requestStop's goroutine, an expiry timer
    | Runner(session: nat, run: RunPc, thenStop: bool)        // runServerSession; startPump when !thenStop
    | Outbound(session: nat)                                  // between beginOutbound and its release
    | PipeCloser(pipe: nat, pipePc: PipePc)
    | NodeCloser(nodePc: NodePc)

  datatype State = State(node: Node, pipes: map<nat, Pipe>, sessions: map<nat, Session>, threads: map<nat, Thread>)

  const INIT := State(Node(false, false, false, {}), map[], map[], map[])

  /** The return of an outstanding call: a Read with or without bytes, a Write with all of its bytes or not. */
  datatype Event = Event(moved: bool, err: Outcome)

  datatype Action =
    | CancelParent
    | NewPipeRuntime(pipe: nat)
    | NewSessionOf(pipe: nat, id: string, session: nat)
    | SetActiveCarrier(session: nat, carrier: Carrier)
    | Begin(t: nat, thread: Thread)
    | BeginOutbound(t: nat, session: nat)
    // `pick` chooses the next element of a range loop, `left` and `event` what a pump direction
    // sees, `spawn` the goroutine a requestStop may start.
    | Step(t: nat, pick: nat, left: bool, event: Event, spawn: nat)

  function PipeCancelled(st: State, p: nat): bool {
    p in st.pipes && (st.pipes[p].cancelled || st.node.cancelled)
  }

  function SessionCancelled(st: State, s: nat): bool
    requires s in st.sessions
  {
    st.sessions[s].cancelled || PipeCancelled(st, st.sessions[s].pipe)
  }

  function WithSession(st: State, s: nat, sess: Session): State {
    st.(sessions := st.sessions[s := sess])
  }

  function WithThread(st: State, t: nat, th: Thread): State {
    st.(threads := st.threads[t := th])
  }

  function EndThread(st: State, t: nat): State {
    st.(threads := st.threads - {t})
  }

  /** Thread t goes on as `rest`, or has returned. */
  function Place(st: State, t: nat, rest: Option<Thread>): State {
    if rest.Some? then WithThread(st, t, rest.value) else EndThread(st, t)
  }

  function WithPipe(st: State, p: nat, pipe: Pipe): State {
    st.(pipes := st.pipes[p := pipe])
  }

  // ---- Stop: internal/runtime/session.go:293-339

  /** What one step of Stop by thread t does to the session; None is its return. */
  function StopSession(sess: Session, t: nat, pc: StopPc): (Session, Option<StopPc>) {
    match pc
    case Entering => if sess.stopping then (sess, Some(Waiting)) else (BeginStop(sess, t), Some(Closing(0)))
    case Waiting => (sess, if sess.stopDone then None else Some(Waiting))
    case Closing(line) =>
      if line == 0 then (sess.(cancelled := true), Some(Closing(1)))
      else if line == 1 then (EndCarrier(sess), Some(Closing(2)))
      else if line == 2 then (sess.(targetClosed := true), Some(Closing(3)))
      else if line == 3 then (sess, Some(Closing(if sess.workClosed then 4 else 3)))
      else if line == 4 then (sess, Some(Closing(5)))
      else (sess.(stopDone := true, stopDoneCloses := sess.stopDoneCloses + 1), None)
  }

  function StopStep(st: State, t: nat, s: nat, pc: StopPc): (State, Option<StopPc>)
    requires s in st.sessions
  {
    var (sess, rest) := StopSession(st.sessions[s], t, pc);
    (if pc == Closing(4) then Unregister(st, s) else WithSession(st, s, sess), rest)
  }

  /** registry.remove: only this session's own entry. */
  function Unregister(st: State, s: nat): State
    requires s in st.sessions
  {
    var sess := st.sessions[s];
    if sess.pipe in st.pipes && sess.id in st.pipes[sess.pipe].registry && st.pipes[sess.pipe].registry[sess.id] == s
    then WithPipe(st, sess.pipe, st.pipes[sess.pipe].(registry := st.pipes[sess.pipe].registry - {sess.id}))
    else st
  }

  // ---- PipeRuntime.Close and NodeRuntime.Close: internal/runtime/ownership.go:59-121

  function PipeStep(st: State, t: nat, p: nat, pc: PipePc, pick: nat): (State, Option<PipePc>)
    requires p in st.pipes
  {
    var pipe := st.pipes[p];
    match pc
    case PipeEntering =>
      if pipe.closed then (st, Some(PipeWaiting))
      else (WithPipe(st, p, pipe.(closed := true, cancelled := true, registry := map[])),
            Some(StoppingAll(pipe.registry.Values, None)))
    case PipeWaiting => (st, if pipe.done then None else Some(PipeWaiting))
    case StoppingAll(todo, None) =>
      if todo == {} then (st, Some(RemovingPipe))
      else (st, Some(if pick in todo then StoppingAll(todo - {pick}, Some((pick, Entering))) else pc))
    case StoppingAll(todo, Some((s, stop))) =>
      if s !in st.sessions then (st, Some(pc))
      else
        var (n, rest) := StopStep(st, t, s, stop);
        (n, Some(StoppingAll(todo, if rest.Some? then Some((s, rest.value)) else None)))
    case RemovingPipe => (st.(node := st.node.(pipes := st.node.pipes - {p})), Some(EndingPipe))
    case EndingPipe => (WithPipe(st, p, pipe.(done := true)), None)
  }

  function NodeStep(st: State, t: nat, pc: NodePc, pick: nat): (State, Option<NodePc>) {
    match pc
    case NodeEntering =>
      if st.node.closed then (st, Some(NodeWaiting))
      else (st.(node := st.node.(closed := true, cancelled := true)), Some(ClosingAll(st.node.pipes, None)))
    case NodeWaiting => (st, if st.node.done then None else Some(NodeWaiting))
    case ClosingAll(todo, None) =>
      if todo == {} then (st, Some(EndingNode))
      else (st, Some(if pick in todo then ClosingAll(todo - {pick}, Some((pick, PipeEntering))) else pc))
    case ClosingAll(todo, Some((p, pipePc))) =>
      if p !in st.pipes then (st, Some(pc))
      else
        var (n, rest) := PipeStep(st, t, p, pipePc, pick);
        (n, Some(ClosingAll(todo, if rest.Some? then Some((p, rest.value)) else None)))
    case EndingNode => (st.(node := st.node.(done := true)), None)
  }

  // ---- the pump: internal/runtime/session.go:256-265 and 343-399

  /** requestStop: the first caller's goroutine becomes closer. */
  function RequestStop(st: State, s: nat, spawn: nat): State
    requires s in st.sessions
  {
    if st.sessions[s].stopping then st
    else WithThread(WithSession(st, s, BeginStop(st.sessions[s], spawn)), spawn, Stopper(s, Closing(0)))
  }

  /** Where a direction goes on a read error. */
  function OnError(err: Outcome): Direction {
    match err
    case Nil => Reading
    case Eof => Ended(true)
    case Error => Failing
  }

  function Sees(d: Direction, e: Event): Direction {
    match d
    case Reading => if e.moved then Writing(e.err) else OnError(e.err)
    case Writing(after) => if e.moved then OnError(after) else if e.err == Nil then d else Failing
    case Failing => Ended(false)
    case Ended(_) => d
  }

  /** One step of a pump that has its carrier: one direction moves, or both have ended. */
  function PumpStep(st: State, t: nat, th: Thread, left: bool, event: Event, spawn: nat): State
    requires th.Runner? && th.run.Pumping? && th.session in st.sessions
  {
    var pump := th.run;
    var sess := st.sessions[th.session];
    if pump.a.Ended? && pump.b.Ended? then
      WithThread(WithSession(st, th.session, sess.(clean := pump.a.clean && pump.b.clean,
                                                   results := sess.results + [(pump.a.clean, pump.b.clean)])),
                 t, th.(run := Finishing))
    else
      var d := if left then pump.a else pump.b;
      var n := if d.Failing? then RequestStop(st, th.session, spawn) else st;
      WithThread(n, t, th.(run := if left then pump.(a := Sees(d, event)) else pump.(b := Sees(d, event))))
  }

  function RunStep(st: State, t: nat, th: Thread, left: bool, event: Event, spawn: nat): State
    requires th.Runner? && th.session in st.sessions
  {
    var s := th.session;
    var sess := st.sessions[s];
    match th.run
    case Admitting =>
      if sess.stopping || SessionCancelled(st, s) then EndThread(st, t)
      else WithThread(WithSession(st, s, Admit(sess)), t, th.(run := Starting))
    case Starting =>
      WithThread(st, t, th.(run := match sess.active
                                   case None => NoCarrier
                                   case Some(c) => Pumping(c, Reading, Reading)))
    case NoCarrier => WithThread(RequestStop(st, s, spawn), t, th.(run := Finishing))
    case Pumping(_, _, _) => PumpStep(st, t, th, left, event, spawn)
    case Finishing =>
      var n := WithSession(st, s, FinishWork(sess));
      if th.thenStop then WithThread(n, t, Stopper(s, Entering)) else EndThread(n, t)
  }

  function StopperStep(st: State, t: nat, s: nat, pc: StopPc): (State, Option<Thread>)
    requires s in st.sessions
  {
    var (n, rest) := StopStep(st, t, s, pc);
    (n, if rest.Some? then Some(Stopper(s, rest.value)) else None)
  }

  function PipeCloserStep(st: State, t: nat, p: nat, pc: PipePc, pick: nat): (State, Option<Thread>)
    requires p in st.pipes
  {
    var (n, rest) := PipeStep(st, t, p, pc, pick);
    (n, if rest.Some? then Some(PipeCloser(p, rest.value)) else None)
  }

  function NodeCloserStep(st: State, t: nat, pc: NodePc, pick: nat): (State, Option<Thread>) {
    var (n, rest) := NodeStep(st, t, pc, pick);
    (n, if rest.Some? then Some(NodeCloser(rest.value)) else None)
  }

  function ThreadStep(st: State, t: nat, th: Thread, pick: nat, left: bool, event: Event, spawn: nat): State {
    match th
    case Stopper(s, pc) =>
      if s !in st.sessions then st else var (n, rest) := StopperStep(st, t, s, pc); Place(n, t, rest)
    case Runner(s, _, _) => if s in st.sessions then RunStep(st, t, th, left, event, spawn) else st
    case Outbound(s) =>
      if s in st.sessions then EndThread(WithSession(st, s, FinishWork(st.sessions[s])), t) else st
    case PipeCloser(p, pc) =>
      if p !in st.pipes then st else var (n, rest) := PipeCloserStep(st, t, p, pc, pick); Place(n, t, rest)
    case NodeCloser(pc) => var (n, rest) := NodeCloserStep(st, t, pc, pick); Place(n, t, rest)
  }

  /** A call that a caller may make on something that exists. */
  predicate Startable(st: State, th: Thread) {
    match th
    case Stopper(s, pc) => pc.Entering? && s in st.sessions
    case Runner(s, run, _) => run.Admitting? && s in st.sessions
    case Outbound(_) => false
    case PipeCloser(p, pc) => pc.PipeEntering? && p in st.pipes
    case NodeCloser(pc) => pc.NodeEntering?
  }

  function Next(st: State, a: Action): State {
    match a
    case CancelParent => st.(node := st.node.(cancelled := true))
    case NewPipeRuntime(p) =>
      if st.node.closed || st.node.cancelled || p in st.pipes then st
      else st.(pipes := st.pipes[p := Pipe(false, false, false, map[])], node := st.node.(pipes := st.node.pipes + {p}))
    case NewSessionOf(p, id, s) =>
      if p !in st.pipes || st.pipes[p].closed || PipeCancelled(st, p) || id == "" || id in st.pipes[p].registry
         || s in st.sessions then st
      else WithPipe(WithSession(st, s, NewSession(p, id)), p, st.pipes[p].(registry := st.pipes[p].registry[id := s]))
    case SetActiveCarrier(s, c) =>
      if s !in st.sessions || st.sessions[s].stopping || SessionCancelled(st, s) then st
      else WithSession(st, s, Install(st.sessions[s], c))
    case Begin(t, th) => if t in st.threads || !Startable(st, th) then st else WithThread(st, t, th)
    case BeginOutbound(t, s) =>
      if t in st.threads || s !in st.sessions || st.sessions[s].stopping || SessionCancelled(st, s) then st
      else WithThread(WithSession(st, s, Admit(st.sessions[s])), t, Outbound(s))
    case Step(t, pick, left, event, spawn) =>
      if t !in st.threads || spawn in st.threads then st
      else ThreadStep(st, t, st.threads[t], pick, left, event, spawn)
  }

  ghost predicate IsRun(actions: seq<Action>, tr: seq<State>) {
    && |tr| == |actions| + 1 && tr[0] == INIT
    && forall i {:trigger actions[i]} | 0 <= i < |actions| :: tr[i + 1] == Next(tr[i], actions[i])
  }

  // ---- invariant

  /** The Stop call a thread is inside, if any. */
  function PipeStop(pc: PipePc): Option<(nat, StopPc)> {
    if pc.StoppingAll? then pc.current else None
  }

  function StopOf(th: Thread): Option<(nat, StopPc)> {
    match th
    case Stopper(s, pc) => Some((s, pc))
    case PipeCloser(_, pc) => PipeStop(pc)
    case NodeCloser(pc) => if pc.ClosingAll? && pc.current.Some? then PipeStop(pc.current.value.1) else None
    case _ => None
  }

  /** The thread is the closer of session s and inside completeStop. */
  predicate Closes(th: Thread, s: nat) {
    StopOf(th).Some? && StopOf(th).value.0 == s && StopOf(th).value.1.Closing?
  }

  predicate Holds(th: Thread, s: nat) {
    (th.Runner? && th.session == s && !th.run.Admitting?) || (th.Outbound? && th.session == s)
  }

  /** The threads inside admitted work of a session. */
  function Holders(st: State, s: nat): set<nat> {
    set t | t in st.threads && Holds(st.threads[t], s)
  }

  function EndedAt(sess: Session, line: nat): nat {
    if line >= 2 && sess.captured.Some? then 1 else 0
  }

  ghost predicate StopPcInv(sess: Session, t: nat, pc: StopPc) {
    pc.Closing? ==>
      && sess.stopping && !sess.stopDone && sess.closer == t && pc.line <= 5
      && |sess.ended| == EndedAt(sess, pc.line)
      && (pc.line >= 1 ==> sess.cancelled)
      && (pc.line >= 3 ==> sess.targetClosed)
      && (pc.line >= 4 ==> sess.workClosed)
  }

  ghost predicate StopInv(st: State, t: nat, s: nat, pc: StopPc) {
    s in st.sessions && StopPcInv(st.sessions[s], t, pc)
  }

  /** Nothing under this Pipe runs or can run again. */
  ghost predicate AllStopped(st: State, p: nat) {
    && p in st.pipes && st.pipes[p].closed
    && forall s | s in st.sessions && st.sessions[s].pipe == p :: st.sessions[s].workClosed
  }

  ghost predicate PipePcInv(st: State, t: nat, p: nat, pc: PipePc) {
    && p in st.pipes
    && match pc
       case PipeEntering => true
       case PipeWaiting => st.pipes[p].closed
       case StoppingAll(todo, current) =>
         && st.pipes[p].closed
         && (forall s | s in todo :: s in st.sessions)
         && (current.Some? ==> StopInv(st, t, current.value.0, current.value.1))
         && (forall s | s in st.sessions && st.sessions[s].pipe == p ::
               st.sessions[s].workClosed || s in todo || (current.Some? && current.value.0 == s))
       case RemovingPipe => AllStopped(st, p)
       case EndingPipe => AllStopped(st, p)
  }

  ghost predicate NodePcInv(st: State, t: nat, pc: NodePc) {
    match pc
    case NodeEntering => true
    case NodeWaiting => st.node.closed
    case ClosingAll(todo, current) =>
      && st.node.closed
      && (forall p | p in todo :: p in st.pipes)
      && (current.Some? ==> PipePcInv(st, t, current.value.0, current.value.1))
      && (forall p | p in st.pipes :: AllStopped(st, p) || p in todo || (current.Some? && current.value.0 == p))
    case EndingNode => st.node.closed && forall p | p in st.pipes :: AllStopped(st, p)
  }

  /** A direction that failed has stopped the session; only a clean pump finishes without. */
  ghost predicate PumpInv(sess: Session, run: RunPc) {
    && (run.Pumping? && (run.a == Ended(false) || run.b == Ended(false)) ==> sess.stopping)
    && (run.Finishing? ==> sess.stopping || (true, true) in sess.results)
  }

  ghost predicate ThreadInv(st: State, t: nat, th: Thread) {
    match th
    case Stopper(s, pc) => StopInv(st, t, s, pc)
    case Runner(s, run, _) =>
      && s in st.sessions && (run.Pumping? ==> run.carrier in st.sessions[s].installs)
      && PumpInv(st.sessions[s], run)
    case Outbound(s) => s in st.sessions
    case PipeCloser(p, pc) => PipePcInv(st, t, p, pc)
    case NodeCloser(pc) => NodePcInv(st, t, pc)
  }

  function Bit(b: bool): nat {
    if b then 1 else 0
  }

  /** What holds of one session by itself. */
  ghost predicate OwnInv(sess: Session) {
    && (sess.workClosed <==> sess.stopping && sess.workCount == 0)
    && (sess.stopDone ==> sess.workClosed)
    && sess.closers == Bit(sess.stopping)
    && sess.workDoneCloses == Bit(sess.workClosed)
    && sess.stopDoneCloses == Bit(sess.stopDone)
    && |sess.ended| <= 1
    && (!sess.stopping ==> sess.ended == [])
    && (sess.stopDone ==> |sess.ended| == EndedAt(sess, 5))
    && (forall e | e in sess.ended ::
          sess.captured == Some(e.carrier) && (e.graceful ==> (true, true) in sess.results))
    && (sess.clean <==> sess.results != [] && sess.results[|sess.results| - 1] == (true, true))
    && (if sess.stopping then sess.active == None && sess.captured == LastInstall(sess)
        else sess.active == LastInstall(sess))
  }

  function LastInstall(sess: Session): Option<Carrier> {
    if sess.installs == [] then None else Some(sess.installs[|sess.installs| - 1])
  }

  /** A session that may still run is in the registry of its open Pipe. */
  ghost predicate Registered(st: State, s: nat)
    requires s in st.sessions && st.sessions[s].pipe in st.pipes
  {
    var sess := st.sessions[s];
    var pipe := st.pipes[sess.pipe];
    !pipe.closed && !sess.workClosed ==> sess.id in pipe.registry && pipe.registry[sess.id] == s
  }

  ghost predicate SessionInv(st: State, s: nat)
    requires s in st.sessions
  {
    var sess := st.sessions[s];
    && OwnInv(sess)
    && sess.pipe in st.pipes
    && sess.workCount == |Holders(st, s)|
    && (sess.stopping && !sess.stopDone ==> sess.closer in st.threads && Closes(st.threads[sess.closer], s))
    && Registered(st, s)
  }

  ghost predicate TreeInv(st: State) {
    && (forall p, id | p in st.pipes && id in st.pipes[p].registry :: st.pipes[p].registry[id] in st.sessions)
    && (forall p | p in st.pipes && st.pipes[p].done :: AllStopped(st, p))
    && (forall p | p in st.node.pipes :: p in st.pipes)
    && (forall p | p in st.pipes && p !in st.node.pipes :: AllStopped(st, p))
    && (st.node.done ==> st.node.closed && forall p | p in st.pipes :: AllStopped(st, p))
  }

  ghost predicate Inv(st: State) {
    && TreeInv(st)
    && (forall s | s in st.sessions :: SessionInv(st, s))
    && (forall t | t in st.threads :: ThreadInv(st, t, st.threads[t]))
  }

  // ---- what a step of thread t lets the other threads rely on

  ghost predicate SessionLater(a: Session, b: Session, t: nat) {
    && b.pipe == a.pipe && b.id == a.id
    && (a.stopping ==> b.stopping && b.closer == a.closer && b.captured == a.captured)
    && (a.workClosed ==> b.workClosed) && (a.stopDone ==> b.stopDone)
    && (a.cancelled ==> b.cancelled) && (a.targetClosed ==> b.targetClosed)
    && (forall c | c in a.installs :: c in b.installs)
    && (forall r | r in a.results :: r in b.results)
    && (a.stopping && a.closer != t ==> |b.ended| == |a.ended| && b.stopDone == a.stopDone)
  }

  ghost predicate Evolves(st: State, n: State, t: nat) {
    && (forall p | p in st.pipes ::
          && p in n.pipes && (st.pipes[p].closed ==> n.pipes[p].closed) && (st.pipes[p].done ==> n.pipes[p].done))
    && (forall s | s in st.sessions :: s in n.sessions && SessionLater(st.sessions[s], n.sessions[s], t))
    && (forall s | s in n.sessions && s !in st.sessions ::
          n.sessions[s].pipe in st.pipes && !st.pipes[n.sessions[s].pipe].closed)
    && (st.node.closed ==> n.node.closed && n.pipes.Keys == st.pipes.Keys)
    && (st.node.done ==> n.node.done)
  }

  lemma KeepStop(st: State, n: State, t: nat, u: nat, s: nat, pc: StopPc)
    requires Evolves(st, n, t) && u != t && StopInv(st, u, s, pc)
    ensures StopInv(n, u, s, pc)
  {}

  lemma KeepAllStopped(st: State, n: State, t: nat, p: nat)
    requires Evolves(st, n, t) && AllStopped(st, p)
    ensures AllStopped(n, p)
  {
    forall s | s in n.sessions && n.sessions[s].pipe == p
      ensures n.sessions[s].workClosed
    {
      assert s in st.sessions;
    }
  }

  lemma KeepPipe(st: State, n: State, t: nat, u: nat, p: nat, pc: PipePc)
    requires Evolves(st, n, t) && u != t && PipePcInv(st, u, p, pc)
    ensures PipePcInv(n, u, p, pc)
  {
    match pc
    case StoppingAll(todo, current) =>
      if current.Some? {
        KeepStop(st, n, t, u, current.value.0, current.value.1);
      }
    case RemovingPipe => KeepAllStopped(st, n, t, p);
    case EndingPipe => KeepAllStopped(st, n, t, p);
    case _ =>
  }

  lemma KeepNode(st: State, n: State, t: nat, u: nat, pc: NodePc)
    requires Evolves(st, n, t) && u != t && NodePcInv(st, u, pc)
    ensures NodePcInv(n, u, pc)
  {
    hide PipePcInv, AllStopped;
    forall p | p in st.pipes && AllStopped(st, p)
      ensures AllStopped(n, p)
    {
      KeepAllStopped(st, n, t, p);
    }
    if pc.ClosingAll? && pc.current.Some? {
      KeepPipe(st, n, t, u, pc.current.value.0, pc.current.value.1);
    }
  }

  lemma KeepThread(st: State, n: State, t: nat, u: nat, th: Thread)
    requires Evolves(st, n, t) && u != t && ThreadInv(st, u, th)
    ensures ThreadInv(n, u, th)
  {
    hide StopInv, PipePcInv, NodePcInv;
    match th
    case Stopper(s, pc) => KeepStop(st, n, t, u, s, pc);
    case PipeCloser(p, pc) => KeepPipe(st, n, t, u, p, pc);
    case NodeCloser(pc) => KeepNode(st, n, t, u, pc);
    case _ =>
  }

  lemma KeepThreads(st: State, n: State, t: nat, changed: set<nat>)
    requires Evolves(st, n, t)
    requires forall u | u in st.threads :: ThreadInv(st, u, st.threads[u])
    requires forall u | u in n.threads && u !in changed :: u in st.threads && u != t && n.threads[u] == st.threads[u]
    ensures forall u | u in n.threads && u !in changed :: ThreadInv(n, u, n.threads[u])
  {
    hide ThreadInv, Evolves;
    forall u | u in n.threads && u !in changed
      ensures ThreadInv(n, u, n.threads[u])
    {
      KeepThread(st, n, t, u, st.threads[u]);
    }
  }

  lemma KeepTree(st: State, n: State, t: nat)
    requires Evolves(st, n, t) && TreeInv(st)
    requires n.pipes.Keys == st.pipes.Keys && n.node.pipes == st.node.pipes && n.node.done == st.node.done
    requires forall p | p in st.pipes ::
               n.pipes[p].done == st.pipes[p].done && n.pipes[p].registry.Values <= st.pipes[p].registry.Values
    ensures TreeInv(n)
  {
    hide AllStopped;
    forall p | p in st.pipes && AllStopped(st, p)
      ensures AllStopped(n, p)
    {
      KeepAllStopped(st, n, t, p);
    }
    forall p, id | p in n.pipes && id in n.pipes[p].registry
      ensures n.pipes[p].registry[id] in n.sessions
    {
      assert n.pipes[p].registry[id] in n.pipes[p].registry.Values;
    }
  }

  lemma SameHolders(st: State, n: State, t: nat, s: nat)
    requires forall u | u != t ::
      (u in n.threads <==> u in st.threads) && (u in n.threads ==> n.threads[u] == st.threads[u])
    requires (t in n.threads && Holds(n.threads[t], s)) <==> (t in st.threads && Holds(st.threads[t], s))
    ensures Holders(n, s) == Holders(st, s)
  {
    hide Holds;
  }

  // ---- Stop, whoever calls it

  lemma StopOwn(sess: Session, t: nat, pc: StopPc)
    requires OwnInv(sess) && StopPcInv(sess, t, pc)
    ensures OwnInv(StopSession(sess, t, pc).0)
  {
    hide OwnInv, BeginStop, EndCarrier;
    if pc.Entering? && !sess.stopping {
      BegunStop(sess, t);
    } else if pc == Closing(1) {
      EndedOwn(sess);
    } else if pc.Closing? {
      FlaggedOwn(sess);
    }
  }

  lemma EndedOwn(sess: Session)
    requires OwnInv(sess) && sess.stopping && !sess.stopDone && sess.ended == []
    ensures OwnInv(EndCarrier(sess))
  {}

  lemma FlaggedOwn(sess: Session)
    requires OwnInv(sess)
    ensures OwnInv(sess.(cancelled := true)) && OwnInv(sess.(targetClosed := true))
    ensures sess.workClosed && !sess.stopDone && |sess.ended| == EndedAt(sess, 5) ==>
      OwnInv(sess.(stopDone := true, stopDoneCloses := sess.stopDoneCloses + 1))
  {}

  lemma StopLater(sess: Session, t: nat, pc: StopPc)
    requires StopPcInv(sess, t, pc)
    ensures SessionLater(sess, StopSession(sess, t, pc).0, t)
  {}

  lemma StopNext(sess: Session, t: nat, pc: StopPc)
    requires OwnInv(sess) && StopPcInv(sess, t, pc)
    ensures var (n, rest) := StopSession(sess, t, pc);
      if rest.Some? then StopPcInv(n, t, rest.value) else n.workClosed
  {}

  lemma UpdateEvolves(st: State, s: nat, sess: Session, t: nat)
    requires s in st.sessions && SessionLater(st.sessions[s], sess, t)
    ensures Evolves(st, WithSession(st, s, sess), t)
  {}

  lemma UnregisterEvolves(st: State, s: nat, t: nat)
    requires s in st.sessions
    ensures Evolves(st, Unregister(st, s), t)
  {}

  lemma StopStepInv(st: State, t: nat, s: nat, pc: StopPc)
    requires s in st.sessions && OwnInv(st.sessions[s]) && StopInv(st, t, s, pc)
    ensures var (n, rest) := StopStep(st, t, s, pc);
      && s in n.sessions && OwnInv(n.sessions[s]) && Evolves(st, n, t)
      && (rest.Some? ==> StopInv(n, t, s, rest.value))
      && (rest.None? ==> n.sessions[s].workClosed)
  {
    hide OwnInv, StopPcInv, StopSession, Evolves, SessionLater;
    StopOwn(st.sessions[s], t, pc);
    StopLater(st.sessions[s], t, pc);
    StopNext(st.sessions[s], t, pc);
    UpdateEvolves(st, s, StopSession(st.sessions[s], t, pc).0, t);
    UnregisterEvolves(st, s, t);
    StopFour(st.sessions[s], t);
  }

  lemma StopFour(sess: Session, t: nat)
    ensures StopSession(sess, t, Closing(4)) == (sess, Some(Closing(5)))
  {}

  // ---- steps of the threads inside Stop, PipeRuntime.Close and NodeRuntime.Close

  /** What such a step may do to the sessions, given the Stop call it was in and the one it is in. */
  ghost predicate StopMove(st: State, n: State, t: nat, before: Option<(nat, StopPc)>, after: Option<(nat, StopPc)>) {
    && n.threads == st.threads && n.sessions.Keys == st.sessions.Keys
    && forall s | s in st.sessions ::
         && OwnInv(n.sessions[s])
         && n.sessions[s].workCount == st.sessions[s].workCount
         && n.sessions[s].pipe == st.sessions[s].pipe && st.sessions[s].pipe in n.pipes
         && Registered(n, s)
         && (n.sessions[s].stopping && !n.sessions[s].stopDone ==>
               || (n.sessions[s].closer == t && after.Some? && after.value.0 == s && after.value.1.Closing?)
               || (&& st.sessions[s].stopping && !st.sessions[s].stopDone
                   && n.sessions[s].closer == st.sessions[s].closer
                   && !(before.Some? && before.value.0 == s && before.value.1.Closing?)))
  }

  function At(s: nat, pc: Option<StopPc>): Option<(nat, StopPc)> {
    if pc.Some? then Some((s, pc.value)) else None
  }

  function After(th: Option<Thread>): Option<(nat, StopPc)> {
    if th.Some? then StopOf(th.value) else None
  }

  predicate HoldsNothing(th: Thread) {
    !th.Runner? && !th.Outbound?
  }

  lemma UnregisterKeeps(st: State, s: nat, x: nat)
    requires s in st.sessions && st.sessions[s].workClosed
    requires x in st.sessions && st.sessions[x].pipe in st.pipes && Registered(st, x)
    ensures var n := Unregister(st, s); n.sessions == st.sessions && st.sessions[x].pipe in n.pipes && Registered(n, x)
  {}

  /** A step of Stop, seen from the session's closer field. */
  lemma StopCloser(sess: Session, t: nat, pc: StopPc)
    requires StopPcInv(sess, t, pc)
    ensures var (n, rest) := StopSession(sess, t, pc);
      n.stopping && !n.stopDone ==>
        || (n.closer == t && rest.Some? && rest.value.Closing?)
        || (sess.stopping && !sess.stopDone && n.closer == sess.closer && !pc.Closing?)
  {}

  lemma StopFields(sess: Session, t: nat, pc: StopPc)
    ensures var n := StopSession(sess, t, pc).0;
      && n.workCount == sess.workCount && n.pipe == sess.pipe && n.id == sess.id
      && (sess.stopping ==> n.stopping) && (sess.workClosed ==> n.workClosed)
  {
    match pc
    case Entering =>
    case Waiting =>
    case Closing(line) => if line == 0 {} else if line == 1 {} else if line == 2 {} else {}
  }

  lemma StopStepMove(st: State, t: nat, s: nat, pc: StopPc)
    requires forall x | x in st.sessions :: SessionInv(st, x)
    requires StopInv(st, t, s, pc)
    ensures var (n, rest) := StopStep(st, t, s, pc); StopMove(st, n, t, Some((s, pc)), At(s, rest))
  {
    hide OwnInv, StopPcInv, StopSession, Evolves, Registered, Unregister, Holders, Closes;
    StopStepInv(st, t, s, pc);
    StopCloser(st.sessions[s], t, pc);
    StopFields(st.sessions[s], t, pc);
    StopFour(st.sessions[s], t);
    forall x | x in st.sessions
      ensures var n := StopStep(st, t, s, pc).0;
        && n.sessions.Keys == st.sessions.Keys && st.sessions[x].pipe in n.pipes
        && n.sessions[x].pipe == st.sessions[x].pipe && Registered(n, x)
    {
      if pc == Closing(4) {
        ClosedAtFour(st.sessions[s], t);
        UnregisterKeeps(st, s, x);
      } else {
        UpdateRegistered(st, s, StopSession(st.sessions[s], t, pc).0, x);
      }
    }
    UnregisterSessions(st, s);
  }

  lemma ClosedAtFour(sess: Session, t: nat)
    requires StopPcInv(sess, t, Closing(4))
    ensures sess.workClosed
  {}

  lemma UnregisterSessions(st: State, s: nat)
    requires s in st.sessions
    ensures var n := Unregister(st, s);
      n.sessions == st.sessions && n.threads == st.threads && n.node == st.node && n.pipes.Keys == st.pipes.Keys
  {}

  lemma UpdateRegistered(st: State, s: nat, sess: Session, x: nat)
    requires s in st.sessions && sess.pipe == st.sessions[s].pipe && sess.id == st.sessions[s].id
    requires st.sessions[s].workClosed ==> sess.workClosed
    requires x in st.sessions && st.sessions[x].pipe in st.pipes && Registered(st, x)
    ensures WithSession(st, s, sess).sessions[x].pipe == st.sessions[x].pipe && Registered(WithSession(st, s, sess), x)
  {}

  lemma MoveSessions(st: State, n: State, t: nat, rest: Option<Thread>)
    requires t in st.threads && HoldsNothing(st.threads[t]) && (rest.Some? ==> HoldsNothing(rest.value))
    requires forall s | s in st.sessions :: SessionInv(st, s)
    requires StopMove(st, n, t, StopOf(st.threads[t]), After(rest))
    ensures forall s | s in n.sessions :: SessionInv(Place(n, t, rest), s)
  {
    hide OwnInv, Registered, Holders;
    forall s | s in n.sessions
      ensures SessionInv(Place(n, t, rest), s)
    {
      SameHolders(st, Place(n, t, rest), t, s);
      PlaceRegistered(n, t, rest, s);
    }
  }

  lemma PlaceRegistered(n: State, t: nat, rest: Option<Thread>, s: nat)
    requires s in n.sessions && n.sessions[s].pipe in n.pipes && Registered(n, s)
    ensures Registered(Place(n, t, rest), s)
  {}

  lemma PlaceEvolves(st: State, n: State, t: nat, rest: Option<Thread>)
    requires Evolves(st, n, t)
    ensures Evolves(st, Place(n, t, rest), t)
  {
    hide SessionLater;
  }

  lemma PlaceOwn(n: State, t: nat, th: Thread)
    requires ThreadInv(n, t, th)
    ensures ThreadInv(WithThread(n, t, th), t, th)
  {
    hide ThreadInv;
    KeepThread(n, WithThread(n, t, th), t + 1, t, th);
  }

  lemma PlaceTree(n: State, t: nat, rest: Option<Thread>)
    requires TreeInv(n)
    ensures TreeInv(Place(n, t, rest))
  {
    hide TreeInv;
    KeepTree(n, Place(n, t, rest), t);
  }

  /** Assembles the invariant after a step that leaves thread t as `rest`. */
  lemma PlaceInv(st: State, n: State, t: nat, rest: Option<Thread>)
    requires Inv(st) && t in st.threads && HoldsNothing(st.threads[t]) && (rest.Some? ==> HoldsNothing(rest.value))
    requires Evolves(st, n, t) && TreeInv(n) && StopMove(st, n, t, StopOf(st.threads[t]), After(rest))
    requires rest.Some? ==> ThreadInv(n, t, rest.value)
    ensures Inv(Place(n, t, rest))
  {
    hide TreeInv, SessionInv, ThreadInv, Evolves, OwnInv, Registered;
    MoveSessions(st, n, t, rest);
    PlaceEvolves(st, n, t, rest);
    KeepThreads(st, Place(n, t, rest), t, {t});
    PlaceTree(n, t, rest);
    if rest.Some? {
      PlaceOwn(n, t, rest.value);
    }
  }

  lemma StopTree(st: State, t: nat, s: nat, pc: StopPc)
    requires TreeInv(st) && s in st.sessions && Evolves(st, StopStep(st, t, s, pc).0, t)
    ensures TreeInv(StopStep(st, t, s, pc).0)
  {
    hide TreeInv, Evolves, StopSession;
    var n := StopStep(st, t, s, pc).0;
    forall p | p in st.pipes
      ensures p in n.pipes && n.pipes[p].done == st.pipes[p].done
        && n.pipes[p].registry.Values <= st.pipes[p].registry.Values
    {
      forall v | v in n.pipes[p].registry.Values
        ensures v in st.pipes[p].registry.Values
      {
        var id :| id in n.pipes[p].registry && n.pipes[p].registry[id] == v;
        assert id in st.pipes[p].registry && st.pipes[p].registry[id] == v;
      }
    }
    KeepTree(st, n, t);
  }

  lemma QuietMove(st: State, n: State, t: nat, after: Option<(nat, StopPc)>)
    requires after.Some? ==> after.value.1.Entering?
    requires forall s | s in st.sessions :: SessionInv(st, s)
    requires n.sessions == st.sessions && n.threads == st.threads && n.pipes.Keys == st.pipes.Keys
    requires forall p | p in st.pipes :: n.pipes[p].closed || n.pipes[p] == st.pipes[p].(done := n.pipes[p].done)
    ensures StopMove(st, n, t, None, after)
  {
    hide OwnInv, Holders, Closes;
  }

  // ---- PipeRuntime.Close

  lemma PipeStepMove(st: State, t: nat, p: nat, pc: PipePc, pick: nat)
    requires forall s | s in st.sessions :: SessionInv(st, s)
    requires PipePcInv(st, t, p, pc)
    ensures var (n, rest) := PipeStep(st, t, p, pc, pick);
      StopMove(st, n, t, PipeStop(pc), if rest.Some? then PipeStop(rest.value) else None)
  {
    hide SessionInv, AllStopped, StopPcInv, StopStep, StopMove;
    if pc.StoppingAll? && pc.current.Some? {
      StopStepMove(st, t, pc.current.value.0, pc.current.value.1);
    } else {
      var (n, rest) := PipeStep(st, t, p, pc, pick);
      QuietMove(st, n, t, if rest.Some? then PipeStop(rest.value) else None);
    }
  }

  /** A step of PipeRuntime.Close keeps the tree and leads to the next line with its claim proved. */
  lemma PipeStepInv(st: State, t: nat, p: nat, pc: PipePc, pick: nat)
    requires TreeInv(st) && PipePcInv(st, t, p, pc)
    requires forall s | s in st.sessions :: SessionInv(st, s)
    ensures var (n, rest) := PipeStep(st, t, p, pc, pick);
      && Evolves(st, n, t) && TreeInv(n)
      && (if rest.Some? then PipePcInv(n, t, p, rest.value) else AllStopped(n, p))
  {
    hide Evolves, SessionInv, StopInv, StopStep, AllStopped;
    Idle(st, t);
    match pc
    case PipeEntering => if !st.pipes[p].closed { ClosePipe(st, t, p); }
    case PipeWaiting =>
    case StoppingAll(todo, None) =>
      if todo == {} {
        AllDone(st, t, p);
      } else if pick in todo {
        PickSession(st, t, p, todo, pick);
      }
    case StoppingAll(todo, Some((s, stop))) => StoppingStep(st, t, p, todo, s, stop);
    case RemovingPipe => RemovePipe(st, t, p);
    case EndingPipe => EndPipe(st, t, p);
  }

  lemma Idle(st: State, t: nat)
    ensures Evolves(st, st, t)
  {}

  lemma AllDone(st: State, t: nat, p: nat)
    requires PipePcInv(st, t, p, StoppingAll({}, None))
    ensures AllStopped(st, p)
  {}

  lemma PickSession(st: State, t: nat, p: nat, todo: set<nat>, s: nat)
    requires PipePcInv(st, t, p, StoppingAll(todo, None)) && s in todo
    ensures PipePcInv(st, t, p, StoppingAll(todo - {s}, Some((s, Entering))))
  {}

  function Closed(st: State, p: nat): State
    requires p in st.pipes
  {
    WithPipe(st, p, st.pipes[p].(closed := true, cancelled := true, registry := map[]))
  }

  lemma ClosePipe(st: State, t: nat, p: nat)
    requires TreeInv(st) && p in st.pipes && !st.pipes[p].closed
    requires forall s | s in st.sessions :: SessionInv(st, s)
    ensures var n := Closed(st, p);
      Evolves(st, n, t) && TreeInv(n) && PipePcInv(n, t, p, StoppingAll(st.pipes[p].registry.Values, None))
  {
    hide TreeInv, SessionInv;
    ClosedEvolves(st, t, p);
    KeepTree(st, Closed(st, p), t);
    RegistryCovers(st, p);
    TreeRegistry(st, p);
  }

  lemma ClosedEvolves(st: State, t: nat, p: nat)
    requires p in st.pipes
    ensures Evolves(st, Closed(st, p), t)
  {}

  lemma RegistryCovers(st: State, p: nat)
    requires p in st.pipes && !st.pipes[p].closed
    requires forall s | s in st.sessions :: SessionInv(st, s)
    ensures forall s | s in st.sessions && st.sessions[s].pipe == p ::
              st.sessions[s].workClosed || s in st.pipes[p].registry.Values
  {
    hide OwnInv, Holders, Closes;
    forall s | s in st.sessions && st.sessions[s].pipe == p
      ensures st.sessions[s].workClosed || s in st.pipes[p].registry.Values
    {
      assert SessionInv(st, s);
    }
  }

  lemma TreeRegistry(st: State, p: nat)
    requires TreeInv(st) && p in st.pipes
    ensures forall s | s in st.pipes[p].registry.Values :: s in st.sessions
  {
    hide AllStopped;
  }

  lemma RemovePipe(st: State, t: nat, p: nat)
    requires TreeInv(st) && AllStopped(st, p)
    ensures var n := st.(node := st.node.(pipes := st.node.pipes - {p}));
      Evolves(st, n, t) && TreeInv(n) && AllStopped(n, p)
  {
  }

  lemma EndPipe(st: State, t: nat, p: nat)
    requires TreeInv(st) && AllStopped(st, p)
    ensures var n := WithPipe(st, p, st.pipes[p].(done := true));
      Evolves(st, n, t) && TreeInv(n) && AllStopped(n, p)
  {
  }

  lemma StoppingStep(st: State, t: nat, p: nat, todo: set<nat>, s: nat, stop: StopPc)
    requires TreeInv(st) && PipePcInv(st, t, p, StoppingAll(todo, Some((s, stop))))
    requires forall x | x in st.sessions :: SessionInv(st, x)
    ensures var (n, rest) := StopStep(st, t, s, stop);
      Evolves(st, n, t) && TreeInv(n) && PipePcInv(n, t, p, StoppingAll(todo, At(s, rest)))
  {
    hide TreeInv, StopStep, StopPcInv, OwnInv, Holders, Closes, Registered;
    assert SessionInv(st, s);
    StopStepInv(st, t, s, stop);
    StopTree(st, t, s, stop);
  }

  // ---- NodeRuntime.Close

  lemma NodeStepMove(st: State, t: nat, pc: NodePc, pick: nat)
    requires forall s | s in st.sessions :: SessionInv(st, s)
    requires NodePcInv(st, t, pc)
    ensures var (n, rest) := NodeStep(st, t, pc, pick);
      StopMove(st, n, t, StopOf(NodeCloser(pc)), if rest.Some? then StopOf(NodeCloser(rest.value)) else None)
  {
    hide SessionInv, AllStopped, PipeStep, StopMove;
    if pc.ClosingAll? && pc.current.Some? {
      assert pc.current.value.0 in st.pipes;
      hide PipePcInv;
      PipeStepMove(st, t, pc.current.value.0, pc.current.value.1, pick);
    } else {
      QuietMove(st, NodeStep(st, t, pc, pick).0, t, None);
    }
  }

  lemma NodeStepInv(st: State, t: nat, pc: NodePc, pick: nat)
    requires TreeInv(st) && NodePcInv(st, t, pc)
    requires forall s | s in st.sessions :: SessionInv(st, s)
    ensures var (n, rest) := NodeStep(st, t, pc, pick);
      && Evolves(st, n, t) && TreeInv(n)
      && (rest.Some? ==> NodePcInv(n, t, rest.value))
  {
    hide Evolves, SessionInv, StopInv, PipeStep, AllStopped;
    Idle(st, t);
    match pc
    case NodeEntering => if !st.node.closed { CloseNode(st, t); }
    case NodeWaiting =>
    case ClosingAll(todo, None) =>
    case ClosingAll(todo, Some((p, pipePc))) => ClosingStep(st, t, todo, p, pipePc, pick);
    case EndingNode => EndNode(st, t);
  }

  lemma CloseNode(st: State, t: nat)
    requires TreeInv(st) && !st.node.closed
    ensures var n := st.(node := st.node.(closed := true, cancelled := true));
      Evolves(st, n, t) && TreeInv(n) && NodePcInv(n, t, ClosingAll(st.node.pipes, None))
  {
    hide TreeInv, AllStopped;
    var n := st.(node := st.node.(closed := true, cancelled := true));
    KeepTree(st, n, t);
    TreePipes(n);
  }

  lemma TreePipes(st: State)
    requires TreeInv(st)
    ensures forall p | p in st.node.pipes :: p in st.pipes
    ensures forall p | p in st.pipes && p !in st.node.pipes :: AllStopped(st, p)
  {
    hide AllStopped;
  }

  lemma EndNode(st: State, t: nat)
    requires TreeInv(st) && st.node.closed && forall p | p in st.pipes :: AllStopped(st, p)
    ensures var n := st.(node := st.node.(done := true)); Evolves(st, n, t) && TreeInv(n)
  {
    hide AllStopped;
    var n := st.(node := st.node.(done := true));
    forall p | p in st.pipes
      ensures AllStopped(n, p)
    {
      KeepAllStopped(st, n, t, p);
    }
  }

  lemma ClosingStep(st: State, t: nat, todo: set<nat>, p: nat, pc: PipePc, pick: nat)
    requires TreeInv(st) && NodePcInv(st, t, ClosingAll(todo, Some((p, pc))))
    requires forall s | s in st.sessions :: SessionInv(st, s)
    ensures p in st.pipes
    ensures var (n, rest) := PipeStep(st, t, p, pc, pick);
      && Evolves(st, n, t) && TreeInv(n)
      && NodePcInv(n, t, ClosingAll(todo, if rest.Some? then Some((p, rest.value)) else None))
  {
    hide TreeInv, SessionInv, PipeStep, AllStopped, StopInv, SessionLater;
    PipeStepInv(st, t, p, pc, pick);
    var n := PipeStep(st, t, p, pc, pick).0;
    forall q | q in st.pipes && AllStopped(st, q)
      ensures AllStopped(n, q)
    {
      KeepAllStopped(st, n, t, q);
    }
  }

  // ---- Stop, PipeRuntime.Close and NodeRuntime.Close keep the invariant

  lemma CloserStepInv(st: State, t: nat, pick: nat, left: bool, event: Event, spawn: nat)
    requires Inv(st) && t in st.threads && HoldsNothing(st.threads[t])
    ensures Inv(ThreadStep(st, t, st.threads[t], pick, left, event, spawn))
  {
    hide TreeInv, SessionInv, StopMove, Evolves, PipePcInv, NodePcInv, StopPcInv, StopStep, PipeStep, NodeStep, Place;
    match st.threads[t]
    case Stopper(s, pc) =>
      StopStepMove(st, t, s, pc);
      assert OwnInv(st.sessions[s]) by { SessionOwn(st, s); }
      StopStepInv(st, t, s, pc);
      StopTree(st, t, s, pc);
      var (n, rest) := StopperStep(st, t, s, pc);
      PlaceInv(st, n, t, rest);
    case PipeCloser(p, pc) =>
      HasPipe(st, t, p, pc);
      PipeStepMove(st, t, p, pc, pick);
      PipeStepInv(st, t, p, pc, pick);
      var (n, rest) := PipeCloserStep(st, t, p, pc, pick);
      PlaceInv(st, n, t, rest);
    case NodeCloser(pc) =>
      NodeStepMove(st, t, pc, pick);
      NodeStepInv(st, t, pc, pick);
      var (n, rest) := NodeCloserStep(st, t, pc, pick);
      PlaceInv(st, n, t, rest);
  }

  lemma SessionOwn(st: State, s: nat)
    requires s in st.sessions && SessionInv(st, s)
    ensures OwnInv(st.sessions[s])
  {}

  lemma HasPipe(st: State, t: nat, p: nat, pc: PipePc)
    requires PipePcInv(st, t, p, pc)
    ensures p in st.pipes
  {}

  // ---- steps of a pump and of the environment

  /** Thread t goes on inside the same admitted work, outside any Stop. */
  lemma GoOn(st: State, t: nat, th: Thread)
    requires Inv(st)
    requires t in st.threads ==> StopOf(st.threads[t]).None?
    requires forall s :: Holds(th, s) <==> t in st.threads && Holds(st.threads[t], s)
    requires ThreadInv(st, t, th)
    ensures Inv(WithThread(st, t, th))
  {
    hide TreeInv, ThreadInv, OwnInv, Registered, Holders, Evolves, Holds;
    var n := WithThread(st, t, th);
    Idle(st, t);
    PlaceEvolves(st, st, t, Some(th));
    KeepThreads(st, n, t, {t});
    PlaceOwn(st, t, th);
    PlaceTree(st, t, Some(th));
    forall s | s in n.sessions
      ensures SessionInv(n, s)
    {
      SameHolders(st, n, t, s);
      PlaceRegistered(st, t, Some(th), s);
    }
  }

  /** A write to a session that leaves its lifecycle alone. */
  lemma Written(st: State, s: nat, sess: Session)
    requires Inv(st) && s in st.sessions && OwnInv(sess)
    requires forall t :: SessionLater(st.sessions[s], sess, t)
    requires sess.workCount == st.sessions[s].workCount && sess.stopping == st.sessions[s].stopping
    requires sess.stopDone == st.sessions[s].stopDone
    ensures Inv(WithSession(st, s, sess))
  {
    hide TreeInv, ThreadInv, OwnInv, Holders, Evolves, Closes;
    var n := WithSession(st, s, sess);
    forall u | u in n.threads
      ensures ThreadInv(n, u, n.threads[u])
    {
      UpdateEvolves(st, s, sess, u + 1);
      KeepThread(st, n, u + 1, u, st.threads[u]);
    }
    UpdateEvolves(st, s, sess, 0);
    KeepTree(st, n, 0);
    forall x | x in n.sessions
      ensures SessionInv(n, x)
    {
      SameHolders(st, n, 0, x);
      UpdateRegistered(st, s, sess, x);
    }
  }

  /** Writes session s and leaves thread t as `rest`: everything but the sessions' own claims. */
  lemma UpdateParts(st: State, s: nat, sess: Session, t: nat, rest: Option<Thread>)
    requires TreeInv(st) && forall u | u in st.threads :: ThreadInv(st, u, st.threads[u])
    requires s in st.sessions && SessionLater(st.sessions[s], sess, t)
    requires rest.Some? ==> ThreadInv(WithSession(st, s, sess), t, rest.value)
    ensures var n := Place(WithSession(st, s, sess), t, rest);
      TreeInv(n) && forall u | u in n.threads :: ThreadInv(n, u, n.threads[u])
  {
    hide TreeInv, ThreadInv, Evolves, SessionLater;
    var mid := WithSession(st, s, sess);
    UpdateEvolves(st, s, sess, t);
    PlaceEvolves(st, mid, t, rest);
    KeepThreads(st, Place(mid, t, rest), t, {t});
    KeepTree(st, mid, t);
    PlaceTree(mid, t, rest);
    if rest.Some? {
      PlaceOwn(mid, t, rest.value);
    }
  }

  lemma RequestStopInv(st: State, s: nat, spawn: nat)
    requires Inv(st) && s in st.sessions && spawn !in st.threads
    ensures Inv(RequestStop(st, s, spawn))
  {
    if !st.sessions[s].stopping {
      hide TreeInv, SessionInv, ThreadInv, OwnInv, StopPcInv, SessionLater, BeginStop, Closes, StopOf;
      SessionOwn(st, s);
      BegunStop(st.sessions[s], spawn);
      var sess := BeginStop(st.sessions[s], spawn);
      StopperInv(WithSession(st, s, sess), spawn, s);
      UpdateParts(st, s, sess, spawn, Some(Stopper(s, Closing(0))));
      RequestedSessions(st, s, spawn);
    }
  }

  lemma BegunStop(sess: Session, closer: nat)
    requires OwnInv(sess) && !sess.stopping
    ensures var n := BeginStop(sess, closer);
      && OwnInv(n) && SessionLater(sess, n, closer) && StopPcInv(n, closer, Closing(0))
      && n.workCount == sess.workCount && n.closer == closer && !n.stopDone
      && n.pipe == sess.pipe && n.id == sess.id
  {}

  lemma StopperInv(st: State, t: nat, s: nat)
    requires s in st.sessions && StopPcInv(st.sessions[s], t, Closing(0))
    ensures ThreadInv(st, t, Stopper(s, Closing(0)))
  {}

  lemma RequestedSessions(st: State, s: nat, spawn: nat)
    requires s in st.sessions && !st.sessions[s].stopping && spawn !in st.threads
    requires forall x | x in st.sessions :: SessionInv(st, x)
    ensures forall x | x in st.sessions :: SessionInv(RequestStop(st, s, spawn), x)
  {
    hide OwnInv, Holders, Registered, BeginStop, StopPcInv, SessionLater;
    var n := RequestStop(st, s, spawn);
    SessionOwn(st, s);
    BegunStop(st.sessions[s], spawn);
    var mid := WithSession(st, s, BeginStop(st.sessions[s], spawn));
    forall x | x in st.sessions
      ensures SessionInv(n, x)
    {
      SameHolders(st, n, spawn, x);
      UpdateRegistered(st, s, mid.sessions[s], x) by { NotYetClosed(st.sessions[s]); }
      PlaceRegistered(mid, spawn, Some(Stopper(s, Closing(0))), x);
    }
  }

  lemma NotYetClosed(sess: Session)
    requires OwnInv(sess) && !sess.stopping
    ensures !sess.workClosed
  {}

  lemma AddHolder(st: State, n: State, t: nat, s: nat)
    requires t in n.threads && n.threads == st.threads[t := n.threads[t]] && Holds(n.threads[t], s)
    requires t in st.threads ==> !Holds(st.threads[t], s)
    ensures |Holders(n, s)| == |Holders(st, s)| + 1
  {
    assert Holders(n, s) == Holders(st, s) + {t};
  }

  lemma RemoveHolder(st: State, n: State, t: nat, s: nat)
    requires t in st.threads && Holds(st.threads[t], s)
    requires t in n.threads ==> !Holds(n.threads[t], s)
    requires forall u | u != t ::
      (u in n.threads <==> u in st.threads) && (u in n.threads ==> n.threads[u] == st.threads[u])
    ensures |Holders(n, s)| == |Holders(st, s)| - 1
  {
    assert Holders(n, s) == Holders(st, s) - {t};
  }

  /** admitWork, then thread t carries the work. */
  lemma AdmitInv(st: State, t: nat, s: nat, th: Thread)
    requires Inv(st) && s in st.sessions && !st.sessions[s].stopping
    requires t in st.threads ==> StopOf(st.threads[t]).None? && forall x :: !Holds(st.threads[t], x)
    requires th == Outbound(s) || (th.Runner? && th.session == s && th.run.Starting?)
    ensures Inv(WithThread(WithSession(st, s, Admit(st.sessions[s])), t, th))
  {
    hide TreeInv, ThreadInv, Registered, Holders, Holds;
    var sess := Admit(st.sessions[s]);
    var mid := WithSession(st, s, sess);
    var n := WithThread(mid, t, th);
    SessionOwn(st, s);
    WorkInv(mid, t, s, th);
    UpdateParts(st, s, sess, t, Some(th));
    CarriesOnly(th, s);
    forall x | x in n.sessions
      ensures SessionInv(n, x)
    {
      if x == s {
        AddHolder(st, n, t, s);
      } else {
        SameHolders(st, n, t, x);
      }
      UpdateRegistered(st, s, sess, x);
      PlaceRegistered(mid, t, Some(th), x);
    }
  }

  lemma WorkInv(st: State, t: nat, s: nat, th: Thread)
    requires s in st.sessions
    requires th == Outbound(s) || (th.Runner? && th.session == s && th.run.Starting?)
    ensures ThreadInv(st, t, th)
  {}

  lemma CarriesOnly(th: Thread, s: nat)
    requires th == Outbound(s) || (th.Runner? && th.session == s && !th.run.Admitting?)
    ensures forall x :: Holds(th, x) <==> x == s
    ensures StopOf(th).None?
  {}

  /** finishWork by a thread that carried work, which then returns or calls Stop. */
  lemma FinishInv(st: State, t: nat, s: nat, rest: Option<Thread>)
    requires Inv(st) && s in st.sessions && t in st.threads
    requires st.threads[t] == Outbound(s)
      || (st.threads[t].Runner? && st.threads[t].session == s && !st.threads[t].run.Admitting?)
    requires rest == None || rest == Some(Stopper(s, Entering))
    ensures Inv(Place(WithSession(st, s, FinishWork(st.sessions[s])), t, rest))
  {
    hide TreeInv, ThreadInv, Registered, Holders, Holds, FinishWork, OwnInv, SessionLater;
    var sess := FinishWork(st.sessions[s]);
    var mid := WithSession(st, s, sess);
    var n := Place(mid, t, rest);
    CarriesOnly(st.threads[t], s);
    SessionOwn(st, s);
    RemoveHolder(st, n, t, s) by { NoneHeld(rest); }
    Finished(st.sessions[s], t);
    EnteringInv(mid, t, s);
    UpdateParts(st, s, sess, t, rest);
    NoneHeld(rest);
    forall x | x in n.sessions
      ensures SessionInv(n, x)
    {
      if x != s {
        SameHolders(st, n, t, x);
      }
      UpdateRegistered(st, s, sess, x);
      PlaceRegistered(mid, t, rest, x);
    }
  }

  lemma NoneHeld(rest: Option<Thread>)
    requires rest.Some? ==> rest.value.Stopper?
    ensures rest.Some? ==> forall x :: !Holds(rest.value, x)
  {}

  lemma EnteringInv(st: State, t: nat, s: nat)
    requires s in st.sessions
    ensures ThreadInv(st, t, Stopper(s, Entering))
  {}

  lemma Finished(sess: Session, t: nat)
    requires OwnInv(sess) && sess.workCount > 0
    ensures var n := FinishWork(sess);
      && OwnInv(n) && SessionLater(sess, n, t) && n.workCount == sess.workCount - 1
      && n.stopping == sess.stopping && n.stopDone == sess.stopDone && n.closer == sess.closer
      && n.pipe == sess.pipe && n.id == sess.id && (sess.workClosed ==> n.workClosed)
  {}

  lemma InvThread(st: State, t: nat)
    requires Inv(st) && t in st.threads
    ensures ThreadInv(st, t, st.threads[t])
  {
    hide TreeInv, SessionInv, ThreadInv;
  }

  lemma RunStepInv(st: State, t: nat, pick: nat, left: bool, event: Event, spawn: nat)
    requires Inv(st) && t in st.threads && st.threads[t].Runner? && spawn !in st.threads
    ensures Inv(ThreadStep(st, t, st.threads[t], pick, left, event, spawn))
  {
    hide Inv, FinishWork, RequestStop, SessionCancelled, PumpStep;
    InvThread(st, t);
    var th := st.threads[t];
    var s := th.session;
    match th.run
    case Admitting =>
      if st.sessions[s].stopping || SessionCancelled(st, s) {
        Drop(st, t);
      } else {
        AdmitInv(st, t, s, th.(run := Starting));
      }
    case Starting => StartInv(st, t);
    case NoCarrier =>
      RequestStopInv(st, s, spawn);
      RequestKeeps(st, s, spawn);
      GoOn(RequestStop(st, s, spawn), t, th.(run := Finishing));
    case Pumping(_, _, _) => PumpStepInv(st, t, left, event, spawn);
    case Finishing => FinishInv(st, t, s, if th.thenStop then Some(Stopper(s, Entering)) else None);
  }

  lemma StartInv(st: State, t: nat)
    requires Inv(st) && t in st.threads && st.threads[t].Runner? && st.threads[t].run.Starting?
    requires st.threads[t].session in st.sessions
    ensures forall left, event, spawn :: Inv(RunStep(st, t, st.threads[t], left, event, spawn))
  {
    hide Inv;
    var th := st.threads[t];
    ActiveInstalled(st, th.session);
    GoOn(st, t, th.(run := match st.sessions[th.session].active
                           case None => NoCarrier
                           case Some(c) => Pumping(c, Reading, Reading)));
  }

  lemma RequestKeeps(st: State, s: nat, spawn: nat)
    requires s in st.sessions && spawn !in st.threads
    ensures var n := RequestStop(st, s, spawn);
      && (forall u | u in st.threads :: u in n.threads && n.threads[u] == st.threads[u])
      && n.sessions.Keys == st.sessions.Keys && n.sessions[s].installs == st.sessions[s].installs
      && n.sessions[s].stopping
  {}

  lemma ActiveInstalled(st: State, s: nat)
    requires Inv(st) && s in st.sessions
    ensures st.sessions[s].active.Some? ==> st.sessions[s].active.value in st.sessions[s].installs
  {
    hide Inv;
    InvOwn(st, s);
  }

  /** A thread outside any work or Stop returns. */
  lemma Drop(st: State, t: nat)
    requires Inv(st) && t in st.threads && StopOf(st.threads[t]).None? && forall s :: !Holds(st.threads[t], s)
    ensures Inv(EndThread(st, t))
  {
    hide TreeInv, ThreadInv, OwnInv, Registered, Holders, Evolves, Holds;
    var n := EndThread(st, t);
    Idle(st, t);
    PlaceEvolves(st, st, t, None);
    KeepThreads(st, n, t, {t});
    PlaceTree(st, t, None);
    forall s | s in n.sessions
      ensures SessionInv(n, s)
    {
      SameHolders(st, n, t, s);
      PlaceRegistered(st, t, None, s);
    }
  }

  lemma PumpStepInv(st: State, t: nat, left: bool, event: Event, spawn: nat)
    requires Inv(st) && t in st.threads && st.threads[t].Runner? && st.threads[t].run.Pumping? && spawn !in st.threads
    requires ThreadInv(st, t, st.threads[t])
    ensures Inv(PumpStep(st, t, st.threads[t], left, event, spawn))
  {
    hide Inv, RequestStop;
    var th := st.threads[t];
    var s := th.session;
    var pump := th.run;
    if pump.a.Ended? && pump.b.Ended? {
      var sess := st.sessions[s].(clean := pump.a.clean && pump.b.clean,
                                  results := st.sessions[s].results + [(pump.a.clean, pump.b.clean)]);
      InvOwn(st, s);
      PumpedOwn(st.sessions[s], pump.a.clean, pump.b.clean);
      hide OwnInv, SessionLater;
      Written(st, s, sess);
      GoOn(WithSession(st, s, sess), t, th.(run := Finishing));
    } else {
      var d := if left then pump.a else pump.b;
      RequestStopInv(st, s, spawn);
      RequestKeeps(st, s, spawn);
      GoOn(if d.Failing? then RequestStop(st, s, spawn) else st, t,
           th.(run := if left then pump.(a := Sees(d, event)) else pump.(b := Sees(d, event))));
    }
  }

  lemma PumpedOwn(sess: Session, a: bool, b: bool)
    requires OwnInv(sess)
    ensures var n := sess.(clean := a && b, results := sess.results + [(a, b)]);
      OwnInv(n) && forall u :: SessionLater(sess, n, u)
  {}

  lemma InvOwn(st: State, s: nat)
    requires Inv(st) && s in st.sessions
    ensures OwnInv(st.sessions[s])
  {
    hide TreeInv, ThreadInv, OwnInv;
    SessionOwn(st, s);
  }

  // ---- the environment

  lemma KeepAllThreads(st: State, n: State)
    requires n.threads == st.threads && forall t: nat :: Evolves(st, n, t)
    requires forall u | u in st.threads :: ThreadInv(st, u, st.threads[u])
    ensures forall u | u in n.threads :: ThreadInv(n, u, n.threads[u])
  {
    hide ThreadInv, Evolves;
    forall u | u in n.threads
      ensures ThreadInv(n, u, n.threads[u])
    {
      assert Evolves(st, n, u + 1);
      KeepThread(st, n, u + 1, u, st.threads[u]);
    }
  }

  lemma CancelInv(st: State)
    requires Inv(st)
    ensures Inv(Next(st, CancelParent))
  {
    hide TreeInv, ThreadInv, OwnInv, Holders, Closes;
    var n := Next(st, CancelParent);
    assert forall t: nat :: Evolves(st, n, t);
    KeepAllThreads(st, n);
    KeepTree(st, n, 0);
    forall s | s in n.sessions
      ensures SessionInv(n, s)
    {
      SameHolders(st, n, 0, s);
    }
  }

  function AddPipe(st: State, p: nat): State {
    st.(pipes := st.pipes[p := Pipe(false, false, false, map[])], node := st.node.(pipes := st.node.pipes + {p}))
  }

  lemma AddPipeInv(st: State, p: nat)
    requires Inv(st) && p !in st.pipes && !st.node.closed
    ensures Inv(AddPipe(st, p))
  {
    hide TreeInv, ThreadInv, OwnInv, Holders, Closes;
    var n := AddPipe(st, p);
    assert forall t: nat :: Evolves(st, n, t);
    KeepAllThreads(st, n);
    AddPipeTree(st, p);
    forall s | s in n.sessions
      ensures SessionInv(n, s)
    {
      SameHolders(st, n, 0, s);
    }
  }

  lemma AddPipeTree(st: State, p: nat)
    requires TreeInv(st) && p !in st.pipes && !st.node.closed
    ensures TreeInv(AddPipe(st, p))
  {
    hide AllStopped;
    var n := AddPipe(st, p);
    Idle(st, 0);
    assert Evolves(st, n, 0);
    forall q | q in st.pipes && AllStopped(st, q)
      ensures AllStopped(n, q)
    {
      KeepAllStopped(st, n, 0, q);
    }
  }

  function AddSession(st: State, p: nat, id: string, s: nat): State
    requires p in st.pipes
  {
    WithPipe(WithSession(st, s, NewSession(p, id)), p, st.pipes[p].(registry := st.pipes[p].registry[id := s]))
  }

  lemma AddSessionInv(st: State, p: nat, id: string, s: nat)
    requires Inv(st) && p in st.pipes && !st.pipes[p].closed && id !in st.pipes[p].registry && s !in st.sessions
    ensures Inv(AddSession(st, p, id, s))
  {
    hide TreeInv, ThreadInv, OwnInv, Holders, Closes, Evolves;
    var n := AddSession(st, p, id, s);
    forall t: nat
      ensures Evolves(st, n, t)
    {
      AddSessionEvolves(st, p, id, s, t);
    }
    KeepAllThreads(st, n);
    AddSessionTree(st, p, id, s);
    NewOwn(p, id);
    Unheld(st, s);
    forall x | x in n.sessions
      ensures SessionInv(n, x)
    {
      SameHolders(st, n, 0, x);
    }
  }

  lemma NewOwn(p: nat, id: string)
    ensures OwnInv(NewSession(p, id))
  {}

  lemma AddSessionEvolves(st: State, p: nat, id: string, s: nat, t: nat)
    requires p in st.pipes && !st.pipes[p].closed && s !in st.sessions
    ensures Evolves(st, AddSession(st, p, id, s), t)
  {}

  lemma AddSessionTree(st: State, p: nat, id: string, s: nat)
    requires TreeInv(st) && p in st.pipes && !st.pipes[p].closed && s !in st.sessions
    ensures TreeInv(AddSession(st, p, id, s))
  {
    hide AllStopped;
    var n := AddSession(st, p, id, s);
    AddSessionEvolves(st, p, id, s, 0);
    forall q | q in st.pipes && AllStopped(st, q)
      ensures AllStopped(n, q)
    {
      KeepAllStopped(st, n, 0, q);
    }
  }

  lemma Unheld(st: State, s: nat)
    requires s !in st.sessions && forall u | u in st.threads :: ThreadInv(st, u, st.threads[u])
    ensures Holders(st, s) == {}
  {
    hide StopInv, PipePcInv, NodePcInv;
    forall t | t in st.threads
      ensures !Holds(st.threads[t], s)
    {
      assert ThreadInv(st, t, st.threads[t]);
    }
  }

  lemma InstallInv(st: State, s: nat, c: Carrier)
    requires Inv(st) && s in st.sessions && !st.sessions[s].stopping
    ensures Inv(WithSession(st, s, Install(st.sessions[s], c)))
  {
    hide Inv;
    InvOwn(st, s);
    var sess := Install(st.sessions[s], c);
    assert forall t :: SessionLater(st.sessions[s], sess, t);
    Written(st, s, sess);
  }

  lemma BeginInv(st: State, t: nat, th: Thread)
    requires Inv(st) && t !in st.threads && Startable(st, th)
    ensures Inv(WithThread(st, t, th))
  {
    hide Inv;
    GoOn(st, t, th);
  }

  // ---- every run keeps the invariant

  lemma StepInv(st: State, t: nat, pick: nat, left: bool, event: Event, spawn: nat)
    requires Inv(st) && t in st.threads && spawn !in st.threads
    ensures Inv(ThreadStep(st, t, st.threads[t], pick, left, event, spawn))
  {
    hide Inv;
    InvThread(st, t);
    match st.threads[t]
    case Runner(_, _, _) => RunStepInv(st, t, pick, left, event, spawn);
    case Outbound(s) => FinishInv(st, t, s, None);
    case _ => CloserStepInv(st, t, pick, left, event, spawn);
  }

  lemma NextInv(st: State, a: Action)
    requires Inv(st)
    ensures Inv(Next(st, a))
  {
    hide Inv, ThreadStep, Startable, SessionCancelled, PipeCancelled;
    match a
    case CancelParent => CancelInv(st);
    case NewPipeRuntime(p) =>
      if !st.node.closed && p !in st.pipes {
        AddPipeInv(st, p);
      }
    case NewSessionOf(p, id, s) =>
      if p in st.pipes && !st.pipes[p].closed && id !in st.pipes[p].registry && s !in st.sessions {
        AddSessionInv(st, p, id, s);
      }
    case SetActiveCarrier(s, c) =>
      if s in st.sessions && !st.sessions[s].stopping {
        InstallInv(st, s, c);
      }
    case Begin(t, th) =>
      if t !in st.threads && Startable(st, th) {
        BeginInv(st, t, th);
      }
    case BeginOutbound(t, s) =>
      if t !in st.threads && s in st.sessions && !st.sessions[s].stopping {
        AdmitInv(st, t, s, Outbound(s));
      }
    case Step(t, pick, left, event, spawn) =>
      if t in st.threads && spawn !in st.threads {
        StepInv(st, t, pick, left, event, spawn);
      }
  }

  lemma InitInv()
    ensures Inv(INIT)
  {}

  /** Every state of every interleaving satisfies the invariant. */
  lemma {:induction false} RunInv(actions: seq<Action>, tr: seq<State>, i: nat)
    requires IsRun(actions, tr) && i < |tr|
    ensures Inv(tr[i])
  {
    hide Inv, Next;
    if i == 0 {
      InitInv();
    } else {
      RunInv(actions, tr, i - 1);
      NextInv(tr[i - 1], actions[i - 1]);
    }
  }

  // ---- what no step takes back

  ghost predicate Grows(st: State, n: State) {
    && (forall p | p in st.pipes ::
          p in n.pipes && (st.pipes[p].closed ==> n.pipes[p].closed) && (st.pipes[p].done ==> n.pipes[p].done))
    && (forall s | s in st.sessions ::
          && s in n.sessions && n.sessions[s].pipe == st.sessions[s].pipe
          && (st.sessions[s].stopping ==> n.sessions[s].stopping))
    && (forall s | s in n.sessions && s !in st.sessions ::
          n.sessions[s].pipe in st.pipes ==> !st.pipes[n.sessions[s].pipe].closed)
    && (st.node.closed ==> n.node.closed && n.pipes.Keys == st.pipes.Keys)
    && (st.node.done ==> n.node.done)
  }

  lemma StopGrows(st: State, t: nat, s: nat, pc: StopPc)
    requires s in st.sessions
    ensures Grows(st, StopStep(st, t, s, pc).0)
  {
    hide StopSession;
    StopFields(st.sessions[s], t, pc);
  }

  lemma PipeGrows(st: State, t: nat, p: nat, pc: PipePc, pick: nat)
    requires p in st.pipes
    ensures Grows(st, PipeStep(st, t, p, pc, pick).0)
  {
    hide StopStep;
    if pc.StoppingAll? && pc.current.Some? && pc.current.value.0 in st.sessions {
      hide Grows;
      StopGrows(st, t, pc.current.value.0, pc.current.value.1);
    }
    if pc.StoppingAll? && pc.current.Some? && pc.current.value.0 !in st.sessions {
      assert Grows(st, st);
    }
  }

  lemma NodeGrows(st: State, t: nat, pc: NodePc, pick: nat)
    ensures Grows(st, NodeStep(st, t, pc, pick).0)
  {
    hide PipeStep;
    if pc.ClosingAll? && pc.current.Some? && pc.current.value.0 in st.pipes {
      hide Grows;
      PipeGrows(st, t, pc.current.value.0, pc.current.value.1, pick);
    }
  }

  lemma PlaceGrows(st: State, n: State, t: nat, rest: Option<Thread>)
    requires Grows(st, n)
    ensures Grows(st, Place(n, t, rest))
  {}

  /** The step writes no Pipe and no Node, and clears no stopping flag. */
  ghost predicate OnlySessions(st: State, n: State) {
    && n.pipes == st.pipes && n.node == st.node && n.sessions.Keys == st.sessions.Keys
    && forall s | s in st.sessions ::
         n.sessions[s].pipe == st.sessions[s].pipe && (st.sessions[s].stopping ==> n.sessions[s].stopping)
  }

  lemma RequestOnly(st: State, s: nat, spawn: nat)
    requires s in st.sessions
    ensures OnlySessions(st, RequestStop(st, s, spawn))
  {}

  lemma OnlyGrows(st: State, n: State)
    requires OnlySessions(st, n)
    ensures Grows(st, n)
  {}

  lemma PumpOnly(st: State, t: nat, th: Thread, left: bool, event: Event, spawn: nat)
    requires th.Runner? && th.run.Pumping? && th.session in st.sessions
    ensures OnlySessions(st, PumpStep(st, t, th, left, event, spawn))
  {
    hide RequestStop, Sees;
    RequestOnly(st, th.session, spawn);
  }

  lemma RunStepGrows(st: State, t: nat, th: Thread, left: bool, event: Event, spawn: nat)
    requires th.Runner? && th.session in st.sessions
    ensures Grows(st, RunStep(st, t, th, left, event, spawn))
  {
    hide Grows, SessionCancelled, RequestStop, PumpStep;
    var n := RunStep(st, t, th, left, event, spawn);
    match th.run
    case Admitting => OnlyGrows(st, n);
    case Starting => OnlyGrows(st, n);
    case NoCarrier => RequestOnly(st, th.session, spawn); OnlyGrows(st, n);
    case Pumping(_, _, _) => PumpOnly(st, t, th, left, event, spawn); OnlyGrows(st, n);
    case Finishing => OnlyGrows(st, n);
  }

  lemma ThreadGrows(st: State, t: nat, th: Thread, pick: nat, left: bool, event: Event, spawn: nat)
    ensures Grows(st, ThreadStep(st, t, th, pick, left, event, spawn))
  {
    hide StopStep, PipeStep, NodeStep, RunStep, Place;
    match th
    case Stopper(s, pc) =>
      if s in st.sessions {
        hide Grows;
        StopGrows(st, t, s, pc);
        var (n, rest) := StopperStep(st, t, s, pc);
        PlaceGrows(st, n, t, rest);
      }
    case Runner(s, _, _) => if s in st.sessions { RunStepGrows(st, t, th, left, event, spawn); }
    case Outbound(s) =>
    case PipeCloser(p, pc) =>
      if p in st.pipes {
        hide Grows;
        PipeGrows(st, t, p, pc, pick);
        var (n, rest) := PipeCloserStep(st, t, p, pc, pick);
        PlaceGrows(st, n, t, rest);
      }
    case NodeCloser(pc) =>
      hide Grows;
      NodeGrows(st, t, pc, pick);
      var (n, rest) := NodeCloserStep(st, t, pc, pick);
      PlaceGrows(st, n, t, rest);
  }

  lemma NextGrows(st: State, a: Action)
    ensures Grows(st, Next(st, a))
  {
    hide ThreadStep, SessionCancelled, PipeCancelled, Startable;
    if a.Step? && a.t in st.threads && a.spawn !in st.threads {
      hide Grows;
      ThreadGrows(st, a.t, st.threads[a.t], a.pick, a.left, a.event, a.spawn);
    }
  }

  lemma {:induction false} RunGrows(actions: seq<Action>, tr: seq<State>, i: nat, j: nat)
    requires IsRun(actions, tr) && i <= j < |tr|
    ensures forall p | p in tr[i].pipes ::
              && p in tr[j].pipes && (tr[i].pipes[p].done ==> tr[j].pipes[p].done)
              && (tr[i].pipes[p].closed ==> tr[j].pipes[p].closed)
    ensures tr[i].node.closed ==> tr[j].node.closed && tr[j].pipes.Keys == tr[i].pipes.Keys
    ensures tr[i].node.done ==> tr[j].node.done
    ensures tr[i].sessions.Keys <= tr[j].sessions.Keys
    ensures forall p, s | p in tr[i].pipes && tr[i].pipes[p].closed
                          && s in tr[j].sessions && tr[j].sessions[s].pipe == p ::
              s in tr[i].sessions
    decreases j
  {
    hide Next;
    if i < j {
      RunGrows(actions, tr, i, j - 1);
      NextGrows(tr[j - 1], actions[j - 1]);
    }
  }

  // ---- Close

  /** Stopping, no admitted work, and no thread inside any. */
  ghost predicate Quiescent(st: State, s: nat) {
    s in st.sessions && st.sessions[s].stopping && st.sessions[s].workCount == 0 && Holders(st, s) == {}
  }

  lemma StoppedIsQuiescent(st: State, p: nat)
    requires Inv(st) && AllStopped(st, p)
    ensures forall s | s in st.sessions && st.sessions[s].pipe == p :: Quiescent(st, s)
  {
    hide TreeInv, ThreadInv, Holders, Registered, Closes;
    forall s | s in st.sessions && st.sessions[s].pipe == p
      ensures Quiescent(st, s)
    {
      assert SessionInv(st, s);
    }
  }

  lemma InvTree(st: State)
    requires Inv(st)
    ensures TreeInv(st)
  {
    hide TreeInv, SessionInv, ThreadInv;
  }

  lemma DoneIsStopped(st: State, p: nat)
    requires TreeInv(st) && p in st.pipes && (st.pipes[p].done || st.node.done)
    ensures AllStopped(st, p)
  {
    hide AllStopped;
  }

  /** A call of PipeRuntime.Close has returned: its thread is gone. Then `done` is closed. */
  lemma PipeCloseReturns(st: State, a: Action, t: nat, p: nat)
    requires t in st.threads && st.threads[t].PipeCloser? && st.threads[t].pipe == p && p in st.pipes
    requires t !in Next(st, a).threads
    ensures p in Next(st, a).pipes && Next(st, a).pipes[p].done
  {
    hide StopStep, StopSession, NodeStep, RunStep, FinishWork, Startable, SessionCancelled, PipeCancelled;
    OnlyOwnStepEnds(st, a, t);
    NextGrows(st, a);
    PipeReturn(st, t, p, st.threads[t].pipePc, a.pick);
  }

  lemma PipeReturn(st: State, t: nat, p: nat, pc: PipePc, pick: nat)
    requires p in st.pipes
    ensures var (n, rest) := PipeStep(st, t, p, pc, pick); rest.None? ==> p in n.pipes && n.pipes[p].done
  {
    hide StopStep;
  }

  /** Only its own step ends a thread. */
  lemma OnlyOwnStepEnds(st: State, a: Action, t: nat)
    requires t in st.threads && t !in Next(st, a).threads
    ensures a.Step? && a.t == t && a.spawn !in st.threads
  {
    hide ThreadStep, Startable, SessionCancelled, PipeCancelled;
    if a.Step? && a.t in st.threads && a.spawn !in st.threads {
      OthersStay(st, a.t, st.threads[a.t], a.pick, a.left, a.event, a.spawn);
    }
  }

  /** A step of thread t leaves every other thread as it is, and starts at most a closer. */
  ghost predicate OthersKept(st: State, n: State, t: nat) {
    && (forall u | u in st.threads && u != t :: u in n.threads && n.threads[u] == st.threads[u])
    && (forall u | u in n.threads && u != t && u !in st.threads :: n.threads[u].Stopper?)
  }

  lemma OthersStay(st: State, t: nat, th: Thread, pick: nat, left: bool, event: Event, spawn: nat)
    requires spawn !in st.threads
    ensures OthersKept(st, ThreadStep(st, t, th, pick, left, event, spawn), t)
  {
    hide StopStep, PipeStep, NodeStep, RunStep, FinishWork;
    match th
    case Stopper(s, pc) => if s in st.sessions { StopThreads(st, t, s, pc); }
    case Runner(s, _, _) => if s in st.sessions { RunThreads(st, t, th, left, event, spawn); }
    case Outbound(_) =>
    case PipeCloser(p, pc) => if p in st.pipes { PipeThreads(st, t, p, pc, pick); }
    case NodeCloser(pc) => NodeThreads(st, t, pc, pick);
  }

  lemma StopThreads(st: State, t: nat, s: nat, pc: StopPc)
    requires s in st.sessions
    ensures StopStep(st, t, s, pc).0.threads == st.threads
  {
    hide StopSession;
  }

  lemma PipeThreads(st: State, t: nat, p: nat, pc: PipePc, pick: nat)
    requires p in st.pipes
    ensures PipeStep(st, t, p, pc, pick).0.threads == st.threads
  {
    hide StopStep;
    if pc.StoppingAll? && pc.current.Some? && pc.current.value.0 in st.sessions {
      StopThreads(st, t, pc.current.value.0, pc.current.value.1);
    }
  }

  lemma NodeThreads(st: State, t: nat, pc: NodePc, pick: nat)
    ensures NodeStep(st, t, pc, pick).0.threads == st.threads
  {
    hide PipeStep;
    if pc.ClosingAll? && pc.current.Some? && pc.current.value.0 in st.pipes {
      PipeThreads(st, t, pc.current.value.0, pc.current.value.1, pick);
    }
  }

  lemma RequestThreads(st: State, s: nat, spawn: nat, t: nat)
    requires s in st.sessions && spawn !in st.threads
    ensures OthersKept(st, RequestStop(st, s, spawn), t)
  {
    hide BeginStop;
  }

  lemma PumpThreads(st: State, t: nat, th: Thread, left: bool, event: Event, spawn: nat)
    requires th.Runner? && th.run.Pumping? && th.session in st.sessions && spawn !in st.threads
    ensures OthersKept(st, PumpStep(st, t, th, left, event, spawn), t)
  {
    hide RequestStop, Sees;
    RequestThreads(st, th.session, spawn, t);
  }

  lemma RunThreads(st: State, t: nat, th: Thread, left: bool, event: Event, spawn: nat)
    requires th.Runner? && th.session in st.sessions && spawn !in st.threads
    ensures OthersKept(st, RunStep(st, t, th, left, event, spawn), t)
  {
    hide FinishWork, RequestStop, PumpStep, SessionCancelled;
    RequestThreads(st, th.session, spawn, t);
    if th.run.Pumping? {
      PumpThreads(st, t, th, left, event, spawn);
    }
  }

  lemma NodeCloseReturns(st: State, a: Action, t: nat)
    requires t in st.threads && st.threads[t].NodeCloser? && t !in Next(st, a).threads
    ensures Next(st, a).node.done
  {
    hide StopStep, PipeStep, RunStep, FinishWork, Startable, SessionCancelled, PipeCancelled;
    OnlyOwnStepEnds(st, a, t);
  }

  /**
   When PipeRuntime.Close has returned, every session ever created under the Pipe is stopping with
   zero admitted work, and in every later state there is no other session and no work under it.
   */
  lemma PipeCloseIsFinal(actions: seq<Action>, tr: seq<State>, i: nat, j: nat, p: nat)
    requires IsRun(actions, tr) && i <= j < |tr|
    requires p in tr[i].pipes && tr[i].pipes[p].done
    ensures forall s | s in tr[j].sessions && tr[j].sessions[s].pipe == p :: s in tr[i].sessions && Quiescent(tr[j], s)
  {
    hide Inv, TreeInv, Next, Quiescent;
    RunInv(actions, tr, i);
    InvTree(tr[i]);
    DoneIsStopped(tr[i], p);
    RunGrows(actions, tr, i, j);
    RunInv(actions, tr, j);
    InvTree(tr[j]);
    DoneIsStopped(tr[j], p);
    StoppedIsQuiescent(tr[j], p);
  }

  /** The same for NodeRuntime.Close and every Pipe; no later state has another Pipe. */
  lemma NodeCloseIsFinal(actions: seq<Action>, tr: seq<State>, i: nat, j: nat)
    requires IsRun(actions, tr) && i <= j < |tr| && tr[i].node.done
    ensures tr[j].pipes.Keys == tr[i].pipes.Keys && tr[j].sessions.Keys == tr[i].sessions.Keys
    ensures forall s | s in tr[j].sessions :: Quiescent(tr[j], s)
  {
    hide Inv, TreeInv, Next, Quiescent, AllStopped;
    RunInv(actions, tr, i);
    InvTree(tr[i]);
    NodeDoneClosed(tr[i]);
    RunGrows(actions, tr, i, j);
    RunInv(actions, tr, j);
    InvTree(tr[j]);
    forall s | s in tr[j].sessions
      ensures s in tr[i].sessions && Quiescent(tr[j], s)
    {
      var p := tr[j].sessions[s].pipe;
      InvPipe(tr[j], s);
      DoneIsStopped(tr[i], p);
      assert tr[i].pipes[p].closed by { StoppedIsClosed(tr[i], p); }
      DoneIsStopped(tr[j], p);
      StoppedIsQuiescent(tr[j], p);
    }
  }

  lemma NodeDoneClosed(st: State)
    requires TreeInv(st) && st.node.done
    ensures st.node.closed
  {}

  lemma StoppedIsClosed(st: State, p: nat)
    requires AllStopped(st, p)
    ensures st.pipes[p].closed
  {}

  lemma InvPipe(st: State, s: nat)
    requires Inv(st) && s in st.sessions
    ensures st.sessions[s].pipe in st.pipes
  {
    hide TreeInv, ThreadInv, OwnInv, Holders, Registered, Closes;
    assert SessionInv(st, s);
  }

  // ---- Stop

  /** How many terminal actions the session issued on a carrier. */
  function TerminalCount(ended: seq<Terminal>, c: Carrier): nat {
    if ended == [] then 0 else Bit(ended[0].carrier == c) + TerminalCount(ended[1..], c)
  }

  /**
   In every reachable state: one caller became closer if and only if the session is stopping; workDone
   was closed once if and only if it is stopping without work, and so never twice; stopDone likewise.
   Never more than one terminal action, never before stopping, and Close only after a pump in which
   both directions were clean.
   */
  lemma OneCloser(actions: seq<Action>, tr: seq<State>, i: nat, s: nat)
    requires IsRun(actions, tr) && i < |tr| && s in tr[i].sessions
    ensures var sess := tr[i].sessions[s];
      && sess.closers == Bit(sess.stopping)
      && sess.workDoneCloses == Bit(sess.stopping && sess.workCount == 0)
      && sess.stopDoneCloses == Bit(sess.stopDone)
      && sess.workCount == |Holders(tr[i], s)|
      && |sess.ended| <= Bit(sess.stopping)
      && (forall e | e in sess.ended && e.graceful :: (true, true) in sess.results)
  {
    hide Inv, Next, Holders;
    RunInv(actions, tr, i);
    InvOwn(tr[i], s);
    InvCount(tr[i], s);
  }

  lemma InvCount(st: State, s: nat)
    requires Inv(st) && s in st.sessions
    ensures st.sessions[s].workCount == |Holders(st, s)|
  {
    hide TreeInv, ThreadInv, OwnInv, Holders, Registered, Closes;
    assert SessionInv(st, s);
  }

  /**
   Once stopDone is closed, an installed carrier has been closed or reset exactly once if and only if
   it is the last one SetActiveCarrier installed; a carrier that was replaced got nothing.
   */
  lemma CarrierEndedIffLast(actions: seq<Action>, tr: seq<State>, i: nat, s: nat, c: Carrier)
    requires IsRun(actions, tr) && i < |tr| && s in tr[i].sessions && tr[i].sessions[s].stopDone
    ensures TerminalCount(tr[i].sessions[s].ended, c) == Bit(LastInstall(tr[i].sessions[s]) == Some(c))
  {
    hide Inv, Next;
    RunInv(actions, tr, i);
    InvOwn(tr[i], s);
    var ended := tr[i].sessions[s].ended;
    if ended != [] {
      assert ended == [ended[0]] && ended[0] in ended;
    }
  }

  /** finishWork is called only by threads inside admitted work, so its underflow panic is unreachable. */
  lemma WorkNeverUnderflows(actions: seq<Action>, tr: seq<State>, i: nat, t: nat, s: nat)
    requires IsRun(actions, tr) && i < |tr| && t in tr[i].threads && Holds(tr[i].threads[t], s)
    ensures s in tr[i].sessions && tr[i].sessions[s].workCount >= 1
  {
    hide Inv, Next;
    RunInv(actions, tr, i);
    InvThread(tr[i], t);
    InvCount(tr[i], s);
    assert t in Holders(tr[i], s);
  }

  lemma InvCloser(st: State, s: nat)
    requires Inv(st) && s in st.sessions && st.sessions[s].stopping && !st.sessions[s].stopDone
    ensures var c := st.sessions[s].closer;
      && c in st.threads && Closes(st.threads[c], s)
      && StopPcInv(st.sessions[s], c, StopOf(st.threads[c]).value.1)
  {
    hide TreeInv, OwnInv, Holders, Registered, StopPcInv, AllStopped;
    assert SessionInv(st, s);
    assert ThreadInv(st, st.sessions[s].closer, st.threads[st.sessions[s].closer]);
  }

  lemma InHolders(st: State, s: nat, t: nat)
    requires t in Holders(st, s)
    ensures t in st.threads
  {}
}
