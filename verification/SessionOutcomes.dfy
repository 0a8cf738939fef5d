/**
 What a run does to each session, step by step: which section each step is, what the terminal action of a
 carrier reports, what a cancelled context still admits, and when calls return
 (internal/runtime/session.go:109-399, internal/runtime/ownership.go:24-121).
 */
module SessionOutcomes {
  import opened Wrappers
  import opened Sessions

  // ---- every step runs at most one section of a session

  /** Whether the session's context is live, and the result of the pump that the step ends, if it ends one. */
  datatype Setting = Setting(live: bool, pumped: Option<(bool, bool)>)

  /** From a to b in one section. */
  ghost predicate OneSection(a: Session, b: Session, at: Setting) {
    || b == a
    || (at.live && !a.stopping && (b == Admit(a) || exists c :: b == Install(a, c)))
    || b == FinishWork(a)
    || (!a.stopping && exists u :: b == BeginStop(a, u))
    || b == a.(cancelled := true)
    || (a.stopping && b == EndCarrier(a))
    || b == a.(targetClosed := true)
    || (a.workClosed && b == a.(stopDone := true, stopDoneCloses := a.stopDoneCloses + 1))
    || (&& at.pumped.Some?
        && b == a.(clean := at.pumped.value.0 && at.pumped.value.1, results := a.results + [at.pumped.value]))
  }

  lemma StopSection(sess: Session, t: nat, pc: StopPc, at: Setting)
    requires StopPcInv(sess, t, pc)
    ensures OneSection(sess, StopSession(sess, t, pc).0, at)
  {
    hide Admit, Install, FinishWork, BeginStop, EndCarrier;
  }

  lemma StopStepSection(st: State, t: nat, s: nat, pc: StopPc, x: nat, at: Setting)
    requires StopInv(st, t, s, pc) && x in st.sessions
    ensures var n := StopStep(st, t, s, pc).0; x in n.sessions && OneSection(st.sessions[x], n.sessions[x], at)
  {
    hide OneSection, StopSession, StopPcInv;
    StopSection(st.sessions[s], t, pc, at);
    Same(st.sessions[x], at);
  }

  lemma Same(sess: Session, at: Setting)
    ensures OneSection(sess, sess, at)
  {}

  lemma PipeStepSection(st: State, t: nat, p: nat, pc: PipePc, pick: nat, x: nat, at: Setting)
    requires PipePcInv(st, t, p, pc) && x in st.sessions
    ensures var n := PipeStep(st, t, p, pc, pick).0; x in n.sessions && OneSection(st.sessions[x], n.sessions[x], at)
  {
    hide OneSection, StopStep, StopInv, AllStopped;
    Same(st.sessions[x], at);
    if pc.StoppingAll? && pc.current.Some? && pc.current.value.0 in st.sessions {
      StopStepSection(st, t, pc.current.value.0, pc.current.value.1, x, at);
    }
  }

  lemma NodeStepSection(st: State, t: nat, pc: NodePc, pick: nat, x: nat, at: Setting)
    requires NodePcInv(st, t, pc) && x in st.sessions
    ensures var n := NodeStep(st, t, pc, pick).0; x in n.sessions && OneSection(st.sessions[x], n.sessions[x], at)
  {
    hide OneSection, PipeStep, AllStopped, PipePcInv;
    Same(st.sessions[x], at);
    if pc.ClosingAll? && pc.current.Some? && pc.current.value.0 in st.pipes {
      PipeStepSection(st, t, pc.current.value.0, pc.current.value.1, pick, x, at);
    }
  }

  lemma RequestSection(st: State, s: nat, spawn: nat, x: nat, at: Setting)
    requires s in st.sessions && x in st.sessions
    ensures var n := RequestStop(st, s, spawn); x in n.sessions && OneSection(st.sessions[x], n.sessions[x], at)
  {
    hide Admit, Install, FinishWork, BeginStop, EndCarrier;
  }

  /** The result a thread in a pump has ready for session x. */
  function Pumped(th: Thread, x: nat): Option<(bool, bool)> {
    if th.Runner? && th.session == x && th.run.Pumping? && th.run.a.Ended? && th.run.b.Ended?
    then Some((th.run.a.clean, th.run.b.clean)) else None
  }

  lemma PumpSection(
    st: State, t: nat, th: Thread, left: bool, event: Event, spawn: nat, x: nat, at: Setting)
    requires th.Runner? && th.run.Pumping? && th.session in st.sessions && x in st.sessions
    requires at.pumped == Pumped(th, x)
    ensures var n := PumpStep(st, t, th, left, event, spawn);
      x in n.sessions && OneSection(st.sessions[x], n.sessions[x], at)
  {
    hide RequestStop, Sees, Admit, Install, FinishWork, BeginStop, EndCarrier;
    RequestSection(st, th.session, spawn, x, at);
  }

  lemma RunStepSection(st: State, t: nat, th: Thread, left: bool, event: Event, spawn: nat, x: nat)
    requires th.Runner? && th.session in st.sessions && x in st.sessions
    ensures var n := RunStep(st, t, th, left, event, spawn);
      x in n.sessions && OneSection(st.sessions[x], n.sessions[x], Setting(!SessionCancelled(st, x), Pumped(th, x)))
  {
    hide RequestStop, PumpStep, SessionCancelled, Admit, Install, FinishWork, BeginStop, EndCarrier;
    RequestSection(st, th.session, spawn, x, Setting(!SessionCancelled(st, x), Pumped(th, x)));
    if th.run.Pumping? {
      PumpSection(st, t, th, left, event, spawn, x, Setting(!SessionCancelled(st, x), Pumped(th, x)));
    }
  }

  lemma ThreadSection(st: State, t: nat, th: Thread, pick: nat, left: bool, event: Event, spawn: nat, x: nat)
    requires ThreadInv(st, t, th) && x in st.sessions
    ensures var n := ThreadStep(st, t, th, pick, left, event, spawn);
      x in n.sessions && OneSection(st.sessions[x], n.sessions[x], Setting(!SessionCancelled(st, x), Pumped(th, x)))
  {
    hide OneSection, StopStep, PipeStep, NodeStep, RunStep, FinishWork, StopInv, PipePcInv, NodePcInv, SessionCancelled;
    var at := Setting(!SessionCancelled(st, x), Pumped(th, x));
    Same(st.sessions[x], at);
    match th
    case Stopper(s, pc) => if s in st.sessions { StopStepSection(st, t, s, pc, x, at); }
    case Runner(s, _, _) => if s in st.sessions { RunStepSection(st, t, th, left, event, spawn, x); }
    case Outbound(s) => FinishSection(st.sessions[x], at);
    case PipeCloser(p, pc) => if p in st.pipes { PipeStepSection(st, t, p, pc, pick, x, at); }
    case NodeCloser(pc) => NodeStepSection(st, t, pc, pick, x, at);
  }

  lemma FinishSection(sess: Session, at: Setting)
    ensures OneSection(sess, FinishWork(sess), at)
  {}

  /** The setting of session x in which the next action runs. */
  function SettingOf(st: State, a: Action, x: nat): Setting
    requires x in st.sessions
  {
    Setting(!SessionCancelled(st, x), if a.Step? && a.t in st.threads then Pumped(st.threads[a.t], x) else None)
  }

  /** Whatever happens next, each session stays as it is or moves by exactly one of its sections. */
  lemma NextSection(st: State, a: Action, x: nat)
    requires Inv(st) && x in st.sessions
    ensures x in Next(st, a).sessions
    ensures OneSection(st.sessions[x], Next(st, a).sessions[x], SettingOf(st, a, x))
  {
    hide Inv, ThreadInv, ThreadStep, Startable, SessionCancelled, PipeCancelled, Pumped, FinishWork, BeginStop,
      EndCarrier;
    if a.Step? && a.t in st.threads && a.spawn !in st.threads {
      hide OneSection;
      InvThread(st, a.t);
      ThreadSection(st, a.t, st.threads[a.t], a.pick, a.left, a.event, a.spawn, x);
    }
  }

  // ---- what follows, for every run

  /** The last pump that ended had both of its directions clean. */
  predicate LastPumpClean(sess: Session) {
    sess.results != [] && sess.results[|sess.results| - 1] == (true, true)
  }

  /** The counts and logs that finishWork, beginStop and the terminal action leave alone. */
  lemma SectionFields(a: Session)
    ensures var b := FinishWork(a);
      b.ended == a.ended && b.installs == a.installs && b.results == a.results && b.workCount == a.workCount - 1
    ensures var b := EndCarrier(a);
      b.installs == a.installs && b.results == a.results && b.workCount == a.workCount
    ensures forall u | !a.stopping ::
      var b := BeginStop(a, u);
      b.ended == a.ended && b.installs == a.installs && b.results == a.results && b.workCount == a.workCount
  {}

  lemma SectionEnds(a: Session, b: Session, at: Setting)
    requires OwnInv(a) && OneSection(a, b, at)
    ensures b.ended == a.ended
      || (&& a.stopping && a.captured.Some? && a.captured == LastInstall(a)
          && b.ended == a.ended + [Terminal(a.captured.value, LastPumpClean(a))])
  {
    hide FinishWork, BeginStop;
    SectionFields(a);
  }

  /**
   Every terminal action of every run: it is issued on the carrier installed last, once the session is
   stopping, and it is a Close exactly when the last pump that ended was clean in both directions, a Reset
   otherwise.
   */
  lemma TerminalReportsLastPump(actions: seq<Action>, tr: seq<State>, n: nat, s: nat)
    requires IsRun(actions, tr) && n < |actions| && s in tr[n].sessions
    ensures s in tr[n + 1].sessions
    ensures var a, b := tr[n].sessions[s], tr[n + 1].sessions[s];
      b.ended == a.ended
      || (&& a.stopping && a.captured.Some? && a.captured == LastInstall(a)
          && b.ended == a.ended + [Terminal(a.captured.value, LastPumpClean(a))])
  {
    hide Inv, Next, OneSection, OwnInv, SessionCancelled;
    RunInv(actions, tr, n);
    InvOwn(tr[n], s);
    NextSection(tr[n], actions[n], s);
    SectionEnds(tr[n].sessions[s], tr[n + 1].sessions[s], SettingOf(tr[n], actions[n], s));
  }

  lemma SectionAdmits(a: Session, b: Session, at: Setting)
    requires OneSection(a, b, at) && (a.stopping || !at.live)
    ensures b.workCount <= a.workCount && b.installs == a.installs
  {
    hide FinishWork, BeginStop, EndCarrier;
    SectionFields(a);
  }

  /**
   Once the session is stopping, or its context, its Pipe's or the Node's is cancelled, no step of any run
   admits work to it or installs a carrier.
   */
  lemma CancelledAdmitsNothing(actions: seq<Action>, tr: seq<State>, n: nat, s: nat)
    requires IsRun(actions, tr) && n < |actions| && s in tr[n].sessions
    requires var sess := tr[n].sessions[s];
      || sess.stopping || sess.cancelled || tr[n].node.cancelled
      || (sess.pipe in tr[n].pipes && tr[n].pipes[sess.pipe].cancelled)
    ensures s in tr[n + 1].sessions
    ensures tr[n + 1].sessions[s].workCount <= tr[n].sessions[s].workCount
    ensures tr[n + 1].sessions[s].installs == tr[n].sessions[s].installs
  {
    hide Inv, Next, OneSection;
    RunInv(actions, tr, n);
    InvPipe(tr[n], s);
    NextSection(tr[n], actions[n], s);
    SectionAdmits(tr[n].sessions[s], tr[n + 1].sessions[s], SettingOf(tr[n], actions[n], s));
  }

  // ---- what a pump reports

  predicate Pumps(st: State, t: nat, s: nat) {
    t in st.threads && st.threads[t].Runner? && st.threads[t].session == s && st.threads[t].run.Pumping?
  }

  function DirectionOf(st: State, t: nat, left: bool): Option<Direction> {
    if t in st.threads && st.threads[t].Runner? && st.threads[t].run.Pumping?
    then Some(if left then st.threads[t].run.a else st.threads[t].run.b) else None
  }

  /** Action i gave this direction of thread t this event while it was at d. */
  predicate Gave(actions: seq<Action>, tr: seq<State>, i: nat, t: nat, left: bool, d: Direction, e: Event)
    requires i < |actions| < |tr|
  {
    && actions[i].Step? && actions[i].t == t && actions[i].left == left && actions[i].event == e
    && DirectionOf(tr[i], t, left) == Some(d)
  }

  /** One of the first n actions was a Read that reported the end of the stream. */
  ghost predicate ReadEof(actions: seq<Action>, tr: seq<State>, n: nat, t: nat, left: bool)
    requires n <= |actions| < |tr|
  {
    exists i, e | 0 <= i < n :: Gave(actions, tr, i, t, left, Reading, e) && e.err == Eof
  }

  /** One of the first n actions was a Read or a Write that failed. */
  ghost predicate SawError(actions: seq<Action>, tr: seq<State>, n: nat, t: nat, left: bool)
    requires n <= |actions| < |tr|
  {
    exists i, d, e | 0 <= i < n ::
      && Gave(actions, tr, i, t, left, d, e)
      && ((d.Reading? && e.err == Error) || (d.Writing? && !e.moved && e.err != Nil))
  }

  /** What brought this direction to where it is. */
  ghost predicate Explained(actions: seq<Action>, tr: seq<State>, n: nat, t: nat, left: bool, d: Direction)
    requires n <= |actions| < |tr|
  {
    match d
    case Reading => true
    case Writing(after) =>
      (after == Eof ==> ReadEof(actions, tr, n, t, left)) && (after == Error ==> SawError(actions, tr, n, t, left))
    case Failing => SawError(actions, tr, n, t, left)
    case Ended(clean) => if clean then ReadEof(actions, tr, n, t, left) else SawError(actions, tr, n, t, left)
  }

  lemma ExplainedLater(actions: seq<Action>, tr: seq<State>, n: nat, t: nat, left: bool, d: Direction)
    requires n < |actions| < |tr| && Explained(actions, tr, n, t, left, d)
    ensures Explained(actions, tr, n + 1, t, left, d)
  {}

  lemma ExplainedStep(actions: seq<Action>, tr: seq<State>, n: nat, t: nat, left: bool, d: Direction, e: Event)
    requires n < |actions| < |tr| && Explained(actions, tr, n, t, left, d) && Gave(actions, tr, n, t, left, d, e)
    ensures Explained(actions, tr, n + 1, t, left, Sees(d, e))
  {
    hide Gave;
    ExplainedLater(actions, tr, n, t, left, d);
  }

  /** A direction stays, moves by its event, or starts to read. */
  ghost predicate DirectionMove(st: State, n: State, a: Action, t: nat, left: bool) {
    var was, now := DirectionOf(st, t, left), DirectionOf(n, t, left);
    now.Some? ==>
      || now == was || now == Some(Reading)
      || (&& a.Step? && a.t == t && a.left == left && was.Some? && now.value == Sees(was.value, a.event))
  }

  lemma RunDirection(st: State, a: Action, t: nat, left: bool)
    requires a.Step? && a.t == t && t in st.threads && a.spawn !in st.threads && st.threads[t].Runner?
    requires st.threads[t].session in st.sessions
    ensures DirectionMove(st, RunStep(st, t, st.threads[t], a.left, a.event, a.spawn), a, t, left)
  {
    hide RequestStop, FinishWork, Sees, SessionCancelled;
  }

  lemma OwnDirection(st: State, a: Action, t: nat, left: bool)
    requires a.Step? && a.t == t && t in st.threads && a.spawn !in st.threads
    ensures DirectionMove(st, Next(st, a), a, t, left)
  {
    hide StopStep, PipeStep, NodeStep, RunStep, FinishWork, Sees;
    if st.threads[t].Runner? && st.threads[t].session in st.sessions {
      RunDirection(st, a, t, left);
    }
  }

  lemma NextDirection(st: State, a: Action, t: nat, left: bool)
    ensures DirectionMove(st, Next(st, a), a, t, left)
  {
    hide ThreadStep, SessionCancelled, PipeCancelled, Sees;
    if a.Step? && a.t in st.threads && a.spawn !in st.threads {
      if a.t == t {
        OwnDirection(st, a, t, left);
      } else {
        OthersStay(st, a.t, st.threads[a.t], a.pick, a.left, a.event, a.spawn);
      }
    }
  }

  lemma {:induction false} DirectionExplained(actions: seq<Action>, tr: seq<State>, n: nat, t: nat, left: bool)
    requires IsRun(actions, tr) && n <= |actions| && DirectionOf(tr[n], t, left).Some?
    ensures Explained(actions, tr, n, t, left, DirectionOf(tr[n], t, left).value)
    decreases n
  {
    hide Next, Explained, Sees, DirectionOf;
    NoDirection(t, left);
    var m := n - 1;
    var was, now := DirectionOf(tr[m], t, left), DirectionOf(tr[n], t, left);
    NextDirection(tr[m], actions[m], t, left);
    if now == Some(Reading) {
      FreshReader(actions, tr, n, t, left);
    } else {
      DirectionExplained(actions, tr, m, t, left);
      if now == was {
        ExplainedLater(actions, tr, m, t, left, now.value);
      } else {
        ExplainedStep(actions, tr, m, t, left, was.value, actions[m].event);
      }
    }
  }

  lemma NoDirection(t: nat, left: bool)
    ensures DirectionOf(INIT, t, left).None?
  {}

  lemma FreshReader(actions: seq<Action>, tr: seq<State>, n: nat, t: nat, left: bool)
    requires n <= |actions| < |tr|
    ensures Explained(actions, tr, n, t, left, Reading)
  {}

  /** The pump result (x, y), as thread t's directions explain it. */
  ghost predicate ResultExplained(actions: seq<Action>, tr: seq<State>, n: nat, t: nat, result: (bool, bool))
    requires n <= |actions| < |tr|
  {
    && (if result.0 then ReadEof(actions, tr, n, t, true) else SawError(actions, tr, n, t, true))
    && (if result.1 then ReadEof(actions, tr, n, t, false) else SawError(actions, tr, n, t, false))
  }

  lemma SectionResults(a: Session, b: Session, at: Setting)
    requires OneSection(a, b, at)
    ensures b.results == a.results || (at.pumped.Some? && b.results == a.results + [at.pumped.value])
  {
    hide FinishWork, BeginStop, EndCarrier;
    SectionFields(a);
  }

  /**
   Every pump result of every run: a direction is reported clean only if it read the end of its stream, and
   as failed only if one of its reads or writes failed.
   */
  lemma PumpResultExplained(actions: seq<Action>, tr: seq<State>, n: nat, s: nat)
    requires IsRun(actions, tr) && n < |actions| && s in tr[n].sessions
    ensures s in tr[n + 1].sessions
    ensures var a, b := tr[n].sessions[s].results, tr[n + 1].sessions[s].results;
      b == a || (&& actions[n].Step? && Pumps(tr[n], actions[n].t, s)
                 && |b| == |a| + 1 && b[..|a|] == a && ResultExplained(actions, tr, n, actions[n].t, b[|a|]))
  {
    hide Inv, Next, OneSection, SessionCancelled, ReadEof, SawError;
    RunInv(actions, tr, n);
    NextSection(tr[n], actions[n], s);
    var at := SettingOf(tr[n], actions[n], s);
    SectionResults(tr[n].sessions[s], tr[n + 1].sessions[s], at);
    if at.pumped.Some? {
      DirectionExplained(actions, tr, n, actions[n].t, true);
      DirectionExplained(actions, tr, n, actions[n].t, false);
    }
  }

  // ---- creation and return

  /** Only an open, uncancelled Node gets a Pipe, and only an open, uncancelled Pipe a session, under a new name. */
  lemma CreationNeedsOpenParent(st: State, a: Action)
    ensures forall p | p in Next(st, a).pipes && p !in st.pipes ::
      && a == NewPipeRuntime(p) && !st.node.closed && !st.node.cancelled
      && p in Next(st, a).node.pipes && Next(st, a).pipes[p] == Pipe(false, false, false, map[])
    ensures forall s | s in Next(st, a).sessions && s !in st.sessions ::
      && a.NewSessionOf? && a.session == s && a.id != "" && a.pipe in st.pipes
      && var p := st.pipes[a.pipe];
         && !p.closed && !p.cancelled && !st.node.cancelled && a.id !in p.registry
         && Next(st, a).pipes == st.pipes[a.pipe := p.(registry := p.registry[a.id := s])]
         && Next(st, a).sessions[s] == NewSession(a.pipe, a.id)
  {
    hide ThreadStep, SessionCancelled;
    if a.Step? && a.t in st.threads && a.spawn !in st.threads {
      StepCreatesNothing(st, a.t, st.threads[a.t], a.pick, a.left, a.event, a.spawn);
    }
  }

  ghost predicate SameKeys(st: State, n: State) {
    n.pipes.Keys == st.pipes.Keys && n.sessions.Keys == st.sessions.Keys
  }

  lemma StepCreatesNothing(st: State, t: nat, th: Thread, pick: nat, left: bool, event: Event, spawn: nat)
    ensures SameKeys(st, ThreadStep(st, t, th, pick, left, event, spawn))
  {
    hide StopStep, PipeStep, NodeStep, RunStep, FinishWork;
    match th
    case Stopper(s, pc) => if s in st.sessions { StopKeys(st, t, s, pc); }
    case Runner(s, _, _) => if s in st.sessions { RunKeys(st, t, th, left, event, spawn); }
    case Outbound(_) =>
    case PipeCloser(p, pc) => if p in st.pipes { PipeKeys(st, t, p, pc, pick); }
    case NodeCloser(pc) => NodeKeys(st, t, pc, pick);
  }

  lemma StopKeys(st: State, t: nat, s: nat, pc: StopPc)
    requires s in st.sessions
    ensures SameKeys(st, StopStep(st, t, s, pc).0)
  {
    hide StopSession;
  }

  lemma PipeKeys(st: State, t: nat, p: nat, pc: PipePc, pick: nat)
    requires p in st.pipes
    ensures SameKeys(st, PipeStep(st, t, p, pc, pick).0)
  {
    hide StopStep;
    if pc.StoppingAll? && pc.current.Some? && pc.current.value.0 in st.sessions {
      StopKeys(st, t, pc.current.value.0, pc.current.value.1);
    }
  }

  lemma NodeKeys(st: State, t: nat, pc: NodePc, pick: nat)
    ensures SameKeys(st, NodeStep(st, t, pc, pick).0)
  {
    hide PipeStep;
    if pc.ClosingAll? && pc.current.Some? && pc.current.value.0 in st.pipes {
      PipeKeys(st, t, pc.current.value.0, pc.current.value.1, pick);
    }
  }

  lemma RunKeys(st: State, t: nat, th: Thread, left: bool, event: Event, spawn: nat)
    requires th.Runner? && th.session in st.sessions
    ensures SameKeys(st, RunStep(st, t, th, left, event, spawn))
  {
    hide SessionCancelled, PumpStep, RequestStop, FinishWork;
    RequestOnly(st, th.session, spawn);
    if th.run.Pumping? {
      PumpOnly(st, t, th, left, event, spawn);
    }
  }

  /** A call of Stop returns only after stopDone is closed. */
  lemma StopReturnsDone(st: State, a: Action, t: nat)
    requires t in st.threads && st.threads[t].Stopper? && st.threads[t].session in st.sessions
    requires t !in Next(st, a).threads
    ensures var s := st.threads[t].session; s in Next(st, a).sessions && Next(st, a).sessions[s].stopDone
  {
    hide PipeStep, NodeStep, RunStep, FinishWork, Startable, SessionCancelled, PipeCancelled, StopSession;
    OnlyOwnStepEnds(st, a, t);
    StopReturn(st.sessions[st.threads[t].session], t, st.threads[t].pc);
  }

  lemma StopReturn(sess: Session, t: nat, pc: StopPc)
    ensures StopSession(sess, t, pc).1.None? ==> StopSession(sess, t, pc).0.stopDone && pc != Closing(4)
  {
    hide EndCarrier, BeginStop;
  }

  /** runServerSession, once admitted, never returns before it has gone through Stop. */
  lemma ServedSessionIsStopped(st: State, a: Action, t: nat)
    requires t in st.threads && st.threads[t].Runner? && st.threads[t].thenStop && !st.threads[t].run.Admitting?
    ensures var n := Next(st, a);
      && t in n.threads
      && (n.threads[t].Stopper? || (n.threads[t].Runner? && n.threads[t].thenStop && !n.threads[t].run.Admitting?))
      && n.threads[t].session == st.threads[t].session
  {
    hide StopStep, PipeStep, NodeStep, RunStep, FinishWork, Startable, SessionCancelled, PipeCancelled;
    if a.Step? && a.t in st.threads && a.spawn !in st.threads {
      if a.t == t {
        if st.threads[t].session in st.sessions {
          ServedStep(st, t, st.threads[t], a.left, a.event, a.spawn);
        }
      } else {
        OthersStay(st, a.t, st.threads[a.t], a.pick, a.left, a.event, a.spawn);
      }
    }
  }

  lemma ServedStep(st: State, t: nat, th: Thread, left: bool, event: Event, spawn: nat)
    requires th.Runner? && th.thenStop && !th.run.Admitting? && th.session in st.sessions
    ensures var n := RunStep(st, t, th, left, event, spawn);
      && t in n.threads
      && (n.threads[t].Stopper? || (n.threads[t].Runner? && n.threads[t].thenStop && !n.threads[t].run.Admitting?))
      && n.threads[t].session == th.session
  {
    hide RequestStop, FinishWork, Sees;
  }
}
