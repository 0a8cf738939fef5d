/**
 Progress of Stop. A direction of a pump waits in one call on one endpoint: carrierToTarget reads the
 carrier and writes the target, targetToCarrier reads the target and writes the carrier. A call returns
 without bytes, and with an error, once the session has closed the endpoint it is on.
 */
module SessionProgress {
  import opened Wrappers
  import opened Sessions

  /** The direction is inside a call on the carrier; `left` is carrierToTarget. */
  predicate OnCarrier(left: bool, d: Direction) {
    if left then d.Reading? else d.Writing?
  }

  predicate OnTarget(left: bool, d: Direction) {
    if left then d.Writing? else d.Reading?
  }

  predicate CarrierEnded(sess: Session, c: Carrier) {
    exists e | e in sess.ended :: e.carrier == c
  }

  /** The session has closed the endpoint that the direction's outstanding call is on. */
  predicate Returns(sess: Session, c: Carrier, left: bool, d: Direction) {
    (OnCarrier(left, d) && CarrierEnded(sess, c)) || (OnTarget(left, d) && sess.targetClosed)
  }

  predicate DirectionReady(sess: Session, c: Carrier, left: bool, d: Direction) {
    d.Failing? || Returns(sess, c, left, d)
  }

  predicate PumpReady(sess: Session, pump: RunPc, left: bool)
    requires pump.Pumping?
  {
    || (pump.a.Ended? && pump.b.Ended?)
    || DirectionReady(sess, pump.carrier, left, if left then pump.a else pump.b)
  }

  predicate StopReady(sess: Session, pc: StopPc) {
    match pc
    case Entering => true
    case Waiting => sess.stopDone
    case Closing(line) => line == 3 ==> sess.workClosed
  }

  /** The step of thread t for session s, in this direction of its pump, does not have to wait. */
  predicate Ready(st: State, t: nat, s: nat, left: bool)
    requires s in st.sessions && t in st.threads
  {
    var th := st.threads[t];
    if Closes(th, s) then StopReady(st.sessions[s], StopOf(th).value.1)
    else if th == Outbound(s) then SessionCancelled(st, s)
    else Holds(th, s) && (th.Runner? && th.run.Pumping? ==> PumpReady(st.sessions[s], th.run, left))
  }

  predicate Enabled(st: State, t: nat, s: nat)
    requires s in st.sessions && t in st.threads
  {
    Ready(st, t, s, true) || Ready(st, t, s, false)
  }

  /** The threads that the session's Stop depends on. */
  function Workers(st: State, s: nat): set<nat>
    requires s in st.sessions
  {
    {st.sessions[s].closer} + Holders(st, s)
  }

  /** A pump that is only waiting in calls on a carrier which SetActiveCarrier has since replaced. */
  predicate OnReplacedCarrier(sess: Session, th: Thread) {
    && th.Runner? && th.run.Pumping? && LastInstall(sess) != Some(th.run.carrier)
    && (th.run.a.Ended? || OnCarrier(true, th.run.a)) && (th.run.b.Ended? || OnCarrier(false, th.run.b))
    && !(th.run.a.Ended? && th.run.b.Ended?)
  }

  /** The closer waits for work, and every outstanding call of that work is on a replaced carrier. */
  ghost predicate Wedged(st: State, s: nat) {
    && s in st.sessions
    && var sess := st.sessions[s];
       && sess.closer in st.threads && StopOf(st.threads[sess.closer]) == Some((s, Closing(3)))
       && !sess.workClosed
       && forall t | t in Holders(st, s) :: OnReplacedCarrier(sess, st.threads[t])
  }

  lemma HolderEnabled(st: State, s: nat, t: nat)
    requires Inv(st) && s in st.sessions && t in Holders(st, s)
    requires OwnInv(st.sessions[s]) && StopPcInv(st.sessions[s], st.sessions[s].closer, Closing(3))
    ensures Enabled(st, t, s) <==> !OnReplacedCarrier(st.sessions[s], st.threads[t])
  {
    hide Inv;
    InvThread(st, t);
    var sess := st.sessions[s];
    if st.threads[t].Runner? && st.threads[t].run.Pumping? {
      assert sess.installs != [];
      assert sess.ended == [sess.ended[0]] && sess.ended[0] in sess.ended;
    }
  }

  lemma CloserEnabled(st: State, s: nat)
    requires s in st.sessions && st.sessions[s].closer in st.threads && Closes(st.threads[st.sessions[s].closer], s)
    ensures Enabled(st, st.sessions[s].closer, s)
       <==> !(StopOf(st.threads[st.sessions[s].closer]) == Some((s, Closing(3))) && !st.sessions[s].workClosed)
  {}

  ghost predicate SomeEnabled(st: State, s: nat)
    requires s in st.sessions
  {
    exists t | t in Workers(st, s) && t in st.threads :: Enabled(st, t, s)
  }

  lemma EnabledIff(st: State, s: nat)
    requires Inv(st) && s in st.sessions && st.sessions[s].stopping && !st.sessions[s].stopDone
    ensures SomeEnabled(st, s) <==> !Wedged(st, s)
  {
    hide Inv, Enabled, OnReplacedCarrier, OwnInv, StopPcInv, Holders;
    var sess := st.sessions[s];
    InvOwn(st, s);
    InvCloser(st, s);
    CloserEnabled(st, s);
    if StopOf(st.threads[sess.closer]) == Some((s, Closing(3))) && !sess.workClosed {
      forall t | t in Holders(st, s)
        ensures t in st.threads && (Enabled(st, t, s) <==> !OnReplacedCarrier(sess, st.threads[t]))
      {
        InHolders(st, s, t);
        HolderEnabled(st, s, t);
      }
    } else {
      assert sess.closer in Workers(st, s) && Enabled(st, sess.closer, s);
    }
  }

  /**
   From the moment a session is stopping until stopDone is closed, some thread that its Stop depends
   on has a step it need not wait for, except exactly when the session is wedged.
   */
  lemma StopProgressIff(actions: seq<Action>, tr: seq<State>, i: nat, s: nat)
    requires IsRun(actions, tr) && i < |tr| && s in tr[i].sessions
    requires tr[i].sessions[s].stopping && !tr[i].sessions[s].stopDone
    ensures SomeEnabled(tr[i], s) <==> !Wedged(tr[i], s)
  {
    hide Inv, Next;
    RunInv(actions, tr, i);
    EnabledIff(tr[i], s);
  }

  lemma OneInstall(st: State, s: nat)
    requires Inv(st) && s in st.sessions && |st.sessions[s].installs| <= 1
    ensures !Wedged(st, s)
  {
    hide Inv;
    InvOwn(st, s);
    InvCount(st, s);
    if Wedged(st, s) {
      InvThread(st, st.sessions[s].closer);
      assert |Holders(st, s)| != 0;
      var t :| t in Holders(st, s);
      InvThread(st, t);
      assert false;
    }
  }

  /** A session whose SetActiveCarrier was called at most once is never wedged. */
  lemma OneInstallNeverWedges(actions: seq<Action>, tr: seq<State>, i: nat, s: nat)
    requires IsRun(actions, tr) && i < |tr| && s in tr[i].sessions && |tr[i].sessions[s].installs| <= 1
    ensures !Wedged(tr[i], s)
  {
    hide Inv, Next, Wedged;
    RunInv(actions, tr, i);
    OneInstall(tr[i], s);
  }

  // ---- steps of other threads

  lemma StopElsewhere(st: State, t: nat, x: nat, pc: StopPc, s: nat)
    requires x in st.sessions && s in st.sessions && st.sessions[s].stopping && (x == s ==> !pc.Closing?)
    ensures var n := StopStep(st, t, x, pc).0; s in n.sessions && n.sessions[s] == st.sessions[s]
  {
    hide BeginStop;
  }

  lemma PipeElsewhere(st: State, t: nat, p: nat, pc: PipePc, pick: nat, s: nat)
    requires p in st.pipes && s in st.sessions && st.sessions[s].stopping && !Closes(PipeCloser(p, pc), s)
    ensures var n := PipeStep(st, t, p, pc, pick).0; s in n.sessions && n.sessions[s] == st.sessions[s]
  {
    hide StopStep;
    if pc.StoppingAll? && pc.current.Some? && pc.current.value.0 in st.sessions {
      StopElsewhere(st, t, pc.current.value.0, pc.current.value.1, s);
    }
  }

  lemma NodeElsewhere(st: State, t: nat, pc: NodePc, pick: nat, s: nat)
    requires s in st.sessions && st.sessions[s].stopping && !Closes(NodeCloser(pc), s)
    ensures var n := NodeStep(st, t, pc, pick).0; s in n.sessions && n.sessions[s] == st.sessions[s]
  {
    hide PipeStep;
    if pc.ClosingAll? && pc.current.Some? && pc.current.value.0 in st.pipes {
      PipeElsewhere(st, t, pc.current.value.0, pc.current.value.1, pick, s);
    }
  }

  lemma RunElsewhere(st: State, t: nat, th: Thread, left: bool, event: Event, spawn: nat, s: nat)
    requires th.Runner? && th.session in st.sessions && s in st.sessions && st.sessions[s].stopping && !Holds(th, s)
    requires t in st.threads && st.threads[t] == th
    ensures var n := RunStep(st, t, th, left, event, spawn);
      && s in n.sessions && n.sessions[s] == st.sessions[s]
      && (t in n.threads && spawn != t ==> !Holds(n.threads[t], s))
  {
    hide FinishWork, BeginStop, Sees, SessionCancelled;
  }

  /** The thread is inside work of session s or is its closer. */
  predicate WorksFor(th: Thread, s: nat) {
    Holds(th, s) || Closes(th, s)
  }

  /** The session, its closer and the threads inside its work are as they were, and no thread joined them. */
  ghost predicate Untouched(st: State, n: State, s: nat)
    requires s in st.sessions
  {
    && s in n.sessions && n.sessions[s] == st.sessions[s]
    && (forall u | u in st.threads && WorksFor(st.threads[u], s) :: u in n.threads && n.threads[u] == st.threads[u])
    && (forall u | u in n.threads && Holds(n.threads[u], s) :: u in st.threads && n.threads[u] == st.threads[u])
  }

  lemma OtherStep(st: State, t: nat, pick: nat, left: bool, event: Event, spawn: nat, s: nat)
    requires s in st.sessions && st.sessions[s].stopping && t in st.threads && spawn !in st.threads
    requires !WorksFor(st.threads[t], s)
    ensures var n := ThreadStep(st, t, st.threads[t], pick, left, event, spawn);
      && s in n.sessions && n.sessions[s] == st.sessions[s]
      && (t in n.threads ==> !Holds(n.threads[t], s))
  {
    hide StopStep, PipeStep, NodeStep, RunStep, FinishWork;
    match st.threads[t]
    case Stopper(x, pc) =>
      if x in st.sessions {
        StopElsewhere(st, t, x, pc, s);
        StopThreads(st, t, x, pc);
      }
    case Runner(x, _, _) => if x in st.sessions { RunElsewhere(st, t, st.threads[t], left, event, spawn, s); }
    case Outbound(_) =>
    case PipeCloser(p, pc) =>
      if p in st.pipes {
        PipeElsewhere(st, t, p, pc, pick, s);
        PipeThreads(st, t, p, pc, pick);
      }
    case NodeCloser(pc) =>
      NodeElsewhere(st, t, pc, pick, s);
      NodeThreads(st, t, pc, pick);
  }

  /** Nothing that happens elsewhere reaches a stopping session. */
  lemma Bystander(st: State, a: Action, s: nat)
    requires s in st.sessions && st.sessions[s].stopping
    requires a.Step? && a.t in st.threads && a.spawn !in st.threads ==> !WorksFor(st.threads[a.t], s)
    ensures Untouched(st, Next(st, a), s)
  {
    hide ThreadStep, Startable, SessionCancelled, PipeCancelled, StopOf;
    if a.Step? && a.t in st.threads && a.spawn !in st.threads {
      OtherStep(st, a.t, a.pick, a.left, a.event, a.spawn, s);
      OthersStay(st, a.t, st.threads[a.t], a.pick, a.left, a.event, a.spawn);
    } else if a.Begin? && Startable(st, a.thread) {
      Idles(st, a.thread, s);
    }
  }

  lemma Idles(st: State, th: Thread, s: nat)
    requires Startable(st, th)
    ensures !Holds(th, s)
  {}

  // ---- a measure of the work left

  function DirectionRank(d: Direction): nat {
    match d
    case Reading => 2
    case Writing(_) => 2
    case Failing => 1
    case Ended(_) => 0
  }

  /** How many steps that need not wait a thread inside work has before its finishWork. */
  function Rank(th: Thread): nat {
    if !th.Runner? then 0
    else
      match th.run
      case Admitting => 0
      case Starting => 6
      case NoCarrier => 1
      case Pumping(_, a, b) => 1 + DirectionRank(a) + DirectionRank(b)
      case Finishing => 0
  }

  ghost function Total(w: map<nat, nat>): nat
    decreases |w|
  {
    if w == map[] then 0 else var t :| t in w; w[t] + Total(w - {t})
  }

  lemma {:induction false} TotalTake(w: map<nat, nat>, t: nat)
    requires t in w
    ensures Total(w) == w[t] + Total(w - {t})
    decreases |w|
  {
    var u :| u in w && Total(w) == w[u] + Total(w - {u});
    if u != t {
      TotalTake(w - {u}, t);
      TotalTake(w - {t}, u);
      assert w - {u} - {t} == w - {t} - {u};
    }
  }

  function Weights(st: State, s: nat): map<nat, nat> {
    map t | t in st.threads && Holds(st.threads[t], s) :: 1 + Rank(st.threads[t])
  }

  /** The lines of completeStop that the closer has before it. */
  function LinesLeft(st: State, s: nat): nat
    requires s in st.sessions
  {
    var sess := st.sessions[s];
    if sess.stopDone || sess.closer !in st.threads || !Closes(st.threads[sess.closer], s) then 0
    else
      var line := StopOf(st.threads[sess.closer]).value.1.line;
      if line <= 5 then 6 - line else 0
  }

  ghost function Effort(st: State, s: nat): nat
    requires s in st.sessions
  {
    LinesLeft(st, s) + Total(Weights(st, s))
  }

  /** The answer of a call on a closed endpoint. */
  predicate Refuses(e: Event) {
    !e.moved && e.err != Nil
  }

  /** The direction that a step of a pump moves. */
  function Chosen(pump: RunPc, left: bool): Direction
    requires pump.Pumping?
  {
    if left then pump.a else pump.b
  }

  /** The answer fits: a call on a closed endpoint gives no bytes. */
  predicate Answered(th: Thread, left: bool, e: Event) {
    th.Runner? && th.run.Pumping? && (Chosen(th.run, left).Reading? || Chosen(th.run, left).Writing?) ==> Refuses(e)
  }

  /** A step that this Stop depends on and that does not have to wait. */
  ghost predicate WorkerStep(st: State, s: nat, a: Action) {
    && s in st.sessions && a.Step? && a.t in st.threads && a.spawn !in st.threads
    && Ready(st, a.t, s, a.left) && Answered(st.threads[a.t], a.left, a.event)
  }

  lemma UntouchedEffort(st: State, n: State, s: nat)
    requires s in st.sessions && Untouched(st, n, s)
    requires !st.sessions[s].stopDone ==>
      st.sessions[s].closer in st.threads && Closes(st.threads[st.sessions[s].closer], s)
    ensures Effort(n, s) == Effort(st, s)
  {
    assert Weights(n, s) == Weights(st, s);
  }

  // ---- the closer's step

  /** A thread inside Stop takes exactly that Stop's step, whichever call wraps it. */
  lemma StopInside(st: State, t: nat, s: nat, pc: StopPc, pick: nat, left: bool, event: Event, spawn: nat)
    returns (rest: Option<Thread>)
    requires t in st.threads && StopOf(st.threads[t]) == Some((s, pc)) && s in st.sessions
    requires ThreadInv(st, t, st.threads[t])
    ensures ThreadStep(st, t, st.threads[t], pick, left, event, spawn) == Place(StopStep(st, t, s, pc).0, t, rest)
    ensures After(rest) == At(s, StopStep(st, t, s, pc).1) && (rest.Some? ==> HoldsNothing(rest.value))
  {
    hide StopStep, StopInv, AllStopped, Place;
    match st.threads[t]
    case Stopper(_, _) => rest := StopperStep(st, t, s, pc).1;
    case PipeCloser(p, pipePc) => rest := PipeCloserStep(st, t, p, pipePc, pick).1;
    case NodeCloser(nodePc) => rest := NodeCloserStep(st, t, nodePc, pick).1;
  }

  /** What the steps of one session's workers leave alone. */
  ghost predicate Same(a: Session, b: Session) {
    b.stopping == a.stopping && b.closer == a.closer && b.installs == a.installs
  }

  lemma LineStep(sess: Session, t: nat, line: nat)
    requires StopPcInv(sess, t, Closing(line))
    ensures var (n, rest) := StopSession(sess, t, Closing(line));
      && Same(sess, n) && (line == 5 ==> n.stopDone)
      && (line != 5 ==> n.stopDone == sess.stopDone)
      && (line != 5 ==> rest == Some(Closing(if line == 3 && !sess.workClosed then 3 else line + 1)))
  {
    if line == 0 {} else if line == 1 {} else if line == 2 {} else {}
  }

  lemma StopStepAt(st: State, t: nat, s: nat, pc: StopPc)
    requires s in st.sessions
    ensures var (n, rest) := StopStep(st, t, s, pc);
      && n.threads == st.threads && s in n.sessions && rest == StopSession(st.sessions[s], t, pc).1
      && n.sessions[s] == if pc == Closing(4) then st.sessions[s] else StopSession(st.sessions[s], t, pc).0
  {
    hide StopSession;
  }

  lemma Placed(n: State, t: nat, rest: Option<Thread>)
    ensures var m := Place(n, t, rest);
      && m.sessions == n.sessions && (rest.Some? ==> t in m.threads && m.threads[t] == rest.value)
      && (rest.None? ==> t !in m.threads)
      && (forall u | u != t ::
          (u in m.threads <==> u in n.threads) && (u in m.threads ==> m.threads[u] == n.threads[u]))
  {}

  lemma LineBound(sess: Session, t: nat, line: nat)
    requires StopPcInv(sess, t, Closing(line))
    ensures line <= 5 && sess.closer == t && sess.stopping && !sess.stopDone
  {}

  /** Any step of the closer: it stays at its line exactly while it waits for work. */
  lemma CloserStep(st: State, s: nat, a: Action)
    requires Inv(st) && s in st.sessions && a.Step? && a.t in st.threads && a.spawn !in st.threads
    requires Closes(st.threads[a.t], s)
    ensures var n := Next(st, a);
      && s in n.sessions && Same(st.sessions[s], n.sessions[s]) && Weights(n, s) == Weights(st, s)
      && LinesLeft(n, s) == LinesLeft(st, s) - (if Ready(st, a.t, s, a.left) then 1 else 0)
      && (st.sessions[s].stopDone ==> n.sessions[s].stopDone)
  {
    hide Inv, ThreadStep, StopStep, StopSession, StopPcInv, Place, Same;
    var t := a.t;
    var line := StopOf(st.threads[t]).value.1.line;
    InvThread(st, t);
    ClosingInv(st, t, s, line);
    LineBound(st.sessions[s], t, line);
    var rest := StopInside(st, t, s, Closing(line), a.pick, a.left, a.event, a.spawn);
    StopStepAt(st, t, s, Closing(line));
    LineStep(st.sessions[s], t, line);
    StopFour(st.sessions[s], t);
    Placed(StopStep(st, t, s, Closing(line)).0, t, rest);
    var n := Next(st, a);
    SameFields(st.sessions[s], StopStep(st, t, s, Closing(line)).0.sessions[s]);
    assert Weights(n, s) == Weights(st, s);
  }

  lemma SameFields(a: Session, b: Session)
    requires Same(a, b)
    ensures b.stopping == a.stopping && b.closer == a.closer && b.installs == a.installs
  {}

  lemma ClosingInv(st: State, t: nat, s: nat, line: nat)
    requires t in st.threads && ThreadInv(st, t, st.threads[t]) && StopOf(st.threads[t]) == Some((s, Closing(line)))
    ensures s in st.sessions && StopPcInv(st.sessions[s], t, Closing(line))
  {
    hide StopPcInv, AllStopped;
  }

  // ---- a step of a thread inside the work

  lemma WorkSession(st: State, t: nat, s: nat, pick: nat, left: bool, event: Event, spawn: nat)
    requires t in st.threads && Holds(st.threads[t], s) && s in st.sessions && st.sessions[s].stopping
    ensures var n := ThreadStep(st, t, st.threads[t], pick, left, event, spawn);
      s in n.sessions && Same(st.sessions[s], n.sessions[s]) && n.sessions[s].stopDone == st.sessions[s].stopDone
  {
    hide SessionCancelled, FinishWork, BeginStop, StopperStep, PipeCloserStep, NodeCloserStep, Sees;
    FinishSame(st.sessions[s]);
  }

  lemma SeesRank(d: Direction, e: Event)
    ensures DirectionRank(Sees(d, e)) <= DirectionRank(d)
    ensures d.Failing? || ((d.Reading? || d.Writing?) && Refuses(e)) ==> DirectionRank(Sees(d, e)) < DirectionRank(d)
  {}

  lemma WorkRank(st: State, t: nat, s: nat, pick: nat, left: bool, event: Event, spawn: nat)
    requires t in st.threads && Holds(st.threads[t], s) && s in st.sessions && st.sessions[s].stopping
    ensures var n := ThreadStep(st, t, st.threads[t], pick, left, event, spawn);
      t in n.threads && Holds(n.threads[t], s) ==>
        && Rank(n.threads[t]) <= Rank(st.threads[t])
        && (Ready(st, t, s, left) && Answered(st.threads[t], left, event) ==> Rank(n.threads[t]) < Rank(st.threads[t]))
  {
    hide SessionCancelled, FinishWork, BeginStop, StopperStep, PipeCloserStep, NodeCloserStep, Sees, Refuses,
      CarrierEnded;
    if st.threads[t].Runner? && st.threads[t].run.Pumping? {
      SeesRank(Chosen(st.threads[t].run, left), event);
    }
  }

  lemma FinishSame(sess: Session)
    ensures var n := FinishWork(sess); Same(sess, n) && n.stopDone == sess.stopDone
  {}

  lemma HolderStep(st: State, s: nat, a: Action)
    requires Inv(st) && s in st.sessions && st.sessions[s].stopping
    requires a.Step? && a.t in st.threads && a.spawn !in st.threads && Holds(st.threads[a.t], s)
    requires !st.sessions[s].stopDone ==>
      st.sessions[s].closer in st.threads && Closes(st.threads[st.sessions[s].closer], s)
    ensures var n := Next(st, a);
      && s in n.sessions && Same(st.sessions[s], n.sessions[s]) && LinesLeft(n, s) == LinesLeft(st, s)
      && n.sessions[s].stopDone == st.sessions[s].stopDone
      && Total(Weights(n, s)) <= Total(Weights(st, s)) - (if WorkerStep(st, s, a) then 1 else 0)
  {
    hide Inv, ThreadStep, Ready, Answered, Rank;
    var t := a.t;
    WorkSession(st, t, s, a.pick, a.left, a.event, a.spawn);
    WorkRank(st, t, s, a.pick, a.left, a.event, a.spawn);
    OthersStay(st, t, st.threads[t], a.pick, a.left, a.event, a.spawn);
    var n := Next(st, a);
    HoldersDoNotClose(st.threads[t], s);
    var w, v := Weights(st, s), Weights(n, s);
    assert v - {t} == w - {t};
    TotalTake(w, t);
    if t in v {
      TotalTake(v, t);
    } else {
      assert v - {t} == v;
    }
  }

  lemma HoldersDoNotClose(th: Thread, s: nat)
    requires Holds(th, s)
    ensures forall x :: !Closes(th, x)
  {}

  // ---- over runs

  /** No step raises the effort of a stopping session, and every step that need not wait lowers it. */
  lemma EffortFalls(st: State, s: nat, a: Action)
    requires Inv(st) && s in st.sessions && st.sessions[s].stopping
    ensures var n := Next(st, a);
      && s in n.sessions && Same(st.sessions[s], n.sessions[s]) && (st.sessions[s].stopDone ==> n.sessions[s].stopDone)
      && Effort(n, s) <= Effort(st, s) - (if WorkerStep(st, s, a) then 1 else 0)
  {
    hide Inv, Next, Total, Weights, LinesLeft, Holds, Closes;
    if !st.sessions[s].stopDone {
      InvCloser(st, s);
    }
    if a.Step? && a.t in st.threads && a.spawn !in st.threads && Holds(st.threads[a.t], s) {
      HolderStep(st, s, a);
    } else if a.Step? && a.t in st.threads && a.spawn !in st.threads && Closes(st.threads[a.t], s) {
      CloserStep(st, s, a);
    } else {
      if a.Step? && a.t in st.threads && Ready(st, a.t, s, a.left) {
        ReadyWorks(st, a.t, s, a.left);
      }
      Bystander(st, a, s);
      UntouchedEffort(st, Next(st, a), s);
    }
  }

  lemma ReadyWorks(st: State, t: nat, s: nat, left: bool)
    requires s in st.sessions && t in st.threads && Ready(st, t, s, left)
    ensures WorksFor(st.threads[t], s)
  {}

  /** How many of the actions i, ..., j - 1 were steps that this Stop depends on and that did not have to wait. */
  ghost function WorkerSteps(actions: seq<Action>, tr: seq<State>, s: nat, i: nat, j: nat): nat
    requires |tr| == |actions| + 1 && i <= j <= |actions|
    decreases j
  {
    if i == j then 0
    else WorkerSteps(actions, tr, s, i, j - 1) + Bit(WorkerStep(tr[j - 1], s, actions[j - 1]))
  }

  lemma {:induction false} EffortPays(actions: seq<Action>, tr: seq<State>, s: nat, i: nat, j: nat)
    requires IsRun(actions, tr) && i <= j <= |actions| && s in tr[i].sessions && tr[i].sessions[s].stopping
    ensures s in tr[j].sessions && Same(tr[i].sessions[s], tr[j].sessions[s])
    ensures WorkerSteps(actions, tr, s, i, j) + Effort(tr[j], s) <= Effort(tr[i], s)
    decreases j
  {
    hide Inv, Next, Effort, WorkerStep;
    if i < j {
      EffortPays(actions, tr, s, i, j - 1);
      RunInv(actions, tr, j - 1);
      EffortFalls(tr[j - 1], s, actions[j - 1]);
    }
  }

  lemma NoEffortIsDone(st: State, s: nat)
    requires Inv(st) && s in st.sessions && st.sessions[s].stopping && Effort(st, s) == 0
    ensures st.sessions[s].stopDone
  {
    hide Inv, StopPcInv, Weights;
    if !st.sessions[s].stopDone {
      InvCloser(st, s);
      LineBound(st.sessions[s], st.sessions[s].closer, StopOf(st.threads[st.sessions[s].closer]).value.1.line);
    }
  }

  /**
   In every run, whatever else happens in it, stopDone is closed once as many steps that need not wait
   were taken as the effort was when the session began to stop. Until then there is one to take, unless
   the session is wedged (StopProgressIff).
   */
  lemma StopCompletes(actions: seq<Action>, tr: seq<State>, s: nat, i: nat, j: nat)
    requires IsRun(actions, tr) && i <= j <= |actions| && s in tr[i].sessions && tr[i].sessions[s].stopping
    requires WorkerSteps(actions, tr, s, i, j) >= Effort(tr[i], s)
    ensures s in tr[j].sessions && tr[j].sessions[s].stopDone
  {
    hide Inv, Next, Effort, WorkerSteps;
    EffortPays(actions, tr, s, i, j);
    RunInv(actions, tr, j);
    NoEffortIsDone(tr[j], s);
  }

  lemma {:induction false} FreshThread(ts: set<nat>) returns (n: nat)
    ensures forall t | t in ts :: t < n
  {
    if ts == {} {
      n := 0;
    } else {
      var t :| t in ts;
      var m := FreshThread(ts - {t});
      n := if m > t then m else t + 1;
      assert forall u | u in ts :: u == t || u in ts - {t};
    }
  }

  /** stopDone is closed after at most n steps that need not wait. */
  ghost predicate Completes(st: State, s: nat, n: nat)
    decreases n
  {
    && s in st.sessions
    && (st.sessions[s].stopDone || (n > 0 && exists a :: WorkerStep(st, s, a) && Completes(Next(st, a), s, n - 1)))
  }

  lemma SomeWorkerStep(st: State, s: nat) returns (a: Action)
    requires Inv(st) && s in st.sessions && st.sessions[s].stopping && !st.sessions[s].stopDone && !Wedged(st, s)
    ensures WorkerStep(st, s, a)
  {
    hide Inv, Ready, Wedged, Workers;
    EnabledIff(st, s);
    var t :| t in Workers(st, s) && t in st.threads && Enabled(st, t, s);
    var spawn := FreshThread(st.threads.Keys);
    a := Step(t, 0, Ready(st, t, s, true), Event(false, Error), spawn);
  }

  lemma {:induction false} CompletesWithin(st: State, s: nat, n: nat)
    requires Inv(st) && s in st.sessions && st.sessions[s].stopping && |st.sessions[s].installs| <= 1
    requires Effort(st, s) <= n
    ensures Completes(st, s, n)
    decreases n
  {
    hide Inv, Next, Effort, WorkerStep;
    if !st.sessions[s].stopDone {
      OneInstall(st, s);
      var a := SomeWorkerStep(st, s);
      NextInv(st, a);
      EffortFalls(st, s, a);
      CompletesWithin(Next(st, a), s, n - 1);
    }
  }

  /**
   In every run, a session with at most one installed carrier can be completed from the moment it is
   stopping, by at most as many steps that need not wait as its effort.
   */
  lemma StopCanComplete(actions: seq<Action>, tr: seq<State>, i: nat, s: nat)
    requires IsRun(actions, tr) && i < |tr| && s in tr[i].sessions
    requires tr[i].sessions[s].stopping && |tr[i].sessions[s].installs| <= 1
    ensures Completes(tr[i], s, Effort(tr[i], s))
  {
    hide Inv, Next, Effort, Completes;
    RunInv(actions, tr, i);
    CompletesWithin(tr[i], s, Effort(tr[i], s));
  }

  // ---- a wedge lasts

  /** The action is not an event on a carrier that work of session s is waiting on. */
  predicate Silent(st: State, s: nat, a: Action) {
    !(a.Step? && a.t in st.threads && Holds(st.threads[a.t], s) && MovesOnCarrier(st.threads[a.t], a.left))
  }

  predicate MovesOnCarrier(th: Thread, left: bool) {
    th.Runner? && th.run.Pumping? && OnCarrier(left, Chosen(th.run, left))
  }

  /** Its chosen direction has ended and the other has not. */
  lemma EndedDirectionIdles(st: State, s: nat, a: Action)
    requires Inv(st) && Wedged(st, s) && Silent(st, s, a)
    requires a.Step? && a.t in st.threads && a.spawn !in st.threads && Holds(st.threads[a.t], s)
    ensures Next(st, a) == st
  {
    hide Inv, RequestStop;
    var th := st.threads[a.t];
    assert a.t in Holders(st, s);
    assert st.threads[a.t := th] == st.threads;
  }

  lemma WaitingLine(sess: Session, t: nat)
    requires !sess.workClosed
    ensures StopSession(sess, t, Closing(3)) == (sess, Some(Closing(3)))
  {}

  lemma WaitingCloserIdles(st: State, s: nat, a: Action)
    requires Inv(st) && Wedged(st, s)
    requires a.Step? && a.t in st.threads && a.spawn !in st.threads && Closes(st.threads[a.t], s)
    ensures var n := Next(st, a);
      && a.t == st.sessions[s].closer && s in n.sessions && n.sessions[s] == st.sessions[s]
      && a.t in n.threads && StopOf(n.threads[a.t]) == Some((s, Closing(3))) && !Holds(n.threads[a.t], s)
      && forall u | u != a.t ::
          (u in n.threads <==> u in st.threads) && (u in n.threads ==> n.threads[u] == st.threads[u])
  {
    hide Inv, ThreadStep, StopStep, StopSession, StopPcInv, Place;
    var t := a.t;
    var line := StopOf(st.threads[t]).value.1.line;
    InvThread(st, t);
    ClosingInv(st, t, s, line);
    LineBound(st.sessions[s], t, line);
    var rest := StopInside(st, t, s, Closing(3), a.pick, a.left, a.event, a.spawn);
    StopStepAt(st, t, s, Closing(3));
    WaitingLine(st.sessions[s], t);
    Placed(StopStep(st, t, s, Closing(3)).0, t, rest);
  }

  lemma WedgedIsStopping(st: State, s: nat)
    requires Inv(st) && Wedged(st, s)
    ensures st.sessions[s].stopping && !st.sessions[s].stopDone
  {
    hide Inv, StopPcInv;
    var t := st.sessions[s].closer;
    InvThread(st, t);
    ClosingInv(st, t, s, 3);
    LineBound(st.sessions[s], t, 3);
  }

  lemma WedgeStays(st: State, s: nat, a: Action)
    requires Inv(st) && Wedged(st, s) && Silent(st, s, a)
    ensures Wedged(Next(st, a), s)
  {
    hide Inv, Next, Silent, OnReplacedCarrier;
    WedgedIsStopping(st, s);
    if a.Step? && a.t in st.threads && a.spawn !in st.threads && Holds(st.threads[a.t], s) {
      EndedDirectionIdles(st, s, a);
    } else if a.Step? && a.t in st.threads && a.spawn !in st.threads && Closes(st.threads[a.t], s) {
      WaitingCloserIdles(st, s, a);
    } else {
      Bystander(st, a, s);
    }
  }

  /**
   A wedge lasts: as long as the carriers that its work waits on give no event, a wedged session stays
   wedged and stopDone open, whatever else happens.
   */
  lemma {:induction false} WedgeLasts(actions: seq<Action>, tr: seq<State>, s: nat, i: nat, j: nat)
    requires IsRun(actions, tr) && i <= j <= |actions| && Wedged(tr[i], s)
    requires forall k | i <= k < j :: Silent(tr[k], s, actions[k])
    ensures Wedged(tr[j], s) && !tr[j].sessions[s].stopDone
    decreases j
  {
    hide Inv, Next, Silent;
    RunInv(actions, tr, j);
    if i < j {
      hide Wedged;
      WedgeLasts(actions, tr, s, i, j - 1);
      RunInv(actions, tr, j - 1);
      WedgeStays(tr[j - 1], s, actions[j - 1]);
    }
    WedgedIsStopping(tr[j], s);
  }
}
