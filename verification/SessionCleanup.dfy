/**
 What Stop and Close leave behind: a stopped session is out of its Pipe's registry, with its context
 cancelled and its target closed; a closed Pipe is out of its Node, cancelled and with an empty registry
 (internal/runtime/session.go:145-166 and 311-339, internal/runtime/ownership.go:52-121).
 */
module SessionCleanup {
  import opened Wrappers
  import opened Sessions
  import opened SessionOutcomes

  /** The session is in the registry of its Pipe, under its ID. */
  predicate Listed(st: State, s: nat)
    requires s in st.sessions
  {
    var sess := st.sessions[s];
    sess.pipe in st.pipes && sess.id in st.pipes[sess.pipe].registry && st.pipes[sess.pipe].registry[sess.id] == s
  }

  /** The Pipe whose removal from the Node this thread has just done. */
  function Removed(th: Thread): Option<nat> {
    match th
    case PipeCloser(p, pc) => if pc.EndingPipe? then Some(p) else None
    case NodeCloser(pc) =>
      if pc.ClosingAll? && pc.current.Some? && pc.current.value.1.EndingPipe? then Some(pc.current.value.0) else None
    case _ => None
  }

  ghost predicate CleanSession(st: State, s: nat)
    requires s in st.sessions
  {
    st.sessions[s].stopDone ==> !Listed(st, s) && st.sessions[s].cancelled && st.sessions[s].targetClosed
  }

  ghost predicate CleanPipe(st: State, p: nat)
    requires p in st.pipes
  {
    && (st.pipes[p].closed ==> st.pipes[p].cancelled && st.pipes[p].registry == map[])
    && (st.pipes[p].done ==> p !in st.node.pipes)
  }

  ghost predicate CleanThread(st: State, th: Thread) {
    && (StopOf(th).Some? && StopOf(th).value.1 == Closing(5) && StopOf(th).value.0 in st.sessions ==>
          !Listed(st, StopOf(th).value.0))
    && (Removed(th).Some? ==> Removed(th).value !in st.node.pipes)
  }

  ghost predicate CleanInv(st: State) {
    && (forall s | s in st.sessions :: CleanSession(st, s))
    && (forall p | p in st.pipes :: CleanPipe(st, p))
    && (forall t | t in st.threads :: CleanThread(st, st.threads[t]))
    && (st.node.closed ==> st.node.cancelled)
  }

  // ---- one step of Stop or Close

  /** Nothing is added, and what is closed stays clean. */
  ghost predicate Shrinks(st: State, n: State) {
    && n.sessions.Keys == st.sessions.Keys && n.pipes.Keys == st.pipes.Keys && n.node.pipes <= st.node.pipes
    && (forall s | s in st.sessions ::
          && n.sessions[s].pipe == st.sessions[s].pipe && n.sessions[s].id == st.sessions[s].id
          && (st.sessions[s].cancelled ==> n.sessions[s].cancelled)
          && (st.sessions[s].targetClosed ==> n.sessions[s].targetClosed)
          && (Listed(n, s) ==> Listed(st, s)))
    && (forall p | p in st.pipes ::
          (CleanPipe(st, p) && !n.pipes[p].done ==> CleanPipe(n, p))
          && (CleanPipe(st, p) && st.pipes[p].done ==> CleanPipe(n, p)))
    && ((st.node.closed ==> st.node.cancelled) ==> n.node.closed ==> n.node.cancelled)
  }

  /** A session becomes done, or a Pipe, only at the last line of its closer, and after its removal. */
  ghost predicate Tidies(st: State, n: State, stop: Option<(nat, StopPc)>, removed: Option<nat>) {
    && Shrinks(st, n)
    && (forall s | s in st.sessions && n.sessions[s].stopDone && !st.sessions[s].stopDone ::
          && stop == Some((s, Closing(5))) && n.sessions[s].cancelled && n.sessions[s].targetClosed
          && (Listed(n, s) ==> Listed(st, s)))
    && (forall p | p in st.pipes && n.pipes[p].done && !st.pipes[p].done ::
          && removed == Some(p) && n.node.pipes == st.node.pipes && n.pipes[p] == st.pipes[p].(done := true))
  }

  /** beginStop and the terminal action set none of the flags that completeStop sets. */
  lemma BeginFlags(sess: Session, closer: nat)
    ensures !sess.stopping ==>
      var n := BeginStop(sess, closer);
      && n.pipe == sess.pipe && n.id == sess.id && n.stopDone == sess.stopDone
      && n.cancelled == sess.cancelled && n.targetClosed == sess.targetClosed
    ensures var n := EndCarrier(sess);
      && n.pipe == sess.pipe && n.id == sess.id && n.stopDone == sess.stopDone
      && n.cancelled == sess.cancelled && n.targetClosed == sess.targetClosed
  {}

  lemma StopFlags(sess: Session, t: nat, pc: StopPc)
    requires StopPcInv(sess, t, pc)
    ensures var n := StopSession(sess, t, pc).0;
      && n.pipe == sess.pipe && n.id == sess.id
      && (sess.cancelled ==> n.cancelled) && (sess.targetClosed ==> n.targetClosed)
      && (n.stopDone && !sess.stopDone ==> pc == Closing(5) && n.cancelled && n.targetClosed)
  {
    hide BeginStop, EndCarrier;
    BeginFlags(sess, t);
  }

  lemma StopTidies(st: State, t: nat, s: nat, pc: StopPc)
    requires StopInv(st, t, s, pc)
    ensures Tidies(st, StopStep(st, t, s, pc).0, Some((s, pc)), None)
  {
    hide StopSession, StopPcInv;
    StopFlags(st.sessions[s], t, pc);
    StopFour(st.sessions[s], t);
  }

  /** Line 4 is the removal. */
  lemma FourRemoves(st: State, t: nat, s: nat)
    requires s in st.sessions
    ensures s in StopStep(st, t, s, Closing(4)).0.sessions && !Listed(StopStep(st, t, s, Closing(4)).0, s)
  {
    hide StopSession;
  }

  lemma OnlyFourLeadsToFive(sess: Session, t: nat, pc: StopPc)
    requires StopSession(sess, t, pc).1 == Some(Closing(5))
    ensures pc == Closing(4)
  {
    hide BeginStop, EndCarrier;
  }

  ghost predicate StopClaim(n: State, stop: Option<(nat, StopPc)>) {
    stop.Some? && stop.value.1 == Closing(5) && stop.value.0 in n.sessions ==> !Listed(n, stop.value.0)
  }

  lemma StopClaims(st: State, t: nat, s: nat, pc: StopPc)
    requires s in st.sessions
    ensures var (n, rest) := StopStep(st, t, s, pc); StopClaim(n, At(s, rest))
  {
    hide StopSession;
    var (n, rest) := StopStep(st, t, s, pc);
    if rest == Some(Closing(5)) {
      OnlyFourLeadsToFive(st.sessions[s], t, pc);
      FourRemoves(st, t, s);
    }
  }

  lemma PipeTidies(st: State, t: nat, p: nat, pc: PipePc, pick: nat)
    requires PipePcInv(st, t, p, pc)
    ensures var (n, rest) := PipeStep(st, t, p, pc, pick);
      && Tidies(st, n, PipeStop(pc), if pc.EndingPipe? then Some(p) else None)
      && (rest.Some? ==> StopClaim(n, PipeStop(rest.value)) && (rest.value.EndingPipe? ==> p !in n.node.pipes))
  {
    hide StopStep, StopPcInv, AllStopped, Tidies, Listed;
    IdleTidies(st, PipeStop(pc));
    match pc
    case PipeEntering => ClosedTidies(st, p);
    case StoppingAll(_, Some((s, stop))) =>
      StopTidies(st, t, s, stop);
      StopClaims(st, t, s, stop);
    case RemovingPipe => RemovedTidies(st, p);
    case EndingPipe => EndedTidies(st, p);
    case _ =>
  }

  lemma IdleTidies(st: State, stop: Option<(nat, StopPc)>)
    ensures Tidies(st, st, stop, None)
  {}

  lemma ClosedTidies(st: State, p: nat)
    requires p in st.pipes
    ensures Tidies(st, Closed(st, p), None, None)
  {}

  lemma RemovedTidies(st: State, p: nat)
    ensures Tidies(st, st.(node := st.node.(pipes := st.node.pipes - {p})), None, None)
  {}

  lemma EndedTidies(st: State, p: nat)
    requires p in st.pipes
    ensures Tidies(st, WithPipe(st, p, st.pipes[p].(done := true)), None, Some(p))
  {}

  lemma NodeTidies(st: State, t: nat, pc: NodePc, pick: nat)
    requires NodePcInv(st, t, pc)
    ensures var (n, rest) := NodeStep(st, t, pc, pick);
      && Tidies(st, n, StopOf(NodeCloser(pc)), Removed(NodeCloser(pc)))
      && (rest.Some? ==> CleanThread(n, NodeCloser(rest.value)))
  {
    hide PipeStep, PipePcInv, AllStopped;
    if pc.ClosingAll? && pc.current.Some? {
      var (p, pipePc) := pc.current.value;
      InPipes(st, t, p, pipePc);
      hide Tidies;
      PipeTidies(st, t, p, pipePc, pick);
    }
  }

  lemma InPipes(st: State, t: nat, p: nat, pc: PipePc)
    requires PipePcInv(st, t, p, pc)
    ensures p in st.pipes
  {}

  // ---- putting it together

  lemma CleanAfter(st: State, n: State, t: nat, rest: Option<Thread>)
    requires CleanInv(st) && t in st.threads && n.threads == st.threads
    requires Tidies(st, n, StopOf(st.threads[t]), Removed(st.threads[t]))
    requires rest.Some? ==> CleanThread(n, rest.value)
    ensures CleanInv(Place(n, t, rest))
  {
    var m := Place(n, t, rest);
    forall s | s in m.sessions
      ensures CleanSession(m, s)
    {
      assert CleanSession(st, s) && CleanThread(st, st.threads[t]);
    }
    forall p | p in m.pipes
      ensures CleanPipe(m, p)
    {
      assert CleanPipe(st, p) && CleanThread(st, st.threads[t]);
    }
    forall u | u in m.threads
      ensures CleanThread(m, m.threads[u])
    {
      if u != t {
        assert CleanThread(st, st.threads[u]);
      }
    }
  }

  /** The step writes no Pipe, no Node and none of the flags that Stop sets. */
  ghost predicate Mild(st: State, n: State) {
    && n.pipes == st.pipes && n.node == st.node && n.sessions.Keys == st.sessions.Keys
    && forall s | s in st.sessions ::
         var a, b := st.sessions[s], n.sessions[s];
         && b.pipe == a.pipe && b.id == a.id
         && b.stopDone == a.stopDone && b.cancelled == a.cancelled && b.targetClosed == a.targetClosed
  }

  predicate Claimless(th: Thread) {
    Removed(th).None? && (StopOf(th).Some? ==> StopOf(th).value.1 != Closing(5))
  }

  lemma MildKeeps(st: State, n: State)
    requires CleanInv(st) && Mild(st, n)
    requires forall u | u in n.threads ::
      (u in st.threads && n.threads[u] == st.threads[u]) || Claimless(n.threads[u])
    ensures CleanInv(n)
  {
    forall s | s in n.sessions
      ensures CleanSession(n, s)
    {
      assert CleanSession(st, s);
    }
    forall p | p in n.pipes
      ensures CleanPipe(n, p)
    {
      assert CleanPipe(st, p);
    }
    forall u | u in n.threads
      ensures CleanThread(n, n.threads[u])
    {
      if !Claimless(n.threads[u]) {
        assert CleanThread(st, st.threads[u]);
      }
    }
  }

  /** Every other thread is as it was, or has just begun. */
  ghost predicate NewIsClaimless(st: State, n: State) {
    forall u | u in n.threads :: (u in st.threads && n.threads[u] == st.threads[u]) || Claimless(n.threads[u])
  }

  lemma MildPlace(st: State, n: State, t: nat, rest: Option<Thread>)
    requires Mild(st, n) && NewIsClaimless(st, n) && (rest.Some? ==> Claimless(rest.value))
    ensures Mild(st, Place(n, t, rest)) && NewIsClaimless(st, Place(n, t, rest))
  {}

  lemma MildSession(st: State, s: nat, sess: Session)
    requires s in st.sessions
    requires var a := st.sessions[s];
      && sess.pipe == a.pipe && sess.id == a.id && sess.stopDone == a.stopDone
      && sess.cancelled == a.cancelled && sess.targetClosed == a.targetClosed
    ensures Mild(st, WithSession(st, s, sess)) && NewIsClaimless(st, WithSession(st, s, sess))
  {}

  lemma RequestMild(st: State, s: nat, spawn: nat)
    requires s in st.sessions
    ensures Mild(st, RequestStop(st, s, spawn)) && NewIsClaimless(st, RequestStop(st, s, spawn))
  {
    hide BeginStop, Mild, NewIsClaimless;
    var sess := st.sessions[s];
    BeginFlags(sess, spawn);
    MildSession(st, s, sess);
    assert WithSession(st, s, sess) == st;
    if !sess.stopping {
      MildSession(st, s, BeginStop(sess, spawn));
      MildPlace(st, WithSession(st, s, BeginStop(sess, spawn)), spawn, Some(Stopper(s, Closing(0))));
    }
  }

  lemma PumpMild(st: State, t: nat, th: Thread, left: bool, event: Event, spawn: nat)
    requires th.Runner? && th.run.Pumping? && th.session in st.sessions
    ensures var n := PumpStep(st, t, th, left, event, spawn); Mild(st, n) && NewIsClaimless(st, n)
  {
    hide RequestStop, Sees, Mild, NewIsClaimless;
    var s, pump := th.session, th.run;
    var sess := st.sessions[s];
    if pump.a.Ended? && pump.b.Ended? {
      var done := sess.(clean := pump.a.clean && pump.b.clean,
                        results := sess.results + [(pump.a.clean, pump.b.clean)]);
      MildSession(st, s, done);
      MildPlace(st, WithSession(st, s, done), t, Some(th.(run := Finishing)));
    } else {
      MildSession(st, s, sess);
      assert WithSession(st, s, sess) == st;
      RequestMild(st, s, spawn);
      var d := if left then pump.a else pump.b;
      MildPlace(st, if d.Failing? then RequestStop(st, s, spawn) else st, t,
                Some(th.(run := if left then pump.(a := Sees(d, event)) else pump.(b := Sees(d, event)))));
    }
  }

  lemma RunMild(st: State, t: nat, th: Thread, left: bool, event: Event, spawn: nat)
    requires th.Runner? && th.session in st.sessions
    ensures var n := RunStep(st, t, th, left, event, spawn); Mild(st, n) && NewIsClaimless(st, n)
  {
    hide RequestStop, PumpStep, SessionCancelled, Mild, NewIsClaimless;
    var s := th.session;
    var sess := st.sessions[s];
    match th.run
    case Admitting =>
      MildSession(st, s, sess);
      MildPlace(st, WithSession(st, s, sess), t, None);
      MildSession(st, s, Admit(sess));
      MildPlace(st, WithSession(st, s, Admit(sess)), t, Some(th.(run := Starting)));
      assert WithSession(st, s, sess) == st;
    case Starting =>
      MildSession(st, s, sess);
      assert WithSession(st, s, sess) == st;
      MildPlace(st, st, t, Some(RunStep(st, t, th, left, event, spawn).threads[t]));
    case NoCarrier =>
      RequestMild(st, s, spawn);
      MildPlace(st, RequestStop(st, s, spawn), t, Some(th.(run := Finishing)));
    case Pumping(_, _, _) => PumpMild(st, t, th, left, event, spawn);
    case Finishing =>
      MildSession(st, s, FinishWork(sess));
      MildPlace(st, WithSession(st, s, FinishWork(sess)), t, if th.thenStop then Some(Stopper(s, Entering)) else None);
  }

  lemma StopperClean(st: State, t: nat, s: nat, pc: StopPc)
    requires CleanInv(st) && t in st.threads && st.threads[t] == Stopper(s, pc) && StopInv(st, t, s, pc)
    ensures var (n, rest) := StopperStep(st, t, s, pc); CleanInv(Place(n, t, rest))
  {
    hide CleanInv, StopStep, Tidies, StopInv, Place;
    assert s in st.sessions by { StopSessionExists(st, t, s, pc); }
    StopTidies(st, t, s, pc);
    StopClaims(st, t, s, pc);
    StopThreads(st, t, s, pc);
    var (n, rest) := StopperStep(st, t, s, pc);
    CleanAfter(st, n, t, rest);
  }

  lemma StopSessionExists(st: State, t: nat, s: nat, pc: StopPc)
    requires StopInv(st, t, s, pc)
    ensures s in st.sessions
  {}

  lemma PipeCloserClean(st: State, t: nat, p: nat, pc: PipePc, pick: nat)
    requires CleanInv(st) && t in st.threads && st.threads[t] == PipeCloser(p, pc) && PipePcInv(st, t, p, pc)
    ensures p in st.pipes
    ensures var (n, rest) := PipeCloserStep(st, t, p, pc, pick); CleanInv(Place(n, t, rest))
  {
    hide CleanInv, PipeStep, Tidies, PipePcInv, Place, Listed;
    InPipes(st, t, p, pc);
    PipeTidies(st, t, p, pc, pick);
    PipeThreads(st, t, p, pc, pick);
    var (n, rest) := PipeCloserStep(st, t, p, pc, pick);
    CleanAfter(st, n, t, rest);
  }

  lemma NodeCloserClean(st: State, t: nat, pc: NodePc, pick: nat)
    requires CleanInv(st) && t in st.threads && st.threads[t] == NodeCloser(pc) && NodePcInv(st, t, pc)
    ensures var (n, rest) := NodeCloserStep(st, t, pc, pick); CleanInv(Place(n, t, rest))
  {
    hide CleanInv, NodeStep, Tidies, NodePcInv, Place, CleanThread;
    NodeTidies(st, t, pc, pick);
    NodeThreads(st, t, pc, pick);
    var (n, rest) := NodeCloserStep(st, t, pc, pick);
    CleanAfter(st, n, t, rest);
  }

  lemma StepClean(st: State, t: nat, pick: nat, left: bool, event: Event, spawn: nat)
    requires Inv(st) && CleanInv(st) && t in st.threads
    ensures CleanInv(ThreadStep(st, t, st.threads[t], pick, left, event, spawn))
  {
    hide Inv, CleanInv, StopperStep, PipeCloserStep, NodeCloserStep, RunStep, StopInv, PipePcInv, NodePcInv, Mild,
      Place, NewIsClaimless;
    InvThread(st, t);
    match st.threads[t]
    case Stopper(s, pc) => StopperClean(st, t, s, pc);
    case Runner(s, _, _) =>
      RunMild(st, t, st.threads[t], left, event, spawn);
      Claimed(st, RunStep(st, t, st.threads[t], left, event, spawn));
    case Outbound(s) => OutboundClean(st, t, s);
    case PipeCloser(p, pc) => PipeCloserClean(st, t, p, pc, pick);
    case NodeCloser(pc) => NodeCloserClean(st, t, pc, pick);
  }

  lemma Claimed(st: State, n: State)
    requires CleanInv(st) && Mild(st, n) && NewIsClaimless(st, n)
    ensures CleanInv(n)
  {
    hide CleanInv, Mild;
    MildKeeps(st, n);
  }

  lemma OutboundClean(st: State, t: nat, s: nat)
    requires CleanInv(st) && t in st.threads && s in st.sessions
    ensures CleanInv(EndThread(WithSession(st, s, FinishWork(st.sessions[s])), t))
  {
    hide CleanInv;
    MildKeeps(st, EndThread(WithSession(st, s, FinishWork(st.sessions[s])), t));
  }

  lemma AddPipeClean(st: State, p: nat)
    requires CleanInv(st) && Inv(st) && p !in st.pipes
    ensures CleanInv(AddPipe(st, p))
  {
    hide Inv;
    var n := AddPipe(st, p);
    forall s | s in n.sessions
      ensures CleanSession(n, s)
    {
      InvPipe(st, s);
      assert CleanSession(st, s);
    }
    forall q | q in n.pipes
      ensures CleanPipe(n, q)
    {
      assert q != p ==> CleanPipe(st, q);
    }
    forall u | u in n.threads
      ensures CleanThread(n, n.threads[u])
    {
      assert CleanThread(st, st.threads[u]);
      InvThread(st, u);
      ThreadPipes(st, u, st.threads[u]);
    }
  }

  lemma ThreadPipes(st: State, t: nat, th: Thread)
    requires ThreadInv(st, t, th)
    ensures Removed(th).Some? ==> Removed(th).value in st.pipes
  {
    hide AllStopped, StopPcInv;
  }

  lemma AddSessionClean(st: State, p: nat, id: string, s: nat)
    requires CleanInv(st) && p in st.pipes && !st.pipes[p].closed && s !in st.sessions
    requires forall u | u in st.threads && StopOf(st.threads[u]).Some? :: StopOf(st.threads[u]).value.0 in st.sessions
    ensures CleanInv(AddSession(st, p, id, s))
  {
    var n := AddSession(st, p, id, s);
    forall x | x in n.sessions
      ensures CleanSession(n, x)
    {
      assert x != s ==> CleanSession(st, x);
    }
    forall q | q in n.pipes
      ensures CleanPipe(n, q)
    {
      assert CleanPipe(st, q);
    }
    forall u | u in n.threads
      ensures CleanThread(n, n.threads[u])
    {
      assert CleanThread(st, st.threads[u]);
    }
  }

  lemma StopsExist(st: State)
    requires Inv(st)
    ensures forall u | u in st.threads && StopOf(st.threads[u]).Some? :: StopOf(st.threads[u]).value.0 in st.sessions
  {
    hide Inv;
    forall u | u in st.threads && StopOf(st.threads[u]).Some?
      ensures StopOf(st.threads[u]).value.0 in st.sessions
    {
      InvThread(st, u);
      StopExists(st, u, st.threads[u]);
    }
  }

  lemma StopExists(st: State, t: nat, th: Thread)
    requires ThreadInv(st, t, th) && StopOf(th).Some?
    ensures StopOf(th).value.0 in st.sessions
  {
    hide StopPcInv, AllStopped;
  }

  lemma BeginClean(st: State, t: nat, th: Thread)
    requires CleanInv(st) && Startable(st, th)
    ensures CleanInv(WithThread(st, t, th))
  {
    hide CleanInv;
    MildKeeps(st, WithThread(st, t, th));
  }

  lemma InstallClean(st: State, s: nat, sess: Session, t: Option<nat>)
    requires CleanInv(st) && s in st.sessions
    requires (exists c :: sess == Install(st.sessions[s], c)) || sess == Admit(st.sessions[s])
    ensures var n := WithSession(st, s, sess); CleanInv(if t.Some? then WithThread(n, t.value, Outbound(s)) else n)
  {
    hide CleanInv, Mild;
    var n := WithSession(st, s, sess);
    MildSession(st, s, sess);
    MildPlace(st, n, if t.Some? then t.value else 0, if t.Some? then Some(Outbound(s)) else None);
    MildKeeps(st, if t.Some? then WithThread(n, t.value, Outbound(s)) else n);
  }

  lemma CancelClean(st: State)
    requires CleanInv(st)
    ensures CleanInv(Next(st, CancelParent))
  {
    var n := Next(st, CancelParent);
    assert forall s | s in n.sessions :: CleanSession(st, s) ==> CleanSession(n, s);
    assert forall p | p in n.pipes :: CleanPipe(st, p) ==> CleanPipe(n, p);
    assert forall t | t in n.threads :: CleanThread(st, st.threads[t]) ==> CleanThread(n, n.threads[t]);
  }

  lemma NextClean(st: State, a: Action)
    requires Inv(st) && CleanInv(st)
    ensures CleanInv(Next(st, a))
  {
    hide Inv, CleanInv, ThreadStep, Startable, SessionCancelled, PipeCancelled, Install, Admit;
    match a
    case CancelParent => CancelClean(st);
    case NewPipeRuntime(p) => if p !in st.pipes { AddPipeClean(st, p); }
    case NewSessionOf(p, id, s) =>
      if p in st.pipes && !st.pipes[p].closed && s !in st.sessions {
        StopsExist(st);
        AddSessionClean(st, p, id, s);
      }
    case SetActiveCarrier(s, c) => if s in st.sessions { InstallClean(st, s, Install(st.sessions[s], c), None); }
    case Begin(t, th) => if Startable(st, th) { BeginClean(st, t, th); }
    case BeginOutbound(t, s) => if s in st.sessions { InstallClean(st, s, Admit(st.sessions[s]), Some(t)); }
    case Step(t, pick, left, event, spawn) =>
      if t in st.threads {
        StepClean(st, t, pick, left, event, spawn);
      }
  }

  lemma {:induction false} RunClean(actions: seq<Action>, tr: seq<State>, n: nat)
    requires IsRun(actions, tr) && n < |tr|
    ensures CleanInv(tr[n])
  {
    hide Inv, CleanInv, Next;
    if n == 0 {
      assert CleanInv(INIT) by { InitClean(); }
    } else {
      RunClean(actions, tr, n - 1);
      RunInv(actions, tr, n - 1);
      NextClean(tr[n - 1], actions[n - 1]);
    }
  }

  lemma InitClean()
    ensures CleanInv(INIT)
  {}

  /**
   In every reachable state: a session whose stopDone is closed is not in its registry, has its context
   cancelled and its target closed; a closed Pipe is cancelled and has an empty registry; and a Pipe whose
   Close is done is not in the Node.
   */
  lemma ClosedLeavesNothing(actions: seq<Action>, tr: seq<State>, n: nat, s: nat, p: nat)
    requires IsRun(actions, tr) && n < |tr|
    ensures s in tr[n].sessions && tr[n].sessions[s].stopDone ==>
      var sess := tr[n].sessions[s];
      && sess.cancelled && sess.targetClosed
      && !(sess.pipe in tr[n].pipes && sess.id in tr[n].pipes[sess.pipe].registry
           && tr[n].pipes[sess.pipe].registry[sess.id] == s)
    ensures p in tr[n].pipes && tr[n].pipes[p].closed ==>
      tr[n].pipes[p].cancelled && tr[n].pipes[p].registry == map[]
    ensures p in tr[n].pipes && tr[n].pipes[p].done ==> p !in tr[n].node.pipes
  {
    hide Next;
    RunClean(actions, tr, n);
    assert s in tr[n].sessions ==> CleanSession(tr[n], s);
    assert p in tr[n].pipes ==> CleanPipe(tr[n], p);
  }
}
