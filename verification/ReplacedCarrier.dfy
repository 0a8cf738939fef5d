/**
 A run in which SetActiveCarrier replaces the carrier of a running pump: Stop resets only the new carrier
 and closes the target, the pump's reader of the target ends, and its reader of the old carrier waits.
 */
module ReplacedCarrier {
  import opened Wrappers
  import opened Sessions
  import opened SessionProgress

  const IDLE := NewSession(0, "a").(active := Some(1), installs := [1])
  const SERVED := IDLE.(workCount := 1)
  const REPLACED := SERVED.(active := Some(2), installs := [1, 2])
  const STOPPING := REPLACED.(stopping := true, closer := 1, captured := Some(2), active := None, closers := 1)
  const RESET := STOPPING.(cancelled := true, ended := [Terminal(2, false)])
  const CLOSED := RESET.(targetClosed := true)

  /** The pump, reading its carrier; its other direction is at b. */
  function Reader(b: Direction): Thread {
    Runner(0, Pumping(1, Reading, b), true)
  }

  const PUMP := Reader(Reading)

  function Turn(t: nat): Action {
    Step(t, 0, true, Event(true, Nil), 9)
  }

  /** The read of the closed target fails; then that direction ends. */
  const TARGET_FAILS := Step(0, 0, false, Event(false, Error), 9)

  function One(sess: Session, threads: map<nat, Thread>): State {
    State(Node(false, false, false, {0}), map[0 := Pipe(false, false, false, map["a" := 0])], map[0 := sess], threads)
  }

  function Stopping(sess: Session, pc: StopPc): State {
    One(sess, map[0 := PUMP, 1 := Stopper(0, pc)])
  }

  const RUN: seq<Action> := [
    NewPipeRuntime(0), NewSessionOf(0, "a", 0), SetActiveCarrier(0, 1),
    Begin(0, Runner(0, Admitting, true)), Turn(0), Turn(0), SetActiveCarrier(0, 2),
    Begin(1, Stopper(0, Entering)), Turn(1), Turn(1), Turn(1), Turn(1),
    TARGET_FAILS, TARGET_FAILS]

  const TRACE: seq<State> := [
    INIT,
    State(Node(false, false, false, {0}), map[0 := Pipe(false, false, false, map[])], map[], map[]),
    One(NewSession(0, "a"), map[]),
    One(IDLE, map[]),
    One(IDLE, map[0 := Runner(0, Admitting, true)]),
    One(SERVED, map[0 := Runner(0, Starting, true)]),
    One(SERVED, map[0 := PUMP]),
    One(REPLACED, map[0 := PUMP]),
    Stopping(REPLACED, Entering),
    Stopping(STOPPING, Closing(0)),
    Stopping(STOPPING.(cancelled := true), Closing(1)),
    Stopping(RESET, Closing(2)),
    Stopping(CLOSED, Closing(3)),
    One(CLOSED, map[0 := Reader(Failing), 1 := Stopper(0, Closing(3))]),
    One(CLOSED, map[0 := Reader(Ended(false)), 1 := Stopper(0, Closing(3))])]

  lemma Create()
    ensures Next(TRACE[0], RUN[0]) == TRACE[1] && Next(TRACE[1], RUN[1]) == TRACE[2]
  {}

  lemma Install()
    ensures Next(TRACE[2], RUN[2]) == TRACE[3] && Next(TRACE[3], RUN[3]) == TRACE[4]
  {
    assert [] + [1] == [1];
  }

  lemma Pump()
    ensures Next(TRACE[4], RUN[4]) == TRACE[5] && Next(TRACE[5], RUN[5]) == TRACE[6]
  {
    hide StopStep, PipeStep, NodeStep, PumpStep, RequestStop, FinishWork;
  }

  lemma Replace()
    ensures Next(TRACE[6], RUN[6]) == TRACE[7] && Next(TRACE[7], RUN[7]) == TRACE[8]
  {
    assert [1] + [2] == [1, 2];
  }

  lemma BeginsStop()
    ensures Next(TRACE[8], RUN[8]) == TRACE[9]
  {
    hide RunStep, PipeStep, NodeStep, FinishWork, EndCarrier, Unregister;
  }

  lemma Cancels()
    ensures Next(TRACE[9], RUN[9]) == TRACE[10]
  {
    hide RunStep, PipeStep, NodeStep, FinishWork, BeginStop, EndCarrier, Unregister;
  }

  lemma Resets()
    ensures Next(TRACE[10], RUN[10]) == TRACE[11]
  {
    hide RunStep, PipeStep, NodeStep, FinishWork, BeginStop, Unregister;
    assert [] + [Terminal(2, false)] == [Terminal(2, false)];
  }

  lemma ClosesTarget()
    ensures Next(TRACE[11], RUN[11]) == TRACE[12]
  {
    hide RunStep, PipeStep, NodeStep, FinishWork, BeginStop, EndCarrier, Unregister;
  }

  lemma TargetFails()
    ensures Next(TRACE[12], RUN[12]) == TRACE[13]
  {
    hide StopStep, PipeStep, NodeStep, FinishWork, BeginStop;
  }

  lemma TargetEnds()
    ensures Next(TRACE[13], RUN[13]) == TRACE[14]
  {
    hide StopStep, PipeStep, NodeStep, FinishWork, BeginStop;
  }

  lemma EndsWedged()
    ensures Wedged(TRACE[14], 0) && TRACE[14].sessions == map[0 := CLOSED]
  {}

  /** The run is a run; it ends wedged, with the first carrier neither closed nor reset. */
  lemma ReplacedCarrierWedges()
    ensures IsRun(RUN, TRACE) && Wedged(TRACE[14], 0)
    ensures 1 in TRACE[14].sessions[0].installs && TerminalCount(TRACE[14].sessions[0].ended, 1) == 0
  {
    hide Next, Wedged, One, Stopping;
    Create();
    Install();
    Pump();
    Replace();
    BeginsStop();
    Cancels();
    Resets();
    ClosesTarget();
    TargetFails();
    TargetEnds();
    EndsWedged();
  }

  lemma {:induction false} SameStart(actions: seq<Action>, tr: seq<State>, k: nat)
    requires IsRun(actions, tr) && RUN <= actions && k <= |RUN|
    ensures tr[k] == TRACE[k]
  {
    hide Next, Wedged, One, Stopping;
    ReplacedCarrierWedges();
    if k > 0 {
      SameStart(actions, tr, k - 1);
      assert actions[k - 1] == RUN[k - 1];
    }
  }

  /** However that run goes on, Stop has not finished as long as the replaced carrier gives no event. */
  lemma StopWaits(actions: seq<Action>, tr: seq<State>, j: nat)
    requires IsRun(actions, tr) && RUN <= actions && |RUN| <= j <= |actions|
    requires forall k | |RUN| <= k < j :: Silent(tr[k], 0, actions[k])
    ensures 0 in tr[j].sessions && !tr[j].sessions[0].stopDone
  {
    hide Next, Silent, One, Stopping;
    SameStart(actions, tr, |RUN|);
    EndsWedged();
    WedgeLasts(actions, tr, 0, |RUN|, j);
  }
}
