/**
 The two mutex-guarded objects of a session's life, updated in place: the sessionPump and its
 PipeRuntime's sessionRegistry (internal/runtime/session.go:109-309). Each method body is one critical
 section; its contract is the transition that the interleaved model takes.
 */
module SessionObjects {
  import opened Wrappers
  import opened Sessions

  class SessionPump {
    var stopping: bool
    var workCount: int
    var workClosed: bool
    var activeCarrier: Option<Carrier>
    ghost var model: Session

    ghost predicate Valid()
      reads this
    {
      && stopping == model.stopping && workCount == model.workCount
      && workClosed == model.workClosed && activeCarrier == model.active
      && (workClosed <==> stopping && workCount == 0)
    }

    constructor (pipe: nat, id: string)
      ensures Valid() && model == NewSession(pipe, id)
    {
      stopping, workCount, workClosed, activeCarrier := false, 0, false, None;
      model := NewSession(pipe, id);
    }

    /** `cancelled` is whether the session's context has an error. */
    method SetActiveCarrier(c: Carrier, cancelled: bool) returns (ok: bool)
      requires Valid()
      modifies this
      ensures Valid() && ok == (!old(stopping) && !cancelled)
      ensures model == if ok then Install(old(model), c) else old(model)
      ensures activeCarrier == if ok then Some(c) else old(activeCarrier)
      ensures stopping == old(stopping) && workCount == old(workCount) && workClosed == old(workClosed)
    {
      if stopping || cancelled {
        return false;
      }
      activeCarrier := Some(c);
      model := Install(model, c);
      return true;
    }

    method AdmitWork(cancelled: bool) returns (ok: bool)
      requires Valid()
      modifies this
      ensures Valid() && ok == (!old(stopping) && !cancelled)
      ensures model == if ok then Admit(old(model)) else old(model)
      ensures ok ==> !workClosed
      ensures workCount == old(workCount) + (if ok then 1 else 0)
      ensures stopping == old(stopping) && activeCarrier == old(activeCarrier)
    {
      if stopping || cancelled {
        return false;
      }
      workCount := workCount + 1;
      model := Admit(model);
      return true;
    }

    method CloseWorkDoneLocked()
      requires stopping == model.stopping && workCount == model.workCount
      requires workClosed == model.workClosed && activeCarrier == model.active
      requires workClosed ==> stopping && workCount == 0
      modifies this
      ensures Valid() && model == CloseWorkDone(old(model))
      ensures stopping == old(stopping) && workCount == old(workCount) && activeCarrier == old(activeCarrier)
    {
      if stopping && workCount == 0 && !workClosed {
        workClosed := true;
      }
      model := CloseWorkDone(model);
    }

    /** The second result is the underflow panic. */
    method FinishWork() returns (panicked: bool)
      requires Valid() && workCount >= 0
      modifies this
      ensures panicked <==> old(workCount) == 0
      ensures !panicked ==> Valid() && model == Sessions.FinishWork(old(model))
      ensures !panicked ==> (workClosed <==> stopping && old(workCount) == 1)
      ensures workCount == old(workCount) - 1 && stopping == old(stopping) && activeCarrier == old(activeCarrier)
    {
      workCount := workCount - 1;
      if workCount < 0 {
        return true;
      }
      model := model.(workCount := model.workCount - 1);
      CloseWorkDoneLocked();
      return false;
    }

    /** Exactly one call becomes closer; it takes the active carrier with it. */
    method BeginStop(ghost caller: nat) returns (active: Option<Carrier>, closer: bool)
      requires Valid()
      modifies this
      ensures Valid() && stopping && closer == !old(stopping)
      ensures closer ==>
        model == Sessions.BeginStop(old(model), caller) && active == model.captured && activeCarrier == None
      ensures !closer ==> model == old(model) && active == None && workClosed == old(workClosed)
      ensures closer ==> active == old(activeCarrier) && (workClosed <==> workCount == 0)
      ensures workCount == old(workCount)
    {
      if stopping {
        return None, false;
      }
      stopping := true;
      active := activeCarrier;
      activeCarrier := None;
      model := model.(stopping := true, closer := caller, captured := model.active, active := None,
                      closers := model.closers + 1);
      CloseWorkDoneLocked();
      closer := true;
    }
  }

  datatype RegisterError = InvalidSessionId | RuntimeClosed | DuplicateSessionId

  class SessionRegistry {
    var closed: bool
    var sessions: map<string, nat>

    constructor ()
      ensures !closed && sessions == map[]
    {
      closed, sessions := false, map[];
    }

    method Get(id: string) returns (p: Option<nat>)
      ensures p == if !closed && id in sessions then Some(sessions[id]) else None
    {
      if closed || id !in sessions {
        return None;
      }
      return Some(sessions[id]);
    }

    method Register(id: string, p: nat) returns (r: Result<(), RegisterError>)
      modifies this
      ensures r.Success? <==> id != "" && !old(closed) && id !in old(sessions)
      ensures r.Failure? ==>
        r.error == (if id == "" then InvalidSessionId else if old(closed) then RuntimeClosed else DuplicateSessionId)
      ensures closed == old(closed) && sessions == if r.Success? then old(sessions)[id := p] else old(sessions)
    {
      if id == "" {
        return Failure(InvalidSessionId);
      }
      if closed {
        return Failure(RuntimeClosed);
      }
      if id in sessions {
        return Failure(DuplicateSessionId);
      }
      sessions := sessions[id := p];
      return Success(());
    }

    /** Removes the entry only while it still is this session's own. */
    method Remove(id: string, p: nat)
      modifies this
      ensures closed == old(closed)
      ensures forall k :: k in sessions <==> k in old(sessions) && !(k == id && old(sessions)[k] == p)
      ensures forall k | k in sessions :: sessions[k] == old(sessions)[k]
    {
      if id in sessions && sessions[id] == p {
        sessions := sessions - {id};
      }
    }

    /** The first call hands out every registered session, once per entry; later calls none. */
    method CloseAll() returns (all: seq<nat>)
      modifies this
      ensures closed && sessions == if old(closed) then old(sessions) else map[]
      ensures old(closed) ==> all == []
      ensures !old(closed) ==> |all| == |old(sessions)| && forall p :: p in all <==> p in old(sessions).Values
    {
      if closed {
        return [];
      }
      closed := true;
      all := [];
      var todo := sessions.Keys;
      while todo != {}
        invariant closed && sessions == old(sessions) && todo <= sessions.Keys
        invariant |all| + |todo| == |sessions|
        invariant forall p :: p in all <==> exists id | id in sessions && id !in todo :: sessions[id] == p
      {
        var id :| id in todo;
        ghost var before := all;
        all := all + [sessions[id]];
        todo := todo - {id};
        forall p
          ensures p in all <==> exists k | k in sessions && k !in todo :: sessions[k] == p
        {
          assert p in all <==> p in before || p == sessions[id];
        }
      }
      sessions := map[];
    }
  }
}
