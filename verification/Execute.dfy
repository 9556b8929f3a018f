/** Concurrent `Execute` calls of one node (tss/coordinator.go): who holds a session, and how
    often each process locks and unlocks the key share store. Atomic steps are the critical
    sections under `processLock` and the calls made between them, interleaved in any way. */
module Execute {
  import opened Wrappers
  import opened Readiness

  type CallId = nat

  /** A process of a call, with the number of times it took and released the key share lock. */
  datatype Proc = Proc(kind: Kind, locks: nat, unlocks: nat)

  datatype Phase = Waiting | Rejected | Holding | Stopping(next: nat) | Finished

  /** `timedOut`: the watch loop saw its ticker and called `Stop`; `ran`: `Run` of the first
      process got past its `Started` guard, which may happen even after the call is over. */
  datatype Call = Call(session: string, procs: seq<Proc>, phase: Phase, timedOut: bool, ran: bool)

  datatype State = State(pendingProcesses: map<string, bool>, calls: map<CallId, Call>)

  predicate Pending(pending: map<string, bool>, session: string) {
    session in pending && pending[session]
  }

  /** The map of pending processes, and its two critical sections. */
  class Coordinator {
    var pendingProcesses: map<string, bool>

    constructor ()
      ensures pendingProcesses == map[]
    {
      pendingProcesses := map[];
    }

    method Enter(sessionID: string) returns (accepted: bool)
      modifies this
      ensures accepted <==> !Pending(old(pendingProcesses), sessionID)
      ensures !accepted ==> unchanged(this)
      ensures accepted ==> pendingProcesses == old(pendingProcesses)[sessionID := true]
      ensures forall c: Call | c.session == sessionID && c.phase == Waiting ::
                && pendingProcesses == PendingAfter(old(pendingProcesses), c, Action.Enter)
                && Act(old(pendingProcesses), c, Action.Enter).phase == if accepted then Holding else Rejected
    {
      if sessionID in pendingProcesses && pendingProcesses[sessionID] {
        return false;
      }
      pendingProcesses := pendingProcesses[sessionID := true];
      return true;
    }

    method Leave(sessionID: string)
      modifies this
      ensures pendingProcesses == old(pendingProcesses)[sessionID := false]
      ensures forall c: Call | c.session == sessionID && c.phase == Holding ::
                pendingProcesses == PendingAfter(old(pendingProcesses), c, Action.Leave)
    {
      pendingProcesses := pendingProcesses[sessionID := false];
    }
  }

  /** Resharing takes the lock when it is constructed, keygen and signing do not keep it. */
  function NewProc(kind: Kind): Proc { Proc(kind, if kind == Resharing then 1 else 0, 0) }

  /** `Stop` of keygen and resharing releases the lock; `Stop` of signing does not touch it. */
  function Stopped(p: Proc): Proc { if p.kind == Signing then p else p.(unlocks := p.unlocks + 1) }

  /** `Run` of keygen takes the lock. */
  function Ran(p: Proc): Proc { if p.kind == Keygen then p.(locks := p.locks + 1) else p }

  datatype Action = Enter | Timeout | Run | Leave | StopNext

  /** The next state of a call taking the action; the pending map is handled by `Step`. */
  function Act(pending: map<string, bool>, c: Call, a: Action): Call {
    match a
    case Enter =>
      if c.phase != Waiting then c
      else if Pending(pending, c.session) then c.(phase := Rejected) else c.(phase := Holding)
    case Timeout =>
      if c.phase != Holding || c.timedOut || c.procs == [] then c
      else c.(timedOut := true, procs := c.procs[0 := Stopped(c.procs[0])])
    case Run =>
      if c.phase in {Waiting, Rejected} || c.ran || c.procs == [] then c
      else c.(ran := true, procs := c.procs[0 := Ran(c.procs[0])])
    case Leave =>
      if c.phase != Holding then c else c.(phase := Stopping(0))
    case StopNext =>
      if !c.phase.Stopping? then c
      else if c.phase.next < |c.procs| then
        c.(phase := Stopping(c.phase.next + 1), procs := c.procs[c.phase.next := Stopped(c.procs[c.phase.next])])
      else c.(phase := Finished)
  }

  function PendingAfter(pending: map<string, bool>, c: Call, a: Action): map<string, bool> {
    if a == Enter && c.phase == Waiting && !Pending(pending, c.session) then pending[c.session := true]
    else if a == Leave && c.phase == Holding then pending[c.session := false]
    else pending
  }

  function Step(s: State, k: CallId, a: Action): State
    requires k in s.calls
  {
    State(PendingAfter(s.pendingProcesses, s.calls[k], a),
          s.calls[k := Act(s.pendingProcesses, s.calls[k], a)])
  }

  ghost predicate Init(s: State) {
    && (forall session :: !Pending(s.pendingProcesses, session))
    && forall k | k in s.calls ::
         && s.calls[k].phase == Waiting && !s.calls[k].timedOut && !s.calls[k].ran
         && forall j | 0 <= j < |s.calls[k].procs| :: s.calls[k].procs[j] == NewProc(s.calls[k].procs[j].kind)
  }

  predicate IsStep(s: State, s': State, k: CallId, a: Action) { k in s.calls && s' == Step(s, k, a) }

  ghost predicate Next(s: State, s': State) { exists k, a :: IsStep(s, s', k, a) }

  ghost predicate StepTo(run: seq<State>, i: nat)
    requires 0 < i < |run|
  {
    Next(run[i - 1], run[i])
  }

  ghost predicate IsRun(run: seq<State>) {
    && run != [] && Init(run[0])
    && forall i | 0 < i < |run| :: StepTo(run, i)
  }

  // ---- mutual exclusion -----------------------------------------------------------------

  ghost predicate Holds(s: State, k: CallId, session: string) {
    k in s.calls && s.calls[k].session == session && s.calls[k].phase == Holding
  }

  ghost predicate Exclusive(s: State) {
    && (forall session :: Pending(s.pendingProcesses, session) <==> exists k :: Holds(s, k, session))
    && forall k, k', session | Holds(s, k, session) && Holds(s, k', session) :: k == k'
  }

  lemma HoldsAfter(s: State, s': State, k: CallId, a: Action, k': CallId, session: string)
    requires IsStep(s, s', k, a)
    ensures Holds(s', k', session) <==>
            if k' == k then session == s.calls[k].session && s'.calls[k].phase == Holding else Holds(s, k', session)
  {}

  lemma StepExclusive(s: State, s': State, k: CallId, a: Action)
    requires Exclusive(s) && IsStep(s, s', k, a)
    ensures Exclusive(s')
  {
    forall session ensures Pending(s'.pendingProcesses, session) <==> exists k :: Holds(s', k, session) {
      SlotAfter(s, s', k, a, session);
    }
    forall k1, k2, session | Holds(s', k1, session) && Holds(s', k2, session) ensures k1 == k2 {
      HoldsAfter(s, s', k, a, k1, session);
      HoldsAfter(s, s', k, a, k2, session);
      if k1 != k || k2 != k {
        assert Pending(s.pendingProcesses, session);
        assert s.calls[k].phase == Holding ==> Holds(s, k, s.calls[k].session);
      }
    }
  }

  lemma SlotAfter(s: State, s': State, k: CallId, a: Action, session: string)
    requires Exclusive(s) && IsStep(s, s', k, a)
    ensures Pending(s'.pendingProcesses, session) <==> exists k' :: Holds(s', k', session)
  {
    if s.calls[k].phase == Holding {
      assert Holds(s, k, s.calls[k].session);
    }
    HoldsAfter(s, s', k, a, k, session);
    if Pending(s.pendingProcesses, session) {
      var k' :| Holds(s, k', session);
      HoldsAfter(s, s', k, a, k', session);
    }
    if k' :| Holds(s', k', session) {
      HoldsAfter(s, s', k, a, k', session);
    }
  }

  lemma {:induction false} RunExclusive(run: seq<State>, i: nat)
    requires IsRun(run) && i < |run|
    ensures Exclusive(run[i])
  {
    if i > 0 {
      RunExclusive(run, i - 1);
      assert StepTo(run, i);
      var k, a :| IsStep(run[i - 1], run[i], k, a);
      StepExclusive(run[i - 1], run[i], k, a);
    }
  }

  /** For any interleaving, a session is marked pending exactly while one accepted call holds
      it, and never by two calls at once. */
  lemma MutualExclusion(run: seq<State>, i: nat, session: string)
    requires IsRun(run) && i < |run|
    ensures Pending(run[i].pendingProcesses, session) <==> exists k :: Holds(run[i], k, session)
    ensures forall k, k' | Holds(run[i], k, session) && Holds(run[i], k', session) :: k == k'
  {
    RunExclusive(run, i);
  }

  /** Only the call that holds a session ever clears its mark; a rejected call does not. */
  lemma OnlyHolderClears(run: seq<State>, i: nat, session: string)
    requires IsRun(run) && i + 1 < |run|
    requires Pending(run[i].pendingProcesses, session) && !Pending(run[i + 1].pendingProcesses, session)
    ensures exists k :: Holds(run[i], k, session) && k in run[i + 1].calls && run[i + 1].calls[k].phase == Stopping(0)
  {
    assert StepTo(run, i + 1);
    var k, a :| IsStep(run[i], run[i + 1], k, a);
    assert Holds(run[i], k, session);
  }

  // ---- lock balance ---------------------------------------------------------------------

  function Bit(b: bool): nat { if b then 1 else 0 }

  predicate WasStopped(c: Call, j: nat) {
    c.phase.Finished? || (c.phase.Stopping? && j < c.phase.next)
  }

  /** Locks and unlocks of process `j` follow from how the call went. */
  predicate Counted(c: Call, j: nat)
    requires j < |c.procs|
  {
    var p := c.procs[j];
    && p.locks == Bit(p.kind == Resharing) + Bit(p.kind == Keygen && j == 0 && c.ran)
    && p.unlocks == if p.kind == Signing then 0 else Bit(WasStopped(c, j)) + Bit(j == 0 && c.timedOut)
  }

  predicate CallInv(c: Call) {
    && (c.phase in {Waiting, Rejected} ==> !c.timedOut && !c.ran)
    && (c.phase.Stopping? ==> c.phase.next <= |c.procs|)
    && forall j | 0 <= j < |c.procs| :: Counted(c, j)
  }

  lemma ActKeepsInv(pending: map<string, bool>, c: Call, a: Action)
    requires CallInv(c)
    ensures CallInv(Act(pending, c, a))
  {
    var c' := Act(pending, c, a);
    forall j | 0 <= j < |c'.procs| ensures Counted(c', j) {
      assert Counted(c, j);
      ActOnProc(pending, c, a, j);
    }
  }

  lemma ActOnProc(pending: map<string, bool>, c: Call, a: Action, j: nat)
    requires j < |c.procs| && Counted(c, j)
    requires c.phase in {Waiting, Rejected} ==> !c.timedOut && !c.ran
    requires c.phase.Stopping? ==> c.phase.next <= |c.procs|
    ensures |Act(pending, c, a).procs| == |c.procs| && Counted(Act(pending, c, a), j)
  {
    match a
    case _ =>
  }

  lemma {:induction false} RunCallInv(run: seq<State>, i: nat, k: CallId)
    requires IsRun(run) && i < |run| && k in run[i].calls
    ensures CallInv(run[i].calls[k])
  {
    if i == 0 {
      InitCallInv(run[0], k);
    } else {
      var act := StepOf(run, i, k);
      RunCallInv(run, i - 1, k);
      if act.Some? {
        ActKeepsInv(run[i - 1].pendingProcesses, run[i - 1].calls[k], act.value);
      }
    }
  }

  lemma InitCallInv(s: State, k: CallId)
    requires Init(s) && k in s.calls
    ensures CallInv(s.calls[k])
  {
    forall j | 0 <= j < |s.calls[k].procs| ensures Counted(s.calls[k], j) {
      assert s.calls[k].procs[j] == NewProc(s.calls[k].procs[j].kind);
    }
  }

  /** What happened to call `k` in the step to the i-th state. */
  lemma StepOf(run: seq<State>, i: nat, k: CallId) returns (act: Option<Action>)
    requires IsRun(run) && 0 < i < |run| && k in run[i].calls
    ensures k in run[i - 1].calls
    ensures run[i].calls[k] == if act.Some? then Act(run[i - 1].pendingProcesses, run[i - 1].calls[k], act.value)
                               else run[i - 1].calls[k]
  {
    assert StepTo(run, i);
    var k', a :| IsStep(run[i - 1], run[i], k', a);
    act := if k' == k then Some(a) else None;
  }

  // ---- the history of one call ----------------------------------------------------------

  /** `Stop` of process `j` has been called. */
  predicate StopCalled(c: Call, j: nat) { WasStopped(c, j) || (j == 0 && c.timedOut) }

  /** Nothing that has happened to a call is undone. */
  ghost predicate Later(c: Call, c': Call) {
    && |c'.procs| == |c.procs|
    && (forall j | 0 <= j < |c.procs| :: c'.procs[j].kind == c.procs[j].kind)
    && (c.ran ==> c'.ran) && (c.timedOut ==> c'.timedOut)
    && (c'.phase in {Waiting, Rejected} ==> c.phase in {Waiting, Rejected})
    && (forall j: nat | StopCalled(c, j) :: StopCalled(c', j))
  }

  lemma ActLater(pending: map<string, bool>, c: Call, a: Action)
    ensures Later(c, Act(pending, c, a))
    ensures forall j: nat | StopCalled(Act(pending, c, a), j) && !StopCalled(c, j) && j < |c.procs| ::
              Act(pending, c, a).ran == c.ran
  {
    match a
    case _ =>
  }

  lemma {:induction false} RunLater(run: seq<State>, i: nat, j: nat, k: CallId)
    requires IsRun(run) && i <= j < |run| && k in run[j].calls
    ensures k in run[i].calls && Later(run[i].calls[k], run[j].calls[k])
    decreases j
  {
    if i < j {
      var act := StepOf(run, j, k);
      RunLater(run, i, j - 1, k);
      if act.Some? {
        ActLater(run[j - 1].pendingProcesses, run[j - 1].calls[k], act.value);
      }
    }
  }

  /** In no state of the run has the process released the lock more often than it took it; such a
      release would end the program, unless another process held the mutex and lost it. */
  ghost predicate NeverOverReleased(run: seq<State>, k: CallId, j: nat) {
    forall i | 0 <= i < |run| && k in run[i].calls && j < |run[i].calls[k].procs| ::
      run[i].calls[k].procs[j].unlocks <= run[i].calls[k].procs[j].locks
  }

  /** The process was stopped only by the cleanup, and if it is a keygen process, then after its
      `Run` had taken the lock. */
  ghost predicate StoppedInOrder(run: seq<State>, k: CallId, j: nat)
    requires run != [] && k in run[|run| - 1].calls && j < |run[|run| - 1].calls[k].procs|
  {
    var c := run[|run| - 1].calls[k];
    && !(j == 0 && c.timedOut)
    && (c.procs[j].kind == Keygen ==> exists i :: RanUnstopped(run, i, k, j))
  }

  /** In the i-th state `Run` of process `j` has taken the lock and no `Stop` has been called. */
  ghost predicate RanUnstopped(run: seq<State>, i: nat, k: CallId, j: nat) {
    i < |run| && k in run[i].calls && j == 0 && run[i].calls[k].ran && !StopCalled(run[i].calls[k], j)
  }

  /** A keygen process that never releases too often had run before its first `Stop`. */
  lemma {:induction false} FirstStop(run: seq<State>, k: CallId, j: nat, i: nat)
    requires IsRun(run) && i < |run| && k in run[i].calls && j < |run[i].calls[k].procs|
    requires run[i].calls[k].procs[j].kind == Keygen && StopCalled(run[i].calls[k], j)
    requires NeverOverReleased(run, k, j)
    ensures exists i' :: RanUnstopped(run, i', k, j)
  {
    RunCallInv(run, i, k);
    assert Counted(run[i].calls[k], j);
    if i > 0 {
      var act := StepOf(run, i, k);
      RunLater(run, i - 1, i, k);
      if StopCalled(run[i - 1].calls[k], j) {
        FirstStop(run, k, j, i - 1);
      } else {
        ActLater(run[i - 1].pendingProcesses, run[i - 1].calls[k], act.value);
        assert RanUnstopped(run, i - 1, k, j);
      }
    }
  }

  /** The converse, for one state. */
  lemma OrderedRelease(run: seq<State>, k: CallId, j: nat, i: nat)
    requires IsRun(run) && i < |run| && k in run[|run| - 1].calls && j < |run[|run| - 1].calls[k].procs|
    requires StoppedInOrder(run, k, j)
    ensures k in run[i].calls && j < |run[i].calls[k].procs|
    ensures run[i].calls[k].procs[j].unlocks <= run[i].calls[k].procs[j].locks
  {
    RunLater(run, i, |run| - 1, k);
    RunCallInv(run, i, k);
    assert Counted(run[i].calls[k], j);
    if run[|run| - 1].calls[k].procs[j].kind == Keygen {
      var r :| RanUnstopped(run, r, k, j);
      if i <= r {
        RunLater(run, i, r, k);
      } else {
        RunLater(run, r, i, k);
      }
    }
  }

  /** Once a call is cleaned up: all along, no process of it has released the key share lock more
      often than it took it, exactly if the process is a signing, or was stopped in order. */
  lemma LockDiscipline(run: seq<State>, k: CallId, j: nat)
    requires IsRun(run) && k in run[|run| - 1].calls && j < |run[|run| - 1].calls[k].procs|
    requires run[|run| - 1].calls[k].phase == Finished
    ensures NeverOverReleased(run, k, j) <==>
            run[|run| - 1].calls[k].procs[j].kind == Signing || StoppedInOrder(run, k, j)
  {
    var n := |run| - 1;
    RunCallInv(run, n, k);
    assert Counted(run[n].calls[k], j);
    if StoppedInOrder(run, k, j) {
      forall i | 0 <= i < |run| && k in run[i].calls && j < |run[i].calls[k].procs|
        ensures run[i].calls[k].procs[j].unlocks <= run[i].calls[k].procs[j].locks
      {
        OrderedRelease(run, k, j, i);
      }
    } else if run[n].calls[k].procs[j].kind == Signing {
      SigningReleasesNothing(run, k, j);
    } else if NeverOverReleased(run, k, j) && run[n].calls[k].procs[j].kind == Keygen {
      FirstStop(run, k, j, n);
    }
  }

  lemma SigningReleasesNothing(run: seq<State>, k: CallId, j: nat)
    requires IsRun(run) && k in run[|run| - 1].calls && j < |run[|run| - 1].calls[k].procs|
    requires run[|run| - 1].calls[k].procs[j].kind == Signing
    ensures NeverOverReleased(run, k, j)
  {
    forall i | 0 <= i < |run| && k in run[i].calls && j < |run[i].calls[k].procs|
      ensures run[i].calls[k].procs[j].unlocks <= run[i].calls[k].procs[j].locks
    {
      RunLater(run, i, |run| - 1, k);
      RunCallInv(run, i, k);
      assert Counted(run[i].calls[k], j);
    }
  }

  /** Every release of the lock in the run finds it taken, and in the end it is free again. */
  ghost predicate Balanced(run: seq<State>, k: CallId, j: nat)
    requires run != [] && k in run[|run| - 1].calls && j < |run[|run| - 1].calls[k].procs|
  {
    && NeverOverReleased(run, k, j)
    && run[|run| - 1].calls[k].procs[j].locks == run[|run| - 1].calls[k].procs[j].unlocks
  }

  /** Once a call is rejected or cleaned up, a process of it has used the key share lock properly
      in exactly these cases: a signing always; any other process of an accepted call if it was
      stopped in order; of a rejected call every one but a resharing, which keeps the lock. */
  lemma LockBalance(run: seq<State>, k: CallId, j: nat)
    requires IsRun(run) && k in run[|run| - 1].calls && j < |run[|run| - 1].calls[k].procs|
    requires run[|run| - 1].calls[k].phase in {Rejected, Finished}
    ensures Balanced(run, k, j) <==>
            var c := run[|run| - 1].calls[k];
            if c.phase == Rejected then c.procs[j].kind != Resharing
            else c.procs[j].kind == Signing || StoppedInOrder(run, k, j)
  {
    var n := |run| - 1;
    RunCallInv(run, n, k);
    assert Counted(run[n].calls[k], j);
    if run[n].calls[k].phase == Finished {
      LockDiscipline(run, k, j);
      if StoppedInOrder(run, k, j) && run[n].calls[k].procs[j].kind == Keygen {
        var r :| RanUnstopped(run, r, k, j);
        RunLater(run, r, n, k);
      }
    } else {
      NothingReleased(run, k, j);
    }
  }

  lemma NothingReleased(run: seq<State>, k: CallId, j: nat)
    requires IsRun(run) && k in run[|run| - 1].calls && j < |run[|run| - 1].calls[k].procs|
    requires run[|run| - 1].calls[k].phase == Rejected
    ensures NeverOverReleased(run, k, j)
  {
    forall i | 0 <= i < |run| && k in run[i].calls && j < |run[i].calls[k].procs|
      ensures run[i].calls[k].procs[j].unlocks <= run[i].calls[k].procs[j].locks
    {
      RunLater(run, i, |run| - 1, k);
      RunCallInv(run, i, k);
      assert Counted(run[i].calls[k], j);
    }
  }

  // ---- all cases occur ------------------------------------------------------------------

  /** The states that call `k` takes the system through with the given actions. */
  function Played(s: State, k: CallId, actions: seq<Action>): (run: seq<State>)
    requires k in s.calls
    ensures |run| == |actions| + 1 && forall i | 0 <= i < |run| :: k in run[i].calls
  {
    if actions == [] then [s]
    else
      var init := Played(s, k, actions[..|actions| - 1]);
      init + [Step(init[|init| - 1], k, actions[|actions| - 1])]
  }

  lemma {:induction false} PlayedIsRun(s: State, k: CallId, actions: seq<Action>)
    requires Init(s) && k in s.calls
    ensures IsRun(Played(s, k, actions)) && Played(s, k, actions)[0] == s
  {
    if actions != [] {
      PlayedIsRun(s, k, actions[..|actions| - 1]);
      var init, run := Played(s, k, actions[..|actions| - 1]), Played(s, k, actions);
      forall i | 0 < i < |run| ensures StepTo(run, i) {
        if i < |init| {
          assert StepTo(init, i);
        } else {
          assert IsStep(run[i - 1], run[i], k, actions[|actions| - 1]);
        }
      }
    }
  }

  /** The call as it is after the actions. */
  function CallAfter(s: State, k: CallId, actions: seq<Action>): Call
    requires k in s.calls
  {
    Played(s, k, actions)[|actions|].calls[k]
  }

  lemma CallAfterSnoc(s: State, k: CallId, actions: seq<Action>, a: Action)
    requires k in s.calls
    ensures CallAfter(s, k, actions + [a]) ==
            Act(Played(s, k, actions)[|actions|].pendingProcesses, CallAfter(s, k, actions), a)
  {
    assert (actions + [a])[..|actions|] == actions;
  }

  /** A call with a single process that has not begun. */
  predicate Fresh(c: Call, kind: Kind) {
    c.phase == Waiting && !c.timedOut && !c.ran && c.procs == [NewProc(kind)]
  }

  /** Enters and cleans up with the given actions in between. */
  lemma PlayedThrough(s: State, k: CallId, kind: Kind, between: Action) returns (run: seq<State>)
    requires Init(s) && k in s.calls && Fresh(s.calls[k], kind) && between in {Timeout, Run, StopNext}
    ensures run == Played(s, k, [Action.Enter, between, Action.Leave, StopNext, StopNext])
    ensures IsRun(run) && run[0] == s && k in run[|run| - 1].calls && |run[|run| - 1].calls[k].procs| == 1
    ensures var c := run[|run| - 1].calls[k];
            && c.phase == Finished && c.procs[0].kind == kind
            && c.timedOut == (between == Timeout) && c.ran == (between == Run)
    ensures between == Run ==> RanUnstopped(run, 2, k, 0)
  {
    var actions := [Action.Enter, between, Action.Leave, StopNext, StopNext];
    run := Played(s, k, actions);
    PlayedIsRun(s, k, actions);
    assert actions[..2] == [Action.Enter, between];
    Begun(s, k, kind, between);
    assert actions[..3] == actions[..2] + [Action.Leave];
    CallAfterSnoc(s, k, actions[..2], Action.Leave);
    assert actions[..4] == actions[..3] + [StopNext];
    CallAfterSnoc(s, k, actions[..3], StopNext);
    assert actions == actions[..4] + [StopNext];
    CallAfterSnoc(s, k, actions[..4], StopNext);
    PlayedPrefix(s, k, actions, 2);
  }

  lemma Begun(s: State, k: CallId, kind: Kind, between: Action)
    requires Init(s) && k in s.calls && Fresh(s.calls[k], kind) && between in {Timeout, Run, StopNext}
    ensures var c := CallAfter(s, k, [Action.Enter, between]);
            && c.phase == Holding && |c.procs| == 1 && c.procs[0].kind == kind
            && c.timedOut == (between == Timeout) && c.ran == (between == Run)
  {
    CallAfterSnoc(s, k, [], Action.Enter);
    assert [] + [Action.Enter] == [Action.Enter];
    CallAfterSnoc(s, k, [Action.Enter], between);
    assert [Action.Enter] + [between] == [Action.Enter, between];
  }

  lemma {:induction false} PlayedPrefix(s: State, k: CallId, actions: seq<Action>, i: nat)
    requires k in s.calls && i <= |actions|
    ensures Played(s, k, actions)[i] == Played(s, k, actions[..i])[i]
  {
    if i < |actions| {
      var init := actions[..|actions| - 1];
      PlayedPrefix(s, k, init, i);
      assert init[..i] == actions[..i];
    } else {
      assert actions[..i] == actions;
    }
  }

  /** Equal totals are not enough: a keygen whose `Run` comes after the end of the call has taken the
      lock as often as it released it, but released it before. */
  lemma LateRun(s: State, k: CallId) returns (run: seq<State>)
    requires Init(s) && k in s.calls && Fresh(s.calls[k], Keygen)
    ensures IsRun(run) && run[0] == s && k in run[|run| - 1].calls && |run[|run| - 1].calls[k].procs| == 1
    ensures var c := run[|run| - 1].calls[k];
            c.phase == Finished && c.procs[0].locks == c.procs[0].unlocks == 1
    ensures !NeverOverReleased(run, k, 0)
  {
    var early := PlayedThrough(s, k, Keygen, StopNext);
    var actions := [Action.Enter, StopNext, Action.Leave, StopNext, StopNext];
    run := Played(s, k, actions + [Run]);
    PlayedIsRun(s, k, actions + [Run]);
    CallAfterSnoc(s, k, actions, Run);
    PlayedPrefix(s, k, actions + [Run], |actions|);
    assert (actions + [Run])[..|actions|] == actions;
    RunCallInv(run, |actions|, k);
    RunCallInv(run, |actions| + 1, k);
    assert Counted(run[|actions|].calls[k], 0) && Counted(run[|actions| + 1].calls[k], 0);
  }

  lemma NeverRan(run: seq<State>, k: CallId, j: nat)
    requires IsRun(run) && k in run[|run| - 1].calls && !run[|run| - 1].calls[k].ran
    ensures forall i :: !RanUnstopped(run, i, k, j)
  {
    forall i: nat | i < |run| ensures k in run[i].calls && !run[i].calls[k].ran {
      RunLater(run, i, |run| - 1, k);
    }
  }

  /** From any beginning, a resharing or keygen call can end with the lock used properly, and it
      can end with a release too many: after a timeout for resharing, without `Run` for keygen. */
  lemma BothHappen(s: State, k: CallId, kind: Kind) returns (good: seq<State>, bad: seq<State>)
    requires Init(s) && k in s.calls && Fresh(s.calls[k], kind) && kind != Signing
    ensures IsRun(good) && good[0] == s && k in good[|good| - 1].calls && |good[|good| - 1].calls[k].procs| == 1
    ensures IsRun(bad) && bad[0] == s && k in bad[|bad| - 1].calls && |bad[|bad| - 1].calls[k].procs| == 1
    ensures Balanced(good, k, 0) && !NeverOverReleased(bad, k, 0)
  {
    good := PlayedThrough(s, k, kind, Run);
    bad := PlayedThrough(s, k, kind, if kind == Resharing then Timeout else StopNext);
    LockBalance(good, k, 0);
    LockDiscipline(bad, k, 0);
    NeverRan(bad, k, 0);
  }
}
