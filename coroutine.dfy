/**
 * The scheduler bookkeeping of src/coroutine.c.
 *
 * A coroutine is named by the address of its `XcpCoroutine` (`Id`); the
 * thread's root sentinel `threadData.dummy` is `Dummy`.  The heap of live
 * coroutines is a map from addresses to their fields, so a pointer to a
 * destroyed coroutine is an `Id` missing from the map.  The per-thread
 * `XcpCoroutineThreadData` is the class `ThreadData`; `mapped` counts the
 * bytes of stack mappings the thread holds.
 *
 * The context switch `xcp_coroutine_exec` is abstract.  It sets `current`
 * to the callee and lets the callee run; what the callee does until control
 * comes back is a `Reaction` chosen by the environment: the coroutines it
 * passes to `xcp_coroutine_process`, then how it leaves (it yields, its
 * callback returns, or some other status is delivered).  A resume loop
 * consumes one reaction per switch from a script, which bounds the loop.
 *
 * `abort()` and a failed `assert` end the program: the model stops with an
 * `Aborted` outcome.  An access to a destroyed coroutine or a `free` of
 * memory that is not a live coroutine stops it with `Undefined`; so does a
 * coroutine linked into a queue while it is still on one, since every queue
 * is a `STAILQ` threaded through the coroutine's single `next` field and
 * the lists are corrupt from then on.
 */
module XcpCoroutine {
  import opened Wrappers
  import XcpMath

  type Id = nat

  /** `&threadData.dummy`, the coroutine of the thread's own stack. */
  const Dummy: Id := 0

  // XcpCoroutineStatus (src/coroutine.c:74-78).
  const Running: int := 1
  const Suspend: int := 2
  const Terminated: int := 3

  /** `XCP_COROUTINE_STACK_SIZE` (include/xcp-ng/generic/coroutine.h:28). */
  const STACK_SIZE: nat := 1024 * 1024

  /** The fields of `struct XcpCoroutine` that the scheduler uses. */
  datatype Coroutine = Coroutine(caller: Option<Id>, pendings: seq<Id>, cb: nat, arg: nat)

  /** The thread's scheduling state, `current` already initialised. */
  datatype Sched = Sched(current: Id, table: map<Id, Coroutine>, mapped: int, pageSize: XcpMath.U64)

  datatype Fault =
    | AlreadyCalled      // abort(): the popped coroutine already has a caller
    | BadStatus(status: int)  // abort(): the switch returned another status
    | NoCaller           // abort(): yield without a caller
    | SelfProcess        // assert(coroutine != self) fails

  datatype Hazard =
    | UseAfterFree
    | DoubleFree
    | InvalidFree
    | Relink             // a coroutine inserted into a queue while still on one

  datatype Outcome = Completed | Aborted(fault: Fault) | Undefined(hazard: Hazard) | OutOfScript

  /** How a running callee gives control back to the coroutine that resumed it. */
  datatype Exit =
    | Yield              // it calls xcp_coroutine_yield
    | Return             // its callback returns (xcp_coroutine_run)
    | Stray(status: int) // some other switch delivers `status`

  datatype Reaction = Reaction(spawned: seq<Id>, exit: Exit)

  /** Which coroutine the `Terminated` branch of the resume loop destroys. */
  datatype Cleanup =
    | DestroyArgument    // `coroutine`, the argument of resume, as written
    | DestroyCallee      // `callee`, the coroutine that terminated

  datatype Step = Step(st: Sched, outcome: Outcome)
  datatype Switch = Switch(st: Sched, status: int, outcome: Outcome)
  datatype Turn = Turn(st: Sched, outcome: Outcome, queue: seq<Id>)
  datatype Run = Run(st: Sched, outcome: Outcome, trace: seq<Id>)
  datatype Created = Created(st: Sched, coroutine: Option<Id>)

  // ---------------------------------------------------------------------------
  // Stacks (src/coroutine.c:47-70).

  /** `XCP_ROUND_UP_2(XCP_COROUTINE_STACK_SIZE, pageSize) + pageSize` in `size_t`. */
  function StackSize(pageSize: XcpMath.U64): XcpMath.U64 {
    XcpMath.Wrap(XcpMath.RoundUp2(STACK_SIZE, pageSize) + pageSize)
  }

  // ---------------------------------------------------------------------------
  // The operations on the scheduling state.

  function WithCaller(st: Sched, id: Id, caller: Option<Id>): Sched
    requires id in st.table
  {
    st.(table := st.table[id := st.table[id].(caller := caller)])
  }

  function WithPendings(st: Sched, id: Id, pendings: seq<Id>): Sched
    requires id in st.table
  {
    st.(table := st.table[id := st.table[id].(pendings := pendings)])
  }

  /** `x` waits in the pending queue of some live coroutine. */
  predicate Queued(st: Sched, x: Id) {
    exists id :: id in st.table && x in st.table[id].pendings
  }

  /** No coroutine is on both queues. */
  predicate Disjoint(a: seq<Id>, b: seq<Id>) {
    forall x :: x in a ==> x !in b
  }

  /**
   * The branch of `xcp_coroutine_process` taken inside a coroutine: the
   * assertion, then `STAILQ_INSERT_TAIL`, which corrupts the queues when
   * `x` is already on one of them.
   */
  function AfterEnqueue(st: Sched, x: Id): Step {
    if x == st.current then Step(st, Aborted(SelfProcess))
    else if st.current !in st.table || x !in st.table then Step(st, Undefined(UseAfterFree))
    else if Queued(st, x) then Step(st, Undefined(Relink))
    else Step(WithPendings(st, st.current, st.table[st.current].pendings + [x]), Completed)
  }

  /** `AfterEnqueue` of each of `xs` in turn, up to the first that fails. */
  function AfterEnqueueAll(st: Sched, xs: seq<Id>): (s: Step)
    ensures s.st.current == st.current && s.st.mapped == st.mapped && s.st.pageSize == st.pageSize
    ensures s.st.table.Keys == st.table.Keys
    ensures forall id :: id in st.table ==> s.st.table[id].caller == st.table[id].caller
    decreases |xs|
  {
    if xs == [] then Step(st, Completed)
    else
      var s1 := AfterEnqueue(st, xs[0]);
      if s1.outcome != Completed then s1 else AfterEnqueueAll(s1.st, xs[1..])
  }

  /** `xcp_coroutine_yield`. */
  function AfterYield(st: Sched): Step {
    if st.current !in st.table then Step(st, Undefined(UseAfterFree))
    else match st.table[st.current].caller
      case None => Step(st, Aborted(NoCaller))
      case Some(caller) => Step(WithCaller(st, st.current, None).(current := caller), Completed)
  }

  /**
   * `xcp_coroutine_exec(self, callee, Running)` seen from `self`: `current`
   * becomes `callee`; a switch to itself comes straight back with `Running`;
   * otherwise the callee runs `r` and the status it leaves with is returned.
   */
  function AfterExec(st: Sched, self: Id, callee: Id, r: Reaction): (sw: Switch)
    requires callee in st.table && st.table[callee].caller.Some?
    ensures sw.st.table.Keys == st.table.Keys
  {
    var st1 := st.(current := callee);
    if callee == self then Switch(st1, Running, Completed)
    else
      var s := AfterEnqueueAll(st1, r.spawned);
      if s.outcome != Completed then Switch(s.st, 0, s.outcome)
      else match r.exit
        case Yield =>
          var y := AfterYield(s.st);
          Switch(y.st, Suspend, y.outcome)
        case Return => Switch(s.st.(current := s.st.table[callee].caller.value), Terminated, Completed)
        case Stray(status) => Switch(s.st.(current := self), status, Completed)
  }

  /** `xcp_coroutine_destroy`: unmap the stack and free the coroutine. */
  function AfterDestroy(st: Sched, victim: Id): Step {
    if victim == Dummy then Step(st, Undefined(InvalidFree))
    else if victim !in st.table then Step(st, Undefined(DoubleFree))
    else Step(st.(table := st.table - {victim}, mapped := st.mapped - StackSize(st.pageSize)), Completed)
  }

  /**
   * One turn of the loop of `xcp_coroutine_resume` once `callee` is popped
   * and found free: make `self` its caller, switch to it, then put its
   * pending coroutines in front of the rest of the local queue and empty
   * its own queue (the two `STAILQ_CONCAT`s), and finally destroy on
   * `Terminated`, go on on `Suspend`, abort on anything else.  A
   * `Completed` turn hands back the new local queue.  A callee that
   * processed a coroutine still waiting in the local queue `rest` linked it
   * twice; the concatenation then closes a cycle, and the model stops there.
   */
  function AfterTurn(st: Sched, callee: Id, rest: seq<Id>, self: Id, arg: Id, r: Reaction, cleanup: Cleanup): Turn
    requires callee in st.table && st.table[callee].caller.None?
  {
    var st1 := WithCaller(st, callee, Some(self));
    var sw := AfterExec(st1, self, callee, r);
    if sw.outcome != Completed then Turn(sw.st, sw.outcome, [])
    else if !Disjoint(sw.st.table[callee].pendings, rest) then Turn(sw.st, Undefined(Relink), [])
    else
      var queue := sw.st.table[callee].pendings + rest;
      var st2 := WithPendings(sw.st, callee, []);
      if sw.status == Terminated then
        var d := AfterDestroy(st2, if cleanup == DestroyArgument then arg else callee);
        Turn(d.st, d.outcome, queue)
      else if sw.status == Suspend then Turn(st2, Completed, queue)
      else Turn(st2, Aborted(BadStatus(sw.status)), [])
  }

  /**
   * The loop of `xcp_coroutine_resume` from a given local queue: pop the
   * first coroutine, abort if it already has a caller, else run a turn.
   * `trace` lists the coroutines switched to.
   */
  function ResumeLoop(st: Sched, queue: seq<Id>, self: Id, arg: Id, script: seq<Reaction>, cleanup: Cleanup): Run
    decreases |script|
  {
    if queue == [] then Run(st, Completed, [])
    else if queue[0] !in st.table then Run(st, Undefined(UseAfterFree), [])
    else if st.table[queue[0]].caller.Some? then Run(st, Aborted(AlreadyCalled), [])
    else if script == [] then Run(WithCaller(st, queue[0], Some(self)), OutOfScript, [])
    else
      var t := AfterTurn(st, queue[0], queue[1..], self, arg, script[0], cleanup);
      if t.outcome != Completed then Run(t.st, t.outcome, [queue[0]])
      else
        var r := ResumeLoop(t.st, t.queue, self, arg, script[1..], cleanup);
        Run(r.st, r.outcome, [queue[0]] + r.trace)
  }

  /** A run that follows the switches already made, `trace`. */
  function Combine(trace: seq<Id>, r: Run): Run {
    Run(r.st, r.outcome, trace + r.trace)
  }

  lemma {:induction false} CombineCombine(trace: seq<Id>, switched: seq<Id>, r: Run)
    ensures Combine(trace, Combine(switched, r)) == Combine(trace + switched, r)
  {
    assert trace + (switched + r.trace) == trace + switched + r.trace;
  }

  /** One turn of `ResumeLoop`, unfolded. */
  lemma {:induction false} ResumeLoopTurn(st: Sched, queue: seq<Id>, self: Id, arg: Id, script: seq<Reaction>, cleanup: Cleanup)
    requires queue != [] && queue[0] in st.table && st.table[queue[0]].caller.None? && script != []
    ensures var t := AfterTurn(st, queue[0], queue[1..], self, arg, script[0], cleanup);
      ResumeLoop(st, queue, self, arg, script, cleanup) ==
        if t.outcome != Completed then Run(t.st, t.outcome, [queue[0]])
        else
          var r := ResumeLoop(t.st, t.queue, self, arg, script[1..], cleanup);
          Run(r.st, r.outcome, [queue[0]] + r.trace)
  {
  }

  /** `xcp_coroutine_resume(coroutine)`: the queue starts as `[coroutine]`, `self` is `current`. */
  function AfterResume(st: Sched, coroutine: Id, script: seq<Reaction>, cleanup: Cleanup): Run {
    ResumeLoop(st, [coroutine], st.current, coroutine, script, cleanup)
  }

  /** `xcp_coroutine_process`: resume at the root, enqueue inside a coroutine. */
  function AfterProcess(st: Sched, coroutine: Id, script: seq<Reaction>, cleanup: Cleanup): Run {
    if st.current !in st.table then Run(st, Undefined(UseAfterFree), [])
    else if st.table[st.current].caller.None? then AfterResume(st, coroutine, script, cleanup)
    else
      var s := AfterEnqueue(st, coroutine);
      Run(s.st, s.outcome, [])
  }

  /**
   * `xcp_coroutine_create`: `addr` is what `malloc` returns (`None` for
   * NULL), `mmapOk` and `mprotectOk` whether those calls succeed.
   */
  function AfterCreate(st: Sched, cb: nat, userData: nat, addr: Option<Id>, mmapOk: bool, mprotectOk: bool): Created
    requires addr.Some? ==> addr.value != Dummy && addr.value !in st.table
  {
    if addr.None? || !mmapOk || !mprotectOk then Created(st, None)
    else
      var c := Coroutine(None, [], cb, userData);
      Created(st.(table := st.table[addr.value := c], mapped := st.mapped + StackSize(st.pageSize)), addr)
  }

  // ---------------------------------------------------------------------------
  // The thread data and the C functions.

  class ThreadData {
    /** `threadData.current`, NULL until first used. */
    var current: Option<Id>
    /** The live coroutines, `threadData.dummy` included. */
    var table: map<Id, Coroutine>
    /** Bytes of coroutine stacks currently mapped. */
    var mapped: int
    /** `sysconf(_SC_PAGESIZE)`. */
    const pageSize: XcpMath.U64

    /** The zero-initialised thread-local data. */
    constructor (pageSize: XcpMath.U64)
      ensures current == None && table == map[Dummy := Coroutine(None, [], 0, 0)]
      ensures mapped == 0 && this.pageSize == pageSize
    {
      current := None;
      table := map[Dummy := Coroutine(None, [], 0, 0)];
      mapped := 0;
      this.pageSize := pageSize;
    }

    function State(): Sched
      reads this
    {
      Sched(current.GetOr(Dummy), table, mapped, pageSize)
    }

    /** `xcp_coroutine_get_thread_data`: `current` defaults to the dummy. */
    method GetThreadData()
      modifies this
      ensures current == Some(old(current).GetOr(Dummy))
      ensures table == old(table) && mapped == old(mapped)
    {
      if current.None? {
        current := Some(Dummy);
      }
    }

    /** `xcp_coroutine_get_self`: never NULL, and the state does not change. */
    method GetSelf() returns (self: Id)
      modifies this
      ensures current == Some(self) && self == old(State()).current
      ensures State() == old(State())
    {
      GetThreadData();
      self := current.value;
    }

    /** `xcp_coroutine_create_stack`: a failed `mprotect` unmaps again. */
    method CreateStack(mmapOk: bool, mprotectOk: bool) returns (ok: bool, stackSize: XcpMath.U64)
      modifies this
      ensures stackSize == StackSize(pageSize) && ok == (mmapOk && mprotectOk)
      ensures mapped == old(mapped) + (if ok then stackSize else 0)
      ensures current == old(current) && table == old(table)
    {
      stackSize := XcpMath.Wrap(XcpMath.RoundUp2(STACK_SIZE, pageSize) + pageSize);
      if !mmapOk {
        return false, stackSize;
      }
      mapped := mapped + stackSize;
      if !mprotectOk {
        mapped := mapped - stackSize;
        return false, stackSize;
      }
      return true, stackSize;
    }

    /** `xcp_coroutine_destroy_stack`: the size is computed again the same way. */
    method DestroyStack()
      modifies this
      ensures mapped == old(mapped) - StackSize(pageSize)
      ensures current == old(current) && table == old(table)
    {
      var stackSize := XcpMath.Wrap(XcpMath.RoundUp2(STACK_SIZE, pageSize) + pageSize);
      mapped := mapped - stackSize;
    }

    /** `xcp_coroutine_destroy`. */
    method Destroy(coroutine: Id) returns (outcome: Outcome)
      modifies this
      ensures Step(State(), outcome) == AfterDestroy(old(State()), coroutine)
    {
      if coroutine == Dummy {
        return Undefined(InvalidFree);
      }
      if coroutine !in table {
        return Undefined(DoubleFree);
      }
      DestroyStack();
      table := table - {coroutine};
      return Completed;
    }

    /** `xcp_coroutine_create`. */
    method Create(cb: nat, userData: nat, addr: Option<Id>, mmapOk: bool, mprotectOk: bool)
      returns (coroutine: Option<Id>)
      requires addr.Some? ==> addr.value != Dummy && addr.value !in table
      modifies this
      ensures Created(State(), coroutine) == AfterCreate(old(State()), cb, userData, addr, mmapOk, mprotectOk)
    {
      if addr.None? {
        return None;
      }
      var ok, stackSize := CreateStack(mmapOk, mprotectOk);
      if !ok {
        return None;
      }
      var id := addr.value;
      table := table[id := Coroutine(None, [], cb, 0)];
      table := table[id := table[id].(arg := userData)];
      return Some(id);
    }

    /** The branch of `xcp_coroutine_process` taken inside a coroutine. */
    method Enqueue(coroutine: Id) returns (outcome: Outcome)
      modifies this
      ensures Step(State(), outcome) == AfterEnqueue(old(State()), coroutine)
    {
      var self := GetSelf();
      if coroutine == self {
        return Aborted(SelfProcess);
      }
      if self !in table || coroutine !in table {
        return Undefined(UseAfterFree);
      }
      if Queued(State(), coroutine) {
        return Undefined(Relink);
      }
      table := table[self := table[self].(pendings := table[self].pendings + [coroutine])];
      return Completed;
    }

    /** `xcp_coroutine_yield`. */
    method Yield() returns (outcome: Outcome)
      modifies this
      ensures Step(State(), outcome) == AfterYield(old(State()))
    {
      var self := GetSelf();
      if self !in table {
        return Undefined(UseAfterFree);
      }
      if table[self].caller.None? {
        return Aborted(NoCaller);
      }
      var caller := table[self].caller.value;
      table := table[self := table[self].(caller := None)];
      // xcp_coroutine_exec(self, caller, Suspend)
      current := Some(caller);
      return Completed;
    }

    /** `xcp_coroutine_exec(self, callee, Running)`, the callee running `r`. */
    method Exec(self: Id, callee: Id, r: Reaction) returns (status: int, outcome: Outcome)
      requires callee in table && table[callee].caller.Some?
      modifies this
      ensures Switch(State(), status, outcome) == AfterExec(old(State()), self, callee, r)
    {
      current := Some(callee);
      if callee == self {
        return Running, Completed;
      }
      ghost var st1 := State();
      var i := 0;
      while i < |r.spawned|
        invariant 0 <= i <= |r.spawned|
        invariant AfterEnqueueAll(State(), r.spawned[i..]) == AfterEnqueueAll(st1, r.spawned)
      {
        assert r.spawned[i..][1..] == r.spawned[i + 1..];
        var o := Enqueue(r.spawned[i]);
        if o != Completed {
          return 0, o;
        }
        i := i + 1;
      }
      match r.exit
      case Yield =>
        outcome := Yield();
        status := Suspend;
      case Return =>
        current := Some(table[callee].caller.value);
        status, outcome := Terminated, Completed;
      case Stray(s) =>
        current := Some(self);
        status, outcome := s, Completed;
    }

    /** One turn of the loop of `xcp_coroutine_resume` for the popped `callee`. */
    method RunTurn(callee: Id, rest: seq<Id>, self: Id, arg: Id, r: Reaction, cleanup: Cleanup)
      returns (outcome: Outcome, queue: seq<Id>)
      requires callee in table && table[callee].caller.None?
      modifies this
      ensures Turn(State(), outcome, queue) == AfterTurn(old(State()), callee, rest, self, arg, r, cleanup)
    {
      table := table[callee := table[callee].(caller := Some(self))];
      ghost var st1 := State();
      assert st1 == WithCaller(old(State()), callee, Some(self));
      var ret;
      ret, outcome := Exec(self, callee, r);
      ghost var sw := AfterExec(st1, self, callee, r);
      assert State() == sw.st && ret == sw.status && outcome == sw.outcome;
      if outcome != Completed {
        return outcome, [];
      }
      if !Disjoint(table[callee].pendings, rest) {
        return Undefined(Relink), [];
      }
      var pendings := rest;
      // STAILQ_CONCAT(&callee->pendings, &pendings);
      table := table[callee := table[callee].(pendings := table[callee].pendings + pendings)];
      pendings := [];
      // STAILQ_CONCAT(&pendings, &callee->pendings);
      pendings := pendings + table[callee].pendings;
      table := table[callee := table[callee].(pendings := [])];
      assert pendings == sw.st.table[callee].pendings + rest;
      assert State() == WithPendings(sw.st, callee, []);
      if ret == Terminated {
        var victim := if cleanup == DestroyArgument then arg else callee;
        outcome := Destroy(victim);
        return outcome, pendings;
      } else if ret != Suspend {
        return Aborted(BadStatus(ret)), [];
      }
      return Completed, pendings;
    }

    /**
     * One pass of the loop of `xcp_coroutine_resume` over the local queue
     * `pendings` and the reactions `script` still to come: `done` when the
     * loop stops with `outcome`, else the new queue `rest`.
     */
    method ResumeStep(pendings: seq<Id>, self: Id, arg: Id, script: seq<Reaction>, cleanup: Cleanup)
      returns (done: bool, outcome: Outcome, rest: seq<Id>, switched: seq<Id>)
      requires pendings != []
      modifies this
      ensures done ==> Run(State(), outcome, switched) == ResumeLoop(old(State()), pendings, self, arg, script, cleanup)
      ensures !done ==> script != []
      ensures !done ==>
                Combine(switched, ResumeLoop(State(), rest, self, arg, script[1..], cleanup))
                == ResumeLoop(old(State()), pendings, self, arg, script, cleanup)
    {
      var callee := pendings[0];
      if callee !in table {
        return true, Undefined(UseAfterFree), [], [];
      }
      if table[callee].caller.Some? {
        return true, Aborted(AlreadyCalled), [], [];
      }
      if script == [] {
        table := table[callee := table[callee].(caller := Some(self))];
        return true, OutOfScript, [], [];
      }
      ResumeLoopTurn(State(), pendings, self, arg, script, cleanup);
      outcome, rest := RunTurn(callee, pendings[1..], self, arg, script[0], cleanup);
      done, switched := outcome != Completed, [callee];
    }

    /**
     * `xcp_coroutine_resume(coroutine)`, the switches following `script`;
     * `cleanup` picks the coroutine the `Terminated` branch destroys.
     */
    method Resume(coroutine: Id, script: seq<Reaction>, cleanup: Cleanup) returns (outcome: Outcome, trace: seq<Id>)
      modifies this
      ensures Run(State(), outcome, trace) == AfterResume(old(State()), coroutine, script, cleanup)
    {
      var pendings := [coroutine];
      var self := GetSelf();
      var remaining := script;
      trace := [];
      while pendings != []
        invariant AfterResume(old(State()), coroutine, script, cleanup)
          == Combine(trace, ResumeLoop(State(), pendings, self, coroutine, remaining, cleanup))
        decreases |remaining|
      {
        var done, o, rest, switched := ResumeStep(pendings, self, coroutine, remaining, cleanup);
        if done {
          return o, trace + switched;
        }
        CombineCombine(trace, switched, ResumeLoop(State(), rest, self, coroutine, remaining[1..], cleanup));
        trace := trace + switched;
        pendings, remaining := rest, remaining[1..];
      }
      return Completed, trace;
    }

    /** `xcp_coroutine_process(coroutine)`. */
    method Process(coroutine: Id, script: seq<Reaction>, cleanup: Cleanup) returns (outcome: Outcome, trace: seq<Id>)
      modifies this
      ensures Run(State(), outcome, trace) == AfterProcess(old(State()), coroutine, script, cleanup)
    {
      GetThreadData();
      var cur := current.value;
      if cur !in table {
        return Undefined(UseAfterFree), [];
      }
      if table[cur].caller.None? {
        outcome, trace := Resume(coroutine, script, cleanup);
      } else {
        outcome := Enqueue(coroutine);
        trace := [];
      }
    }
  }
}
