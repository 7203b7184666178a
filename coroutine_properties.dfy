/**
 * Properties of the coroutine scheduler modelled in XcpCoroutine: the stack
 * layout, creation and destruction, the FIFO of pending coroutines, the
 * abort conditions, the depth-first order of a resume, and what a resume
 * from the thread's root leaves behind.
 */
module XcpCoroutineProperties {
  import opened Wrappers
  import XcpMath
  import opened XcpCoroutine

  // ---------------------------------------------------------------------------
  // Stack layout.

  lemma {:induction false} Pow2Of20()
    ensures XcpMath.Pow2(20) == STACK_SIZE
  {
    assert XcpMath.Pow2(10) == 1024;
    XcpMath.Pow2Add(10, 10);
  }

  lemma {:induction false} PageBound(pageSize: nat, k: nat)
    requires k <= 62 && pageSize == XcpMath.Pow2(k)
    ensures 4 * pageSize <= XcpMath.U64_LIMIT
  {
    XcpMath.Pow2Of64();
    XcpMath.Pow2Add(62, 2);
    XcpMath.Pow2Monotone(k, 62);
    assert XcpMath.Pow2(2) == 4;
  }

  lemma {:induction false} AddMultiple(r: int, p: int)
    requires p > 0 && r % p == 0
    ensures (r + p) % p == 0
  {
    XcpMath.DivRem(r, p);
    XcpMath.DivModUnique(r + p, p, r / p + 1, 0);
  }

  /** `STACK_SIZE` is a multiple of every page size up to 1 MiB. */
  lemma {:induction false} StackIsMultiple(pageSize: nat, k: nat)
    requires k <= 20 && pageSize == XcpMath.Pow2(k)
    ensures STACK_SIZE % pageSize == 0
  {
    Pow2Of20();
    XcpMath.Pow2Add(20 - k, k);
    XcpMath.DivModUnique(STACK_SIZE, pageSize, XcpMath.Pow2(20 - k), 0);
  }

  /**
   * For a power-of-two page size of at most 2^62 the mapping is a whole
   * number of pages; above the guard page it holds at least STACK_SIZE
   * bytes and less than one page more; for pages of at most 1 MiB it is
   * exactly STACK_SIZE plus the guard page.
   */
  lemma {:induction false} StackLayout(pageSize: XcpMath.U64, k: nat)
    requires k <= 62 && pageSize == XcpMath.Pow2(k)
    ensures StackSize(pageSize) % pageSize == 0
    ensures STACK_SIZE <= StackSize(pageSize) - pageSize < STACK_SIZE + pageSize
    ensures k <= 20 ==> StackSize(pageSize) == STACK_SIZE + pageSize
  {
    PageBound(pageSize, k);
    Pow2Of20();
    var rounded := XcpMath.RoundUp2(STACK_SIZE, pageSize);
    XcpMath.RoundUp2IsLeastMultiple(STACK_SIZE, pageSize, k);
    assert rounded < STACK_SIZE + pageSize;
    assert StackSize(pageSize) == rounded + pageSize;
    AddMultiple(rounded, pageSize);
    if k <= 20 {
      StackIsMultiple(pageSize, k);
      XcpMath.LeastMultipleUnique(rounded, STACK_SIZE, STACK_SIZE, pageSize);
    }
  }

  // ---------------------------------------------------------------------------
  // Creation and destruction.

  /**
   * `xcp_coroutine_create` fails exactly when an allocation fails, and then
   * leaves no memory behind; on success the new coroutine has no caller, an
   * empty queue, the callback and `arg == userData`, and one stack more is
   * mapped.
   */
  lemma {:induction false} CreateOutcome(st: Sched, cb: nat, userData: nat, addr: Option<Id>, mmapOk: bool, mprotectOk: bool)
    requires addr.Some? ==> addr.value != Dummy && addr.value !in st.table
    ensures var c := AfterCreate(st, cb, userData, addr, mmapOk, mprotectOk);
      && (c.coroutine.None? <==> addr.None? || !mmapOk || !mprotectOk)
      && (c.coroutine.None? ==> c.st == st)
      && (c.coroutine.Some? ==>
            && c.coroutine == addr
            && c.st.table == st.table[addr.value := Coroutine(None, [], cb, userData)]
            && c.st.mapped == st.mapped + StackSize(st.pageSize)
            && c.st.current == st.current)
  {
  }

  /** Destroying a coroutine just created gives back the state before. */
  lemma {:induction false} CreateThenDestroy(st: Sched, cb: nat, userData: nat, id: Id)
    requires id != Dummy && id !in st.table
    ensures var c := AfterCreate(st, cb, userData, Some(id), true, true);
      c.coroutine == Some(id) && AfterDestroy(c.st, id) == Step(st, Completed)
  {
    var c := AfterCreate(st, cb, userData, Some(id), true, true);
    assert c.st.table - {id} == st.table;
  }

  /** A coroutine destroyed twice, or the dummy, is a bad `free`. */
  lemma {:induction false} DestroyTwice(st: Sched, id: Id)
    requires id in st.table
    ensures var d := AfterDestroy(st, id);
      id == Dummy ==> d.outcome == Undefined(InvalidFree)
    ensures var d := AfterDestroy(st, id);
      id != Dummy ==> d.outcome == Completed && AfterDestroy(d.st, id).outcome == Undefined(DoubleFree)
  {
  }

  // ---------------------------------------------------------------------------
  // The queue of pending coroutines.

  /**
   * `xcp_coroutine_process` called in turn with each of `xs` inside a
   * coroutine appends them, in order, to the tail of that coroutine's
   * queue and changes nothing else.
   */
  lemma {:induction false} EnqueueAllAppends(st: Sched, xs: seq<Id>)
    requires st.current in st.table
    ensures var s := AfterEnqueueAll(st, xs);
      s.outcome == Completed ==> s.st == WithPendings(st, st.current, st.table[st.current].pendings + xs)
    decreases |xs|
  {
    var c := st.current;
    var p := st.table[c].pendings;
    if xs == [] {
      assert p + xs == p;
      assert st.table[c := st.table[c].(pendings := p)] == st.table;
    } else {
      var s1 := AfterEnqueue(st, xs[0]);
      if s1.outcome == Completed {
        EnqueueAllAppends(s1.st, xs[1..]);
        assert p + [xs[0]] + xs[1..] == p + xs;
        var q := p + xs;
        assert s1.st.table[c := s1.st.table[c].(pendings := q)] == st.table[c := st.table[c].(pendings := q)];
      }
    }
  }

  /** Processing a coroutine from inside itself fails the assertion. */
  lemma {:induction false} EnqueueSelfAborts(st: Sched, script: seq<Reaction>, cleanup: Cleanup)
    requires st.current in st.table && st.table[st.current].caller.Some?
    ensures AfterProcess(st, st.current, script, cleanup) == Run(st, Aborted(SelfProcess), [])
  {
  }

  /** At the root, `xcp_coroutine_process` is exactly `xcp_coroutine_resume`. */
  lemma {:induction false} ProcessAtRootResumes(st: Sched, x: Id, script: seq<Reaction>, cleanup: Cleanup)
    requires st.current in st.table && st.table[st.current].caller.None?
    ensures AfterProcess(st, x, script, cleanup) == AfterResume(st, x, script, cleanup)
  {
  }

  // ---------------------------------------------------------------------------
  // Abort conditions.

  /** Resuming a coroutine that already has a caller aborts before any switch. */
  lemma {:induction false} ResumeAbortsWhenAlreadyCalled(st: Sched, x: Id, script: seq<Reaction>, cleanup: Cleanup)
    requires x in st.table && st.table[x].caller.Some?
    ensures AfterResume(st, x, script, cleanup) == Run(st, Aborted(AlreadyCalled), [])
  {
  }

  /** Yielding from the thread's root aborts; so does any yield without a caller. */
  lemma {:induction false} YieldWithoutCallerAborts(st: Sched)
    requires st.current in st.table && st.table[st.current].caller.None?
    ensures AfterYield(st) == Step(st, Aborted(NoCaller))
  {
  }

  /** A yield hands control back to the caller and forgets it. */
  lemma {:induction false} YieldReturnsToCaller(st: Sched)
    requires st.current in st.table && st.table[st.current].caller.Some?
    ensures var y := AfterYield(st);
      && y.outcome == Completed
      && y.st.current == st.table[st.current].caller.value
      && y.st.table[st.current].caller.None?
      && y.st.table.Keys == st.table.Keys
  {
  }

  /** A switch to oneself comes back with `Running`, which the resume loop rejects. */
  lemma {:induction false} ResumeSelfAborts(st: Sched, script: seq<Reaction>, cleanup: Cleanup)
    requires st.current in st.table && st.table[st.current].caller.None? && script != []
    ensures AfterResume(st, st.current, script, cleanup).outcome == Aborted(BadStatus(Running))
  {
  }

  // ---------------------------------------------------------------------------
  // Resuming from the thread's root.

  /** No other coroutine is running and no queue holds anything. */
  predicate Quiescent(st: Sched) {
    && st.current == Dummy && Dummy in st.table
    && forall id :: id in st.table ==> st.table[id].caller.None? && st.table[id].pendings == []
  }

  /** Every callee leaves by yielding or by returning from its callback. */
  predicate Honest(script: seq<Reaction>) {
    forall i :: 0 <= i < |script| ==> !script[i].exit.Stray?
  }

  /**
   * `st` is quiescent and is `st0` less some coroutines, each of them
   * destroyed with its stack.
   */
  predicate Retains(st0: Sched, st: Sched) {
    && Quiescent(st)
    && st.pageSize == st0.pageSize
    && (forall id :: id in st.table ==> id in st0.table && st.table[id] == st0.table[id])
    && st.mapped - |st.table| * StackSize(st0.pageSize) == st0.mapped - |st0.table| * StackSize(st0.pageSize)
  }

  /**
   * Every coroutine `callee` processes is alive, is not `callee` itself, is
   * on no queue yet, and is processed only once.
   */
  predicate ValidSpawns(st: Sched, callee: Id, xs: seq<Id>) {
    forall i :: 0 <= i < |xs| ==>
      xs[i] in st.table && xs[i] != callee && !Queued(st, xs[i]) && xs[i] !in xs[..i]
  }

  /** Appending `x` to the queue of `c` queues `x` and nothing else. */
  lemma {:induction false} QueuedAfterAppend(st: Sched, c: Id, x: Id, y: Id)
    requires c in st.table
    ensures Queued(WithPendings(st, c, st.table[c].pendings + [x]), y) <==> Queued(st, y) || y == x
  {
    var s := WithPendings(st, c, st.table[c].pendings + [x]);
    if Queued(s, y) && y != x {
      var id :| id in s.table && y in s.table[id].pendings;
      assert y in st.table[id].pendings;
    }
    if Queued(st, y) {
      var id :| id in st.table && y in st.table[id].pendings;
      assert y in s.table[id].pendings;
    }
    if y == x {
      assert x in s.table[c].pendings;
    }
  }

  /** With every queue empty, nothing is queued. */
  lemma {:induction false} NoneQueued(st: Sched, y: Id)
    requires forall id :: id in st.table ==> st.table[id].pendings == []
    ensures !Queued(st, y)
  {
  }

  /**
   * Processing each of `xs` inside a coroutine completes exactly when all
   * of them are alive, none of them is that coroutine, none is on a queue
   * already, and none comes twice.
   */
  lemma {:induction false} EnqueueAllCompletes(st: Sched, xs: seq<Id>)
    requires st.current in st.table
    ensures AfterEnqueueAll(st, xs).outcome == Completed <==> ValidSpawns(st, st.current, xs)
    decreases |xs|
  {
    if xs != [] {
      var s1 := AfterEnqueue(st, xs[0]);
      if s1.outcome == Completed {
        EnqueueAllCompletes(s1.st, xs[1..]);
        ValidSpawnsStep(st, st.current, xs, s1.st);
      } else {
        assert xs[..0] == [];
      }
    }
  }

  /** The conditions on `xs` after its head is enqueued are those on its tail. */
  lemma {:induction false} ValidSpawnsStep(st: Sched, c: Id, xs: seq<Id>, st1: Sched)
    requires c in st.table && xs != [] && xs[0] in st.table && xs[0] != c && !Queued(st, xs[0])
    requires st1 == WithPendings(st, c, st.table[c].pendings + [xs[0]])
    ensures ValidSpawns(st, c, xs) <==> ValidSpawns(st1, c, xs[1..])
  {
    assert xs[..0] == [];
    forall i | 0 <= i < |xs[1..]|
      ensures xs[1..][i] == xs[i + 1]
      ensures Queued(st1, xs[i + 1]) <==> Queued(st, xs[i + 1]) || xs[i + 1] == xs[0]
      ensures xs[i + 1] in xs[..i + 1] <==> xs[i + 1] == xs[0] || xs[1..][i] in xs[1..][..i]
    {
      QueuedAfterAppend(st, c, xs[0], xs[i + 1]);
      assert xs[..i + 1] == [xs[0]] + xs[1..][..i];
    }
    if ValidSpawns(st1, c, xs[1..]) {
      forall i | 0 <= i < |xs|
        ensures xs[i] in st.table && xs[i] != c && !Queued(st, xs[i]) && xs[i] !in xs[..i]
      {
        if i > 0 {
          assert xs[1..][i - 1] == xs[i];
        }
      }
    }
  }

  /** Spawns from a state whose queues are all empty, seen before and after a switch. */
  lemma {:induction false} EmptyQueuesSpawns(st: Sched, st1: Sched, callee: Id, xs: seq<Id>)
    requires forall id :: id in st.table ==> st.table[id].pendings == []
    requires forall id :: id in st1.table ==> st1.table[id].pendings == []
    requires st1.table.Keys == st.table.Keys
    ensures ValidSpawns(st1, callee, xs) == ValidSpawns(st, callee, xs)
  {
    forall y ensures !Queued(st1, y) && !Queued(st, y) {
      NoneQueued(st1, y);
      NoneQueued(st, y);
    }
  }

  /** The switch to a free coroutine from the quiescent root, and what it leaves. */
  lemma {:induction false} ExecFromRoot(st: Sched, callee: Id, r: Reaction)
    requires Quiescent(st) && callee in st.table && callee != Dummy && !r.exit.Stray?
    ensures var sw := AfterExec(WithCaller(st, callee, Some(Dummy)), Dummy, callee, r);
      && (sw.outcome == Completed <==> ValidSpawns(st, callee, r.spawned))
      && (sw.outcome == Completed ==>
            && sw.status == (if r.exit == Yield then Suspend else Terminated)
            && sw.st == st.(table := st.table[callee := st.table[callee].(
                 caller := if r.exit == Yield then None else Some(Dummy), pendings := r.spawned)]))
  {
    var st1 := WithCaller(st, callee, Some(Dummy)).(current := callee);
    EmptyQueuesSpawns(st, st1, callee, r.spawned);
    EnqueueAllCompletes(st1, r.spawned);
    EnqueueAllAppends(st1, r.spawned);
    EmptyPrefix(r.spawned);
  }

  /**
   * One turn of a resume from the quiescent root completes exactly when the
   * callee is not the dummy and processes, once each, live coroutines other
   * than itself that are not waiting in the local queue; the local queue
   * then becomes the coroutines it processed followed by the rest of the
   * queue, and the state is the one before, less the callee if it returned.
   */
  lemma {:induction false} TurnFromRoot(st: Sched, callee: Id, rest: seq<Id>, arg: Id, r: Reaction)
    requires Quiescent(st) && callee in st.table && !r.exit.Stray?
    ensures var t := AfterTurn(st, callee, rest, Dummy, arg, r, DestroyCallee);
      && (t.outcome == Completed <==> callee != Dummy && ValidSpawns(st, callee, r.spawned) && Disjoint(r.spawned, rest))
      && (t.outcome == Completed ==>
            && t.st == (if r.exit == Yield then st else AfterDestroy(st, callee).st)
            && t.queue == r.spawned + rest)
  {
    if callee != Dummy {
      ExecFromRoot(st, callee, r);
      var c := st.table[callee];
      if r.exit == Yield {
        assert st.table[callee := c.(caller := None, pendings := r.spawned)][callee := c] == st.table;
      } else {
        assert st.table[callee := c.(caller := Some(Dummy), pendings := r.spawned)][callee := c.(caller := Some(Dummy))] - {callee}
          == st.table - {callee};
      }
    }
  }

  /** Destroying a coroutine other than the dummy keeps the bookkeeping of `Retains`. */
  lemma {:induction false} DestroyRetains(st0: Sched, st: Sched, callee: Id)
    requires Retains(st0, st) && callee in st.table && callee != Dummy
    ensures Retains(st0, AfterDestroy(st, callee).st)
  {
    var d := AfterDestroy(st, callee).st;
    assert d.table.Keys == st.table.Keys - {callee};
    assert |d.table| == |st.table| - 1;
    XcpMath.MulAddOne(|d.table|, StackSize(st0.pageSize));
  }

  lemma {:induction false} LoopFromRoot(st0: Sched, st: Sched, queue: seq<Id>, arg: Id, script: seq<Reaction>)
    requires Retains(st0, st) && Honest(script)
    ensures var r := ResumeLoop(st, queue, Dummy, arg, script, DestroyCallee);
      r.outcome == Completed ==> Retains(st0, r.st)
    decreases |script|
  {
    if queue != [] && queue[0] in st.table && script != [] {
      TurnFromRoot(st, queue[0], queue[1..], arg, script[0]);
      var t := AfterTurn(st, queue[0], queue[1..], Dummy, arg, script[0], DestroyCallee);
      if t.outcome == Completed {
        if script[0].exit != Yield {
          DestroyRetains(st0, st, queue[0]);
        }
        assert Honest(script[1..]) by {
          forall i | 0 <= i < |script[1..]| ensures !script[1..][i].exit.Stray? {
            assert script[1..][i] == script[i + 1];
          }
        }
        LoopFromRoot(st0, t.st, t.queue, arg, script[1..]);
      }
    }
  }

  lemma {:induction false} Rebalance(m: int, m0: int, n: int, n0: int, sz: int)
    requires m - n * sz == m0 - n0 * sz
    ensures m == m0 - (n0 - n) * sz
  {
    XcpMath.MulSub(n0, n, sz);
  }

  /**
   * What `Retains` says in plain terms: the root is quiescent, the
   * coroutines that remain are unchanged, and exactly one stack is unmapped
   * per coroutine destroyed.
   */
  lemma {:induction false} RetainsMeans(st0: Sched, st: Sched)
    requires Retains(st0, st)
    ensures Quiescent(st)
    ensures st.table.Keys <= st0.table.Keys
    ensures forall id :: id in st.table ==> st.table[id] == st0.table[id]
    ensures st.mapped == st0.mapped - (|st0.table| - |st.table|) * StackSize(st0.pageSize)
  {
    Rebalance(st.mapped, st0.mapped, |st.table|, |st0.table|, StackSize(st0.pageSize));
  }

  /**
   * A resume from the quiescent root that completes, every callee either
   * yielding or returning, leaves the root quiescent again, with the
   * bookkeeping of `Retains`: no coroutine keeps a caller or a pending
   * entry, and the survivors are unchanged.
   */
  lemma {:induction false} ResumeFromRootIsQuiescent(st: Sched, x: Id, script: seq<Reaction>)
    requires Quiescent(st) && Honest(script)
    ensures var r := AfterResume(st, x, script, DestroyCallee);
      r.outcome == Completed ==> Retains(st, r.st)
  {
    LoopFromRoot(st, st, [x], x, script);
  }

  /**
   * A callee of a resume from the quiescent root that processes `spawned`
   * and yields hands back the state exactly as it was, with `spawned` at
   * the front of the local queue, whichever coroutine `Terminated` would
   * destroy.
   */
  lemma {:induction false} YieldTurnFromRoot(st: Sched, callee: Id, rest: seq<Id>, arg: Id, spawned: seq<Id>, cleanup: Cleanup)
    requires Quiescent(st) && callee in st.table && callee != Dummy && ValidSpawns(st, callee, spawned)
    requires Disjoint(spawned, rest)
    ensures AfterTurn(st, callee, rest, Dummy, arg, Reaction(spawned, Yield), cleanup) == Turn(st, Completed, spawned + rest)
  {
    ExecFromRoot(st, callee, Reaction(spawned, Yield));
    var c := st.table[callee];
    assert st.table[callee := c.(caller := None, pendings := spawned)][callee := c] == st.table;
  }

  /**
   * Depth-first order: when a callee of a resume from the quiescent root
   * processes `spawned` and then yields or returns, the loop goes on with
   * `spawned` ahead of the rest of its queue.
   */
  lemma {:induction false} LoopStepFromRoot(st: Sched, queue: seq<Id>, arg: Id, script: seq<Reaction>, cleanup: Cleanup)
    requires Quiescent(st) && queue != [] && queue[0] in st.table && queue[0] != Dummy
    requires script != [] && ValidSpawns(st, queue[0], script[0].spawned) && Disjoint(script[0].spawned, queue[1..])
    requires script[0].exit == Yield || (script[0].exit == Return && cleanup == DestroyCallee)
    ensures var next := if script[0].exit == Yield then st else AfterDestroy(st, queue[0]).st;
      ResumeLoop(st, queue, Dummy, arg, script, cleanup)
        == Combine([queue[0]], ResumeLoop(next, script[0].spawned + queue[1..], Dummy, arg, script[1..], cleanup))
  {
    ResumeLoopTurn(st, queue, Dummy, arg, script, cleanup);
    if script[0].exit == Yield {
      YieldTurnFromRoot(st, queue[0], queue[1..], arg, script[0].spawned, cleanup);
    } else {
      TurnFromRoot(st, queue[0], queue[1..], arg, script[0]);
    }
  }

  lemma {:induction false} PrependSwitch(first: Id, whole: Run, rest: Run)
    requires whole == Combine([first], rest)
    ensures whole.outcome == rest.outcome && whole.trace == [first] + rest.trace && whole.st == rest.st
  {
  }

  // ---------------------------------------------------------------------------
  // Concrete runs.

  function Idle(c: nat): Coroutine { Coroutine(None, [], c, c) }

  /** At the root, with exactly the coroutines `ids` alive and idle. */
  predicate IdleWith(st: Sched, ids: set<Id>) {
    && st.current == Dummy && Dummy in ids && st.table.Keys == ids
    && forall id :: id in st.table ==> st.table[id] == Idle(id)
  }

  lemma {:induction false} EmptyPrefix(xs: seq<Id>)
    ensures [] + xs == xs
  {
  }

  /** The local queues met in the concrete runs below. */
  lemma {:induction false} QueueFacts()
    ensures [2, 3] + [1][1..] == [2, 3] && [4] + [2, 3][1..] == [4, 3]
    ensures [] + [4, 3][1..] == [3] && [] + [3][1..] == [] && [2] + [1][1..] == [2]
  {
  }

  /** The sets of live coroutines met in the concrete runs below. */
  lemma {:induction false} LiveFacts()
    ensures {0, 1, 2, 3, 4} - {1} == {0, 2, 3, 4} && {0, 2, 3, 4} - {2} == {0, 3, 4}
    ensures {0, 3, 4} - {4} == {0, 3} && {0, 3} - {3} == {0} && {0, 1, 2} - {2} == {0, 1}
  {
  }

  lemma {:induction false} TailFacts(script: seq<Reaction>)
    requires |script| == 2
    ensures |script[1..]| == 1 && script[1..][0] == script[1] && script[1..][1..] == []
  {
  }

  lemma {:induction false} RestFacts(script: seq<Reaction>)
    requires script == [Reaction([4], Return), Reaction([], Return), Reaction([], Return)]
    ensures script[1..] == [Reaction([], Return), Reaction([], Return)]
  {
  }

  lemma {:induction false} FamilyScriptFacts(script: seq<Reaction>)
    requires script == FamilyScript()
    ensures script[1..] == [Reaction([4], Return), Reaction([], Return), Reaction([], Return)]
  {
  }

  /** A callee of a resume from an idle root processes `spawned` and returns. */
  lemma {:induction false} ReturnStep(st: Sched, ids: set<Id>, queue: seq<Id>, spawned: seq<Id>, script: seq<Reaction>)
    requires IdleWith(st, ids) && queue != [] && queue[0] in ids && queue[0] != Dummy
    requires |script| > 0 && script[0] == Reaction(spawned, Return)
    requires forall i :: 0 <= i < |spawned| ==>
      spawned[i] in ids && spawned[i] != queue[0] && spawned[i] !in spawned[..i] && spawned[i] !in queue[1..]
    ensures ResumeLoop(st, queue, Dummy, 1, script, DestroyCallee)
      == Combine([queue[0]], ResumeLoop(AfterDestroy(st, queue[0]).st, spawned + queue[1..], Dummy, 1, script[1..], DestroyCallee))
    ensures IdleWith(AfterDestroy(st, queue[0]).st, ids - {queue[0]})
  {
    forall y ensures !Queued(st, y) {
      NoneQueued(st, y);
    }
    LoopStepFromRoot(st, queue, 1, script, DestroyCallee);
  }

  /** A (1) processes B (2) and C (3) and returns; B processes D (4) and returns; D and C return. */
  function FamilyScript(): seq<Reaction> {
    [Reaction([2, 3], Return), Reaction([4], Return), Reaction([], Return), Reaction([], Return)]
  }

  /** The first switch of the family: A. */
  lemma {:induction false} FamilyFirst(st: Sched, script: seq<Reaction>)
    requires IdleWith(st, {0, 1, 2, 3, 4}) && |script| > 0 && script[0] == Reaction([2, 3], Return)
    ensures var s1 := AfterDestroy(st, 1).st;
      && IdleWith(s1, {0, 2, 3, 4})
      && ResumeLoop(st, [1], Dummy, 1, script, DestroyCallee)
         == Combine([1], ResumeLoop(s1, [2, 3], Dummy, 1, script[1..], DestroyCallee))
  {
    LiveFacts();
    ReturnStep(st, {0, 1, 2, 3, 4}, [1], [2, 3], script);
    QueueFacts();
  }

  /** The second switch of the family: B. */
  lemma {:induction false} FamilySecond(s1: Sched, script: seq<Reaction>)
    requires IdleWith(s1, {0, 2, 3, 4}) && |script| > 0 && script[0] == Reaction([4], Return)
    ensures var s2 := AfterDestroy(s1, 2).st;
      && IdleWith(s2, {0, 3, 4})
      && ResumeLoop(s1, [2, 3], Dummy, 1, script, DestroyCallee)
         == Combine([2], ResumeLoop(s2, [4, 3], Dummy, 1, script[1..], DestroyCallee))
  {
    LiveFacts();
    ReturnStep(s1, {0, 2, 3, 4}, [2, 3], [4], script);
    QueueFacts();
  }

  /** The last two switches of the family: D, then C, and the loop ends. */
  lemma {:induction false} FamilyTail(s2: Sched, script: seq<Reaction>)
    requires IdleWith(s2, {0, 3, 4}) && script == [Reaction([], Return), Reaction([], Return)]
    ensures var r := ResumeLoop(s2, [4, 3], Dummy, 1, script, DestroyCallee);
      r.outcome == Completed && r.trace == [4, 3] && IdleWith(r.st, {0})
  {
    TailFacts(script);
    LiveFacts();
    ReturnStep(s2, {0, 3, 4}, [4, 3], [], script);
    var s3 := AfterDestroy(s2, 4).st;
    QueueFacts();
    ReturnStep(s3, {0, 3}, [3], [], script[1..]);
  }

  /** The switches after A: B, D, C. */
  lemma {:induction false} FamilyRest(s1: Sched, script: seq<Reaction>)
    requires IdleWith(s1, {0, 2, 3, 4})
    requires script == [Reaction([4], Return), Reaction([], Return), Reaction([], Return)]
    ensures var r := ResumeLoop(s1, [2, 3], Dummy, 1, script, DestroyCallee);
      r.outcome == Completed && r.trace == [2, 4, 3] && IdleWith(r.st, {0})
  {
    FamilySecond(s1, script);
    var s2 := AfterDestroy(s1, 2).st;
    RestFacts(script);
    FamilyTail(s2, script[1..]);
    PrependSwitch(2, ResumeLoop(s1, [2, 3], Dummy, 1, script, DestroyCallee),
      ResumeLoop(s2, [4, 3], Dummy, 1, script[1..], DestroyCallee));
  }

  /** The resume of A is a switch to A followed by the switches after A. */
  lemma {:induction false} FamilyRun(st: Sched, script: seq<Reaction>)
    requires IdleWith(st, {0, 1, 2, 3, 4}) && script == FamilyScript()
    ensures var rest := ResumeLoop(AfterDestroy(st, 1).st, [2, 3], Dummy, 1, script[1..], DestroyCallee);
      && rest.outcome == Completed && rest.trace == [2, 4, 3] && IdleWith(rest.st, {0})
      && AfterResume(st, 1, script, DestroyCallee) == Combine([1], rest)
  {
    FamilyFirst(st, script);
    FamilyScriptFacts(script);
    FamilyRest(AfterDestroy(st, 1).st, script[1..]);
  }

  /**
   * The coroutines a callee processes run right after it, before the rest
   * of the queue: the switches go A, B, D, C.
   */
  lemma {:induction false} DepthFirstOrder(st: Sched, script: seq<Reaction>)
    requires IdleWith(st, {0, 1, 2, 3, 4}) && script == FamilyScript()
    ensures var r := AfterResume(st, 1, script, DestroyCallee);
      r.outcome == Completed && r.trace == [1, 2, 4, 3]
  {
    FamilyRun(st, script);
    FamilyTrace();
  }

  lemma {:induction false} FamilyTrace()
    ensures [1] + [2, 4, 3] == [1, 2, 4, 3]
  {
  }

  /** Each of the four coroutines is destroyed once it returns; only the dummy is left. */
  lemma {:induction false} FamilyAllFreed(st: Sched, script: seq<Reaction>)
    requires IdleWith(st, {0, 1, 2, 3, 4}) && script == FamilyScript()
    ensures IdleWith(AfterResume(st, 1, script, DestroyCallee).st, {0})
  {
    FamilyRun(st, script);
  }

  /** A (1) processes B (2) and yields; B returns. */
  function YieldThenReturn(): seq<Reaction> {
    [Reaction([2], Yield), Reaction([], Return)]
  }

  /** B returns from the resume of A, as written: A is destroyed, B keeps its caller. */
  lemma {:induction false} AsWrittenReturn(st: Sched)
    requires IdleWith(st, {0, 1, 2})
    ensures var r := ResumeLoop(st, [2], Dummy, 1, YieldThenReturn()[1..], DestroyArgument);
      && r.outcome == Completed && r.trace == [2]
      && r.st.table == st.table[2 := Coroutine(Some(Dummy), [], 2, 2)] - {1}
  {
    var script := YieldThenReturn()[1..];
    ResumeLoopTurn(st, [2], Dummy, 1, script, DestroyArgument);
    ExecFromRoot(st, 2, script[0]);
    assert st.table[2 := Idle(2).(caller := Some(Dummy), pendings := [])][2 := Idle(2).(caller := Some(Dummy))]
      == st.table[2 := Coroutine(Some(Dummy), [], 2, 2)];
  }

  /**
   * As written, when A processes B and yields and B then returns, the loop
   * completes having destroyed A, which is suspended, while B keeps its
   * stack and the caller the loop gave it, so B can never be resumed.
   */
  lemma {:induction false} DestroyArgumentCounterexample(st: Sched, later: seq<Reaction>)
    requires IdleWith(st, {0, 1, 2})
    ensures var r := AfterResume(st, 1, YieldThenReturn(), DestroyArgument);
      && r.outcome == Completed
      && r.trace == [1, 2]
      && 1 !in r.st.table
      && 2 in r.st.table && r.st.table[2].caller == Some(Dummy)
      && !Quiescent(r.st)
      && AfterResume(r.st, 2, later, DestroyArgument).outcome == Aborted(AlreadyCalled)
  {
    LoopStepFromRoot(st, [1], 1, YieldThenReturn(), DestroyArgument);
    QueueFacts();
    AsWrittenReturn(st);
    var r := AfterResume(st, 1, YieldThenReturn(), DestroyArgument);
    PrependSwitch(1, r, ResumeLoop(st, [2], Dummy, 1, YieldThenReturn()[1..], DestroyArgument));
    ResumeAbortsWhenAlreadyCalled(r.st, 2, later, DestroyArgument);
  }

  /** Destroying the callee instead, the same run keeps A idle and frees B. */
  lemma {:induction false} DestroyCalleeSameRun(st: Sched)
    requires IdleWith(st, {0, 1, 2})
    ensures var r := AfterResume(st, 1, YieldThenReturn(), DestroyCallee);
      r.outcome == Completed && r.trace == [1, 2] && IdleWith(r.st, {0, 1})
  {
    LoopStepFromRoot(st, [1], 1, YieldThenReturn(), DestroyCallee);
    QueueFacts();
    LiveFacts();
    ReturnStep(st, {0, 1, 2}, [2], [], YieldThenReturn()[1..]);
    assert YieldThenReturn()[1..][1..] == [] && [] + [2][1..] == [];
    var r := AfterResume(st, 1, YieldThenReturn(), DestroyCallee);
    PrependSwitch(1, r, ResumeLoop(st, [2], Dummy, 1, YieldThenReturn()[1..], DestroyCallee));
  }

  /**
   * A (1) processes B (2) twice: the second `STAILQ_INSERT_TAIL` links B
   * while it is already on A's queue, whichever coroutine `Terminated`
   * would destroy.
   */
  lemma {:induction false} ProcessTwiceIsUndefined(st: Sched, script: seq<Reaction>, cleanup: Cleanup)
    requires IdleWith(st, {0, 1, 2}) && script != [] && script[0] == Reaction([2, 2], Yield)
    ensures var r := AfterResume(st, 1, script, cleanup);
      r.outcome == Undefined(Relink) && r.trace == [1]
  {
    var st1 := WithCaller(st, 1, Some(Dummy)).(current := 1);
    var s1 := AfterEnqueue(st1, 2);
    assert s1.outcome == Completed && 2 in s1.st.table[1].pendings;
    assert [2, 2][1..] == [2] && [2][1..] == [];
    assert AfterEnqueueAll(st1, [2, 2]).outcome == Undefined(Relink);
    ResumeLoopTurn(st, [1], Dummy, 1, script, cleanup);
  }

  /**
   * A (1) processes B (2) and C (3) and yields; B then processes C, which
   * still waits in the local queue: the concatenation would link C twice.
   */
  lemma {:induction false} ProcessWaitingIsUndefined(st: Sched, script: seq<Reaction>, cleanup: Cleanup)
    requires IdleWith(st, {0, 1, 2, 3}) && |script| >= 2
    requires script[0] == Reaction([2, 3], Yield) && script[1] == Reaction([3], Yield)
    ensures var r := AfterResume(st, 1, script, cleanup);
      r.outcome == Undefined(Relink) && r.trace == [1, 2]
  {
    LoopStepFromRoot(st, [1], 1, script, cleanup);
    QueueFacts();
    WaitingTurn(st, script[1..], cleanup);
    var r := AfterResume(st, 1, script, cleanup);
    PrependSwitch(1, r, ResumeLoop(st, [2, 3], Dummy, 1, script[1..], cleanup));
  }

  /** B (2) processes C (3) while C waits behind it in the local queue. */
  lemma {:induction false} WaitingTurn(st: Sched, script: seq<Reaction>, cleanup: Cleanup)
    requires IdleWith(st, {0, 1, 2, 3}) && script != [] && script[0] == Reaction([3], Yield)
    ensures var r := ResumeLoop(st, [2, 3], Dummy, 1, script, cleanup);
      r.outcome == Undefined(Relink) && r.trace == [2]
  {
    assert [2, 3][1..] == [3];
    ExecFromRoot(st, 2, script[0]);
    SingletonOverlaps(3);
    var t := AfterTurn(st, 2, [3], Dummy, 1, script[0], cleanup);
    assert t.outcome == Undefined(Relink);
    ResumeLoopTurn(st, [2, 3], Dummy, 1, script, cleanup);
  }

  lemma {:induction false} SingletonOverlaps(x: Id)
    ensures !Disjoint([x], [x])
  {
    assert x in [x];
  }
}
