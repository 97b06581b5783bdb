/** The lower layers do what the upper ones take for granted: the queue lock for the barrier, the
    semaphore for the barrier and the condition variable, the mutex for the condition variable and
    the read/write lock, the condition variable for the read/write lock, and the lists for the robust
    mutex. On each side a step is shown to be one of the same abstract object. */
module Layers {
  import opened Common
  import Barrier
  import BarrierLaws
  import CondVar
  import CondVarLaws
  import McsLock
  import Mutex
  import MutexLaws
  import RobustList
  import RobustMutex
  import RobustMutexLaws
  import RwLock
  import RwLockLaws
  import Semaphore
  import SemaphoreLaws

  // ----- a lock whose ownership can be moved to a proxy ----------------------------------------

  /** What user `me` may do to the lock: nothing, take it when it is free, free it, or move it to the
      proxy. */
  predicate LockStep(l: Barrier.Lock, l': Barrier.Lock, me: Barrier.Lock) {
    l' == l || (l.Free? && l' == me) || (l == me && l'.Free?) || (l == me && l'.Proxy?)
  }

  /** The queue lock, seen by users that have one node each: whose node owns it? */
  ghost function LockOf(s: McsLock.State, user: McsLock.NodeId -> Barrier.Lock): Barrier.Lock {
    var o := McsLock.Owner(s);
    if o.None? then Barrier.Free else user(o.value)
  }

  /** If transfers go to the proxy only, every step on a node is a step of the node's user. */
  lemma QueueLockServes(s: McsLock.State, n: McsLock.NodeId, a: McsLock.Act, user: McsLock.NodeId -> Barrier.Lock)
    requires McsLock.Reachable(s) && McsLock.Enabled(s, n, a)
    requires var c := McsLock.ChangeOf(s, n, a); c.TakeOver? ==> user(c.to).Proxy?
    ensures LockStep(LockOf(s, user), LockOf(McsLock.Apply(s, n, a), user), user(n))
  {
    McsLock.RefinesAbstractLock(s, n, a);
    hide McsLock.Owner, McsLock.Apply, McsLock.Reachable, McsLock.Enabled;
  }

  /** In whose name a thread at p uses the lock: the last one out frees it for the proxy. */
  function InNameOf(t: Barrier.Tid, p: Barrier.Pc): Barrier.Lock {
    if p.Closing? then Barrier.Proxy else Barrier.By(t)
  }

  /** The barrier does no more to its lock, and only the thread that has the lock touches the height
      on the way down. */
  lemma BarrierAsks(s: Barrier.State, t: Barrier.Tid)
    requires BarrierLaws.Reachable(s) && Barrier.Enabled(s, t)
    ensures LockStep(s.sh.lock, Barrier.Apply(s, t).sh.lock, InNameOf(t, s.pc[t]))
    ensures Barrier.Apply(s, t).sh.height < s.sh.height ==> s.sh.lock == Barrier.By(t)
  {
    BarrierLaws.ReachableInvariant(s);
    assert Barrier.ThreadOk(s.sh, t, s.pc[t]);
    if s.pc[t].Closing? {
      Barrier.Counted(s, t, s.pc[t]);
      Barrier.ClosingStep(s.sh, t, s.pc[t], Barrier.Count(s));
    }
  }

  /** While somebody queues for a lock that nobody owns, the queue lock goes on by itself. */
  lemma QueueLockHandsOut(s: McsLock.State, user: McsLock.NodeId -> Barrier.Lock)
    requires McsLock.Reachable(s) && |s.queue| > 0
    requires LockOf(s, user).Free? && forall n :: !user(n).Free?
    ensures exists n, a :: McsLock.Internal(a) && McsLock.Enabled(s, n, a)
  {
    assert McsLock.Owner(s).None?;
    McsLock.NoDeadlock(s);
  }

  /** A barrier on top of a queue lock, in any two states that agree on who has the lock: if neither
      a thread inside the barrier nor an operation of the queue lock can go on, then nobody queues
      for the lock, and the barrier waits for threads that have not come yet. */
  lemma BarrierOnQueueLock(s: Barrier.State, m: McsLock.State, user: McsLock.NodeId -> Barrier.Lock)
    requires BarrierLaws.Reachable(s) && McsLock.Reachable(m)
    requires LockOf(m, user) == s.sh.lock && forall n :: !user(n).Free?
    requires forall t :: t in s.pc && !s.pc[t].Outside? ==> !Barrier.Enabled(s, t)
    requires forall n, a :: McsLock.Internal(a) ==> !McsLock.Enabled(m, n, a)
    ensures m.queue == [] && |s.sh.came| < s.sh.n
    ensures forall t :: t in s.pc ==> s.pc[t].Outside? || s.pc[t].Waiting?
  {
    BarrierLaws.NoDeadlock(s);
    if |m.queue| > 0 { QueueLockHandsOut(m, user); }
  }

  // ----- a counter of units --------------------------------------------------------------------

  /** A unit is taken that was there, or a post adds its units. */
  predicate CounterStep(v: int, v': int, posted: int) {
    v' == v || (v > 0 && v' == v - 1) || (posted > 0 && v' == v + posted)
  }

  /** Posts that the operating system refuses are taken back; all other steps of the semaphore are
      those of the counter. */
  lemma SemaphoreServes(s: Semaphore.State, t: Semaphore.Tid, a: Semaphore.Act)
    requires SemaphoreLaws.Reachable(s) && Semaphore.Enabled(s, t, a)
    requires a.Release? ==> s.sh.tokens + s.pc[t].n <= Semaphore.SEM_VALUE_MAX
    ensures CounterStep(Semaphore.Available(s), Semaphore.Available(Semaphore.Apply(s, t, a)),
                        if a.DoPost? then s.pc[t].op.count else 0)
  {
    SemaphoreLaws.RefinesCounter(s, t, a);
    SemaphoreLaws.ReachableInvariant(s);
    assert Semaphore.ThreadOk(s.sh, t, s.pc[t]);
  }

  lemma BarrierCounts(s: Barrier.State, t: Barrier.Tid)
    requires BarrierLaws.Reachable(s) && Barrier.Enabled(s, t)
    ensures CounterStep(s.sh.sem, Barrier.Apply(s, t).sh.sem, if s.pc[t].Posting? then s.sh.n - 1 else 0)
  {
    BarrierLaws.ReachableInvariant(s);
  }

  /** The gate is posted one unit at a time, the queue as many as there are waiters to wake. */
  lemma CondVarCounts(s: CondVar.State, t: CondVar.Tid, a: CondVar.Act)
    requires CondVarLaws.Reachable(s) && CondVar.Enabled(s, t, a)
    ensures CounterStep(s.sh.gate, CondVar.Apply(s, t, a).sh.gate, 1)
    ensures CounterStep(s.sh.queue, CondVar.Apply(s, t, a).sh.queue, if a.Post? then s.pc[t].n else 0)
  {
    CondVarLaws.ReachableInvariant(s);
    assert CondVar.ThreadOk(s.sh, t, s.pc[t]);
  }

  // ----- a mutex -------------------------------------------------------------------------------

  /** The thread in possession, of which there is at most one. */
  ghost function Holder(s: Mutex.State): Option<nat> {
    if t :| t in s.threads && Mutex.Holds(s.threads[t]) then Some(t) else None
  }

  lemma HolderIs(s: Mutex.State, t: Mutex.Tid)
    requires MutexLaws.Reachable(s) && t in s.threads
    ensures Mutex.Holds(s.threads[t]) <==> Holder(s) == Some(t)
  {
    if Holder(s).Some? { MutexLaws.MutualExclusion(s, t, Holder(s).value); }
  }

  /** A step of thread t takes the free mutex for t or frees t's own. */
  lemma MutexServes(s: Mutex.State, t: Mutex.Tid, a: Mutex.Act)
    requires MutexLaws.Reachable(s) && Mutex.Enabled(s, t, a)
    ensures OnlyOwn(Holder(s), Holder(Mutex.Apply(s, t, a)), t)
  {
    var s' := Mutex.Apply(s, t, a);
    MutexLaws.StepReachable(s, t, a);
    MutexLaws.ReleasesAtZero(s, t, a);
    MutexLaws.MutualExclusion(s, t, t);
    HolderIs(s, t);
    HolderIs(s', t);
    hide Mutex.Holds, Mutex.Move, MutexLaws.Reachable;
    var h, h' := Holder(s), Holder(s');
    if h.Some? && h.value != t { HolderIs(s', h.value); }
    if h'.Some? && h'.value != t { HolderIs(s, h'.value); }
  }

  lemma CondVarLocks(s: CondVar.State, t: CondVar.Tid, a: CondVar.Act)
    requires CondVarLaws.Reachable(s) && CondVar.Enabled(s, t, a)
    ensures OnlyOwn(s.sh.mtx, CondVar.Apply(s, t, a).sh.mtx, t)
  {
    CondVarLaws.ReachableInvariant(s);
    assert CondVar.ThreadOk(s.sh, t, s.pc[t]);
  }

  lemma RwLockLocks(s: RwLock.State, t: RwLock.Tid, a: RwLock.Act)
    requires RwLockLaws.Reachable(s) && RwLock.Enabled(s, t, a)
    ensures OnlyOwn(s.sh.mtxE, RwLock.Apply(s, t, a).sh.mtxE, t)
    ensures OnlyOwn(s.sh.mtxC, RwLock.Apply(s, t, a).sh.mtxC, t)
  {
    RwLockLaws.ReachableInvariant(s);
    RwLock.ThreadFits(s, t);
    RwLock.MoveKeepsOwnership(s.sh, t, s.pc[t], a);
    hide RwLock.Move;
  }

  // ----- a condition variable with one waiter --------------------------------------------------

  /** At most one thread waits on the condition variable of a read/write lock. */
  lemma OneWaiter(s: RwLock.State, t: RwLock.Tid, u: RwLock.Tid)
    requires RwLockLaws.Reachable(s) && t in s.pc && u in s.pc && s.pc[t].WrAsleep? && s.pc[u].WrAsleep?
    ensures t == u
  {
    RwLockLaws.ReachableInvariant(s);
    assert RwLock.OwnsWhatItShould(s.sh, t, s.pc[t]) && RwLock.OwnsWhatItShould(s.sh, u, s.pc[u]);
  }

  /** Then the section of a signal leaves no waiter uncovered: if there is one, a unit of the queue
      is there for it, on its way to it, or its own already. */
  lemma SignalReachesIt(s: CondVar.State, t: CondVar.Tid, a: CondVar.Act)
    requires CondVarLaws.Reachable(s) && CondVar.Enabled(s, t, a) && CondVar.RegisteredWaiters(s) <= 1
    requires CondVarLaws.EndsSection(s.pc[t], CondVar.Apply(s, t, a).pc[t])
    ensures var s' := CondVar.Apply(s, t, a);
            && s'.sh.c.toUnblock == CondVar.RegisteredWaiters(s') == CondVar.RegisteredWaiters(s)
            && CondVar.RegisteredWaiters(s') <= s'.sh.queue + CondVar.ToPost(s') + CondVar.TokensHeld(s')
  {
    CondVarLaws.Accounting(s);
    CondVarLaws.SectionCovers(s, t, a);
    CondVarLaws.StepReachable(s, t, a);
    CondVarLaws.WakeupsNeverLost(CondVar.Apply(s, t, a));
    hide CondVar.Move, CondVar.Decide, CondVarLaws.Reachable;
  }

  // ----- the lists of robust mutexes -----------------------------------------------------------

  /** What a step on one mutex does to the list of the thread that takes it. */
  datatype ListStep = Add | Remove | Leave

  function ListStepOf(p: RobustMutex.Pc, a: RobustMutex.Act): ListStep {
    if a.Go? && p.Add? then Add else if a.Go? && (p.Remove? || p.DieRemove?) then Remove else Leave
  }

  /** The machine of mutex m and the lists of all threads agree on who has m on its list. */
  ghost predicate ListsAgree(s: RobustMutex.State, m: RobustList.RobustMutex,
      held: map<RobustList.RobustMutex, RobustList.HolderThread>, who: RobustMutex.Tid -> RobustList.HolderThread)
  {
    && (forall t :: t in s.threads ==> (s.threads[t].listed <==> m in held && held[m] == who(t)))
    && (m in held ==> exists t :: t in s.threads && held[m] == who(t))
  }

  /** A mutex is added when it is on no list and removed from the list of the thread that takes the
      step, as Holdings.Acquire, Release and Die demand; and after what these do to `held`, machine
      and lists agree again. */
  lemma ListsFollow(s: RobustMutex.State, t: RobustMutex.Tid, a: RobustMutex.Act, m: RobustList.RobustMutex,
      held: map<RobustList.RobustMutex, RobustList.HolderThread>, who: RobustMutex.Tid -> RobustList.HolderThread)
    requires RobustMutexLaws.Reachable(s) && RobustMutex.Enabled(s, t, a) && ListsAgree(s, m, held, who)
    requires forall u, v :: u in s.threads && v in s.threads && who(u) == who(v) ==> u == v
    ensures match ListStepOf(s.threads[t].p, a)
            case Add => m !in held && ListsAgree(RobustMutex.Apply(s, t, a), m, held[m := who(t)], who)
            case Remove =>
              m in held && held[m] == who(t) && ListsAgree(RobustMutex.Apply(s, t, a), m, held - {m}, who)
            case Leave => ListsAgree(RobustMutex.Apply(s, t, a), m, held, who)
  {
    RobustMutexLaws.ReachableInvariant(s);
    var s' := RobustMutex.Apply(s, t, a);
    assert RobustMutex.ThreadOk(s.sh, t, s.threads[t]);
    ListedAfter(s.sh, t, s.threads[t], a);
    forall u | u in s.threads && u != t && s.threads[u].listed ensures !s.threads[t].p.Add? && !s.threads[t].listed {
      assert RobustMutex.ThreadOk(s.sh, u, s.threads[u]);
      if RobustMutex.Holds(s.threads[t]) { RobustMutex.HolderUnique(s, t, u); }
    }
    hide RobustMutex.Move, RobustMutex.ThreadOk, RobustMutex.Invariant, RobustMutex.Holds;
    assert forall u :: u in s.threads && u != t ==> s'.threads[u] == s.threads[u];
  }

  lemma ListedAfter(sh: RobustMutex.Shared, t: RobustMutex.Tid, th: RobustMutex.Thread, a: RobustMutex.Act)
    requires RobustMutex.CanMove(sh, th, a) && RobustMutex.ThreadOk(sh, t, th)
    ensures var th' := RobustMutex.Move(sh, t, th, a).1;
            match ListStepOf(th.p, a)
            case Add => !th.listed && th'.listed
            case Remove => th.listed && !th'.listed
            case Leave => th'.listed == th.listed
  {
  }
}
