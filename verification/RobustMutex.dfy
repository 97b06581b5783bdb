/** Robust mutexes: the second halves of pthread_mutex_lock.c, pthread_mutex_trylock.c and
    pthread_mutex_unlock.c, pthread_mutex_consistent.c, and the loop of
    pthread_win32_thread_detach_np that gives up the mutexes of a thread that ends.

    One mutex, any number of threads; every interlocked instruction and every other access to the
    mutex is one atomic step. Module RobustList has the list of the mutexes a thread holds; here a
    thread only knows whether this mutex is on its list. */
module RobustMutex {
  import opened Common
  import Tally

  type Tid = nat

  datatype Kind = Normal | Recursive | ErrorCheck

  datatype Result = Ok | EOWNERDEAD | ENOTRECOVERABLE | EBUSY | EDEADLK | EPERM | EINVAL

  /** stateInconsistent; OwnerDied is the value -1 that a terminating thread leaves. */
  datatype Robust = Consistent | Inconsistent | NotRecoverable | OwnerDied

  // ----- the machine ---------------------------------------------------------------------------

  datatype Pc =
    | Idle
    // pthread_mutex_lock
    | LState                    // about to look at the state (152)
    | LExchange                 // about to exchange lock_idx with 1 (166)
    | LCas                      // about to compare-exchange lock_idx (203)
    | LOwner                    // about to compare ownerThread with itself (217)
    | LInherit                  // about to compare-exchange the state (170, 230)
    | LMark                     // about to exchange lock_idx with -1 (171, 231)
    | LSleep                    // waits for the event (175, 235)
    | LCheck                    // about to look at the state again (180, 240)
    | LWakeNext                 // about to set the event for the next one (186, 246)
    // pthread_mutex_trylock
    | TState                    // 106
    | TCas                      // 117
    | TOwner                    // 131
    | TInherit                  // 137
    // what they have in common; r is what the call will return
    | SetCount(r: Result)       // about to set recursive_count to 1
    | Add(r: Result)            // about to call ptw32_robust_mutex_add
    | AddCount                  // about to increment recursive_count
    // pthread_mutex_unlock
    | UOwner                    // about to compare ownerThread with itself (121)
    | UState                    // about to compare-exchange the state (123)
    | SubCount                  // about to decrement recursive_count (145)
    | Remove                    // about to call ptw32_robust_mutex_remove (128, 147)
    | UExchange                 // about to exchange lock_idx with 0 (130, 149)
    | Signal                    // about to set the event (136, 155)
    // pthread_win32_thread_detach_np
    | Dying                     // about to look at its list (224)
    | DieRemove                 // about to take the mutex off it (227)
    | DieMark                   // about to exchange the state with -1 (228)
    | DieSignal                 // about to set the event (236)
    | Dead

  /** A thread: where it is, how many locks it has taken and not given back, whether the mutex is on
      its list, and what its last call returned. */
  datatype Thread = Thread(p: Pc, depth: int, listed: bool, last: Result)

  /** The fields of the mutex and of its robust node, and the state of its event. The rest is
      history: how many owners have died, and how often EOWNERDEAD has been given out. */
  datatype Shared = Shared(
    kind: Kind, lockIdx: int, count: int, owner: Option<Tid>, event: bool, state: Robust, deaths: int, inherited: int)

  datatype State = State(sh: Shared, threads: map<Tid, Thread>)

  datatype Act = CallLock | CallTryLock | CallUnlock | CallConsistent | Exit | Go

  predicate CanMove(sh: Shared, th: Thread, a: Act) {
    match a
    case CallLock => th.p.Idle?
    case CallTryLock => th.p.Idle?
    case CallUnlock => th.p.Idle?
    case CallConsistent => th.p.Idle?
    case Exit => th.p.Idle?
    case Go => !th.p.Idle? && !th.p.Dead? && (th.p.LSleep? ==> sh.event)
  }

  function Return(th: Thread, r: Result): Thread { th.(p := Idle, last := r) }

  function Move(sh: Shared, t: Tid, th: Thread, a: Act): (Shared, Thread)
    requires CanMove(sh, th, a)
  {
    match a
    case CallLock => (sh, th.(p := LState))
    case CallTryLock => (sh, th.(p := TState))
    case CallUnlock => (sh, th.(p := UOwner))
    case CallConsistent =>
      if sh.state.Inconsistent? then (sh.(state := Consistent), Return(th, Ok)) else (sh, Return(th, EINVAL))
    case Exit => (sh, th.(p := Dying))
    case Go =>
      if Locking(th.p) then LockStep(sh, t, th)
      else if Unlocking(th.p) then UnlockStep(sh, t, th)
      else DeathStep(sh, t, th)
  }

  predicate Locking(p: Pc) {
    p.LState? || p.LExchange? || p.LCas? || p.LOwner? || p.LInherit? || p.LMark? || p.LSleep? || p.LCheck?
    || p.LWakeNext? || p.TState? || p.TCas? || p.TOwner? || p.TInherit? || p.SetCount? || p.Add? || p.AddCount?
  }

  predicate Unlocking(p: Pc) {
    p.UOwner? || p.UState? || p.SubCount? || p.Remove? || p.UExchange? || p.Signal?
  }

  /** Where a thread goes that has changed lock_idx from 0. */
  function Acquired(sh: Shared, th: Thread): Thread { th.(p := if sh.kind.Normal? then Add(Ok) else SetCount(Ok)) }

  function LockStep(sh: Shared, t: Tid, th: Thread): (Shared, Thread)
    requires Locking(th.p) && CanMove(sh, th, Go)
  {
    match th.p
    case LState =>
      (sh, if sh.state.NotRecoverable? then Return(th, ENOTRECOVERABLE)
           else th.(p := if sh.kind.Normal? then LExchange else LCas))
    case LExchange => (sh.(lockIdx := 1), if sh.lockIdx == 0 then Acquired(sh, th) else th.(p := LInherit))
    case LCas => if sh.lockIdx == 0 then (sh.(lockIdx := 1), Acquired(sh, th)) else (sh, th.(p := LOwner))
    case LOwner =>
      (sh, if sh.owner != Some(t) then th.(p := LInherit)
           else if sh.kind.Recursive? then th.(p := AddCount) else Return(th, EDEADLK))
    case LInherit =>
      if sh.state.OwnerDied? then
        (sh.(state := Inconsistent, inherited := sh.inherited + 1),
         th.(p := if sh.kind.Normal? then Add(EOWNERDEAD) else SetCount(EOWNERDEAD)))
      else (sh, if sh.state.NotRecoverable? then Return(th, ENOTRECOVERABLE) else th.(p := LMark))
    case LMark => (sh.(lockIdx := -1), if sh.lockIdx == 0 then Acquired(sh, th) else th.(p := LSleep))
    case LSleep => (sh.(event := false), th.(p := LCheck))
    case LCheck => (sh, th.(p := if sh.state.NotRecoverable? then LWakeNext else LInherit))
    case LWakeNext => (sh.(event := true), Return(th, ENOTRECOVERABLE))
    case TState => (sh, if sh.state.NotRecoverable? then Return(th, ENOTRECOVERABLE) else th.(p := TCas))
    case TCas =>
      if sh.lockIdx == 0 then (sh.(lockIdx := 1), Acquired(sh, th))
      else (sh, th.(p := if sh.kind.Recursive? then TOwner else TInherit))
    case TOwner => (sh, th.(p := if sh.owner == Some(t) then AddCount else TInherit))
    case TInherit =>
      if sh.state.OwnerDied? then
        (sh.(state := Inconsistent, inherited := sh.inherited + 1), th.(p := SetCount(EOWNERDEAD)))
      else (sh, Return(th, if sh.state.NotRecoverable? then ENOTRECOVERABLE else EBUSY))
    case SetCount(r) => (sh.(count := 1), th.(p := Add(r)))
    case Add(r) => (sh.(owner := Some(t)), Thread(Idle, th.depth + 1, true, r))
    case AddCount => (sh.(count := sh.count + 1), Thread(Idle, th.depth + 1, th.listed, Ok))
  }

  function UnlockStep(sh: Shared, t: Tid, th: Thread): (Shared, Thread)
    requires Unlocking(th.p)
  {
    match th.p
    case UOwner => (sh, if sh.owner == Some(t) then th.(p := UState) else Return(th, EPERM))
    case UState =>
      (if sh.state.Inconsistent? then sh.(state := NotRecoverable) else sh,
       if sh.kind.Recursive? then th.(p := SubCount) else th.(p := Remove, depth := th.depth - 1))
    case SubCount =>
      (sh.(count := sh.count - 1),
       if sh.count - 1 == 0 then th.(p := Remove, depth := th.depth - 1)
       else th.(p := Idle, depth := th.depth - 1, last := Ok))
    case Remove => (sh.(owner := None), th.(p := UExchange, listed := false))
    case UExchange => (sh.(lockIdx := 0), if sh.lockIdx < 0 then th.(p := Signal) else Return(th, Ok))
    case Signal => (sh.(event := true), Return(th, Ok))
  }

  function DeathStep(sh: Shared, t: Tid, th: Thread): (Shared, Thread)
    requires th.p.Dying? || th.p.DieRemove? || th.p.DieMark? || th.p.DieSignal?
  {
    match th.p
    case Dying => (sh, th.(p := if th.listed then DieRemove else Dead))
    case DieRemove => (sh.(owner := Some(t)), th.(p := DieMark, listed := false, depth := 0))
    case DieMark => (sh.(state := OwnerDied, deaths := sh.deaths + 1), th.(p := DieSignal))
    case DieSignal => (sh.(event := true), th.(p := Dying))
  }

  predicate Enabled(s: State, t: Tid, a: Act) { t in s.threads && CanMove(s.sh, s.threads[t], a) }

  function Apply(s: State, t: Tid, a: Act): State
    requires Enabled(s, t, a)
  {
    var (sh, th) := Move(s.sh, t, s.threads[t], a);
    State(sh, s.threads[t := th])
  }

  predicate Init(s: State) {
    && s.sh.lockIdx == 0 && s.sh.owner.None? && !s.sh.event && s.sh.state.Consistent?
    && s.sh.deaths == 0 && s.sh.inherited == 0
    && forall t :: t in s.threads ==> s.threads[t] == Thread(Idle, 0, false, Ok)
  }

  ghost predicate Next(s: State, s': State) {
    exists t, a :: Enabled(s, t, a) && s' == Apply(s, t, a)
  }

  ghost predicate Run(ss: seq<State>) {
    && |ss| > 0 && Init(ss[0])
    && forall i :: 0 <= i < |ss| - 1 ==> Next(ss[i], ss[i + 1])
  }

  // ----- the code, and what it does when nobody interferes --------------------------------------

  /** How far a thread is from the end of its call or from its next sleep. */
  function Distance(th: Thread): nat {
    match th.p
    case Idle | Dead => 0
    case Signal | AddCount | Add(_) | LWakeNext => 1
    case UExchange | SetCount(_) => 2
    case Remove | TInherit => 3
    case SubCount | TOwner | LSleep => 4
    case UState | TCas | LMark => 5
    case UOwner | TState | LInherit => 6
    case LCheck | LOwner => 7
    case LExchange | LCas => 8
    case LState => 9
    case DieSignal => if th.listed then 6 else 2
    case DieMark => if th.listed then 7 else 3
    case DieRemove => 4
    case Dying => if th.listed then 5 else 1
  }

  /** In the part of pthread_mutex_lock that may sleep. */
  predicate MaySleep(p: Pc) {
    p.LState? || p.LExchange? || p.LCas? || p.LOwner? || p.LInherit? || p.LMark? || p.LSleep? || p.LCheck?
  }

  /** Thread t goes on alone until its call returns or it has to sleep. */
  function Alone(sh: Shared, t: Tid, th: Thread): (r: (Shared, Thread))
    ensures r.1.p.Idle? || r.1.p.Dead? || (r.1.p.LSleep? && !r.0.event)
    decreases MaySleep(th.p), MaySleep(th.p) && sh.event, Distance(th)
  {
    if CanMove(sh, th, Go) then var (sh', th') := Move(sh, t, th, Go); Alone(sh', t, th') else (sh, th)
  }

  lemma Finished(sh: Shared, t: Tid, th: Thread)
    requires th.p.Idle?
    ensures Alone(sh, t, th) == (sh, th)
  {
  }

  lemma Asleep(sh: Shared, t: Tid, th: Thread)
    requires th.p.LSleep? && !sh.event
    ensures Alone(sh, t, th) == (sh, th)
  {
  }

  /** One step, and then the rest. */
  lemma OneStep(sh: Shared, t: Tid, th: Thread)
    requires CanMove(sh, th, Go)
    ensures var (sh', th') := Move(sh, t, th, Go); Alone(sh, t, th) == Alone(sh', t, th')
  {
  }

  /** pthread_mutex_lock.c:150-161. */
  lemma StateStep(sh: Shared, t: Tid, th: Thread)
    requires th.p.LState?
    ensures Alone(sh, t, th) ==
              Alone(sh, t, if sh.state.NotRecoverable? then Return(th, ENOTRECOVERABLE)
                           else th.(p := if sh.kind.Normal? then LExchange else LCas))
  {
    hide Alone, UnlockStep, DeathStep;
    OneStep(sh, t, th);
  }

  lemma FinishAdding(sh: Shared, t: Tid, th: Thread)
    requires th.p.Add?
    ensures Alone(sh, t, th) == (sh.(owner := Some(t)), Thread(Idle, th.depth + 1, true, th.p.r))
  {
    hide Alone, UnlockStep, DeathStep;
    OneStep(sh, t, th);
    Finished(sh.(owner := Some(t)), t, Thread(Idle, th.depth + 1, true, th.p.r));
  }

  lemma FinishTaking(sh: Shared, t: Tid, th: Thread)
    requires th.p.SetCount?
    ensures Alone(sh, t, th) == (sh.(count := 1, owner := Some(t)), Thread(Idle, th.depth + 1, true, th.p.r))
  {
    hide Alone, UnlockStep, DeathStep;
    OneStep(sh, t, th);
    FinishAdding(sh.(count := 1), t, th.(p := Add(th.p.r)));
  }

  lemma FinishCounting(sh: Shared, t: Tid, th: Thread)
    requires th.p.AddCount?
    ensures Alone(sh, t, th) == (sh.(count := sh.count + 1), Thread(Idle, th.depth + 1, th.listed, Ok))
  {
    hide Alone, UnlockStep, DeathStep;
    OneStep(sh, t, th);
    Finished(sh.(count := sh.count + 1), t, Thread(Idle, th.depth + 1, th.listed, Ok));
  }

  lemma FinishExchange(sh: Shared, t: Tid, th: Thread)
    requires th.p.UExchange?
    ensures Alone(sh, t, th) == (sh.(lockIdx := 0, event := sh.event || sh.lockIdx < 0), th.(p := Idle, last := Ok))
  {
    hide Alone, LockStep, DeathStep;
    OneStep(sh, t, th);
    if sh.lockIdx < 0 { OneStep(sh.(lockIdx := 0), t, th.(p := Signal)); }
    Finished(sh.(lockIdx := 0, event := sh.event || sh.lockIdx < 0), t, th.(p := Idle, last := Ok));
  }

  lemma FinishGiving(sh: Shared, t: Tid, th: Thread)
    requires th.p.Remove?
    ensures Alone(sh, t, th) ==
              (sh.(owner := None, lockIdx := 0, event := sh.event || sh.lockIdx < 0), Thread(Idle, th.depth, false, Ok))
  {
    hide Alone, LockStep, DeathStep;
    OneStep(sh, t, th);
    FinishExchange(sh.(owner := None), t, th.(p := UExchange, listed := false));
  }

  /** The mutex and its robust node. The methods take and return what the calling thread knows of
      itself, and stop where it would sleep. */
  class RobustMutexCode {
    const kind: Kind
    var lockIdx: int
    var recursiveCount: int
    var ownerThread: Option<Tid>
    var event: bool
    var stateInconsistent: Robust
    ghost var deaths: int
    ghost var inherited: int

    constructor (kind: Kind)
      ensures this.kind == kind && lockIdx == 0 && ownerThread == None && !event && stateInconsistent == Consistent
    {
      this.kind := kind;
      lockIdx, recursiveCount, ownerThread, event, stateInconsistent := 0, 0, None, false, Consistent;
      deaths, inherited := 0, 0;
    }

    ghost function View(): Shared
      reads this
    {
      Shared(kind, lockIdx, recursiveCount, ownerThread, event, stateInconsistent, deaths, inherited)
    }

    /** ptw32_robust_mutex_inherit, pthread_mutex_consistent.c:77-100. */
    method Inherit() returns (result: Result)
      modifies this`stateInconsistent, this`inherited
      ensures old(stateInconsistent).OwnerDied? ==>
                result == EOWNERDEAD && View() == old(View()).(state := Inconsistent, inherited := old(inherited) + 1)
      ensures !old(stateInconsistent).OwnerDied? ==>
                View() == old(View()) && result == if stateInconsistent.NotRecoverable? then ENOTRECOVERABLE else Ok
    {
      match stateInconsistent
      case OwnerDied =>
        stateInconsistent := Inconsistent;
        inherited := inherited + 1;
        result := EOWNERDEAD;
      case NotRecoverable => result := ENOTRECOVERABLE;
      case _ => result := Ok;
    }

    /** pthread_mutex_lock.c:150-264. */
    method Lock(self: Tid, me: Thread) returns (th: Thread)
      requires me.p.Idle?
      modifies this
      ensures (View(), th) == Alone(old(View()), self, me.(p := LState))
    {
      hide Alone, LockStep, UnlockStep, DeathStep;
      StateStep(View(), self, me.(p := LState));
      if stateInconsistent.NotRecoverable? {
        Finished(View(), self, Return(me, ENOTRECOVERABLE));
        return Return(me, ENOTRECOVERABLE);
      }
      if kind.Normal? { th := LockNormal(self, me); } else { th := LockOwned(self, me); }
    }

    /** 164-200. */
    method LockNormal(self: Tid, me: Thread) returns (th: Thread)
      requires me.p.Idle? && kind.Normal?
      modifies this
      ensures (View(), th) == Alone(old(View()), self, me.(p := LExchange))
    {
      hide Alone, UnlockStep, DeathStep;
      OneStep(View(), self, me.(p := LExchange));
      var was := lockIdx;
      lockIdx := 1;
      if was == 0 { th := Take(self, me, Ok); } else { th := InheritOrSleep(self, me); }
    }

    /** 203-260. */
    method LockOwned(self: Tid, me: Thread) returns (th: Thread)
      requires me.p.Idle? && !kind.Normal?
      modifies this
      ensures (View(), th) == Alone(old(View()), self, me.(p := LCas))
    {
      hide Alone, UnlockStep, DeathStep;
      OneStep(View(), self, me.(p := LCas));
      if lockIdx == 0 {
        lockIdx := 1;
        th := Take(self, me, Ok);
        return;
      }
      OneStep(View(), self, me.(p := LOwner));
      if ownerThread == Some(self) {
        th := LockAgain(self, me);
        return;
      }
      th := InheritOrSleep(self, me);
    }

    /** 217-228: the caller has the mutex already. */
    method LockAgain(self: Tid, me: Thread) returns (th: Thread)
      requires me.p.Idle?
      modifies this`recursiveCount
      ensures (View(), th) ==
                Alone(old(View()), self, if kind.Recursive? then me.(p := AddCount) else Return(me, EDEADLK))
    {
      hide Alone, LockStep, UnlockStep, DeathStep;
      if kind.Recursive? {
        FinishCounting(View(), self, me.(p := AddCount));
        recursiveCount := recursiveCount + 1;
        return Thread(Idle, me.depth + 1, me.listed, Ok);
      }
      Finished(View(), self, Return(me, EDEADLK));
      th := Return(me, EDEADLK);
    }

    /** The loop of 170-190 and 230-250, and what follows it. */
    method InheritOrSleep(self: Tid, me: Thread) returns (th: Thread)
      requires me.p.Idle?
      modifies this
      ensures (View(), th) == Alone(old(View()), self, me.(p := LInherit))
    {
      hide Alone, UnlockStep, DeathStep;
      ghost var trying := me.(p := LInherit);
      while true
        invariant Alone(old(View()), self, trying) == Alone(View(), self, trying)
        decreases event
      {
        OneStep(View(), self, trying);
        var result := Inherit();
        if result == EOWNERDEAD {
          th := Take(self, me, EOWNERDEAD);
          return;
        }
        if result == ENOTRECOVERABLE {
          Finished(View(), self, Return(me, ENOTRECOVERABLE));
          return Return(me, ENOTRECOVERABLE);
        }
        var woken;
        woken, th := MarkAndSleep(self, me);
        if !woken { return; }
      }
    }

    /** 171-190 and 231-250: mark the lock, and sleep unless it was free. The state is looked at
        again on waking, but only interference can have made it unrecoverable. */
    method MarkAndSleep(self: Tid, me: Thread) returns (woken: bool, th: Thread)
      requires me.p.Idle? && !stateInconsistent.NotRecoverable?
      modifies this`lockIdx, this`event, this`recursiveCount, this`ownerThread
      ensures woken ==>
                old(event) && !event
                && Alone(old(View()), self, me.(p := LMark)) == Alone(View(), self, me.(p := LInherit))
      ensures !woken ==> (View(), th) == Alone(old(View()), self, me.(p := LMark))
    {
      hide Alone, UnlockStep, DeathStep;
      OneStep(View(), self, me.(p := LMark));
      var was := lockIdx;
      lockIdx := -1;
      if was == 0 {
        th := Take(self, me, Ok);
        return false, th;
      }
      if !event {
        Asleep(View(), self, me.(p := LSleep));
        return false, me.(p := LSleep);
      }
      OneStep(View(), self, me.(p := LSleep));
      event := false;
      OneStep(View(), self, me.(p := LCheck));
      return true, me;
    }

    /** 192-199 and 252-260. */
    method Take(self: Tid, me: Thread, r: Result) returns (th: Thread)
      requires me.p.Idle?
      modifies this`recursiveCount, this`ownerThread
      ensures (View(), th) == Alone(old(View()), self, me.(p := if kind.Normal? then Add(r) else SetCount(r)))
    {
      hide Alone, UnlockStep, DeathStep;
      if kind.Normal? {
        FinishAdding(View(), self, me.(p := Add(r)));
      } else {
        FinishTaking(View(), self, me.(p := SetCount(r)));
        recursiveCount := 1;
      }
      ownerThread := Some(self);
      th := Thread(Idle, me.depth + 1, true, r);
    }

    /** pthread_mutex_trylock.c:103-150. */
    method TryLock(self: Tid, me: Thread) returns (th: Thread)
      requires me.p.Idle?
      modifies this
      ensures (View(), th) == Alone(old(View()), self, me.(p := TState))
    {
      hide Alone, UnlockStep, DeathStep;
      OneStep(View(), self, me.(p := TState));
      if stateInconsistent.NotRecoverable? {
        Finished(View(), self, Return(me, ENOTRECOVERABLE));
        return Return(me, ENOTRECOVERABLE);
      }
      OneStep(View(), self, me.(p := TCas));
      if lockIdx == 0 {
        lockIdx := 1;
        th := Take(self, me, Ok);
        return;
      }
      if kind.Recursive? {
        OneStep(View(), self, me.(p := TOwner));
        if ownerThread == Some(self) {
          FinishCounting(View(), self, me.(p := AddCount));
          recursiveCount := recursiveCount + 1;
          return Thread(Idle, me.depth + 1, me.listed, Ok);
        }
      }
      th := TryInherit(self, me);
    }

    /** 137-148. */
    method TryInherit(self: Tid, me: Thread) returns (th: Thread)
      requires me.p.Idle?
      modifies this
      ensures (View(), th) == Alone(old(View()), self, me.(p := TInherit))
    {
      hide Alone, UnlockStep, DeathStep;
      OneStep(View(), self, me.(p := TInherit));
      var result := Inherit();
      if result == EOWNERDEAD {
        FinishTaking(View(), self, me.(p := SetCount(EOWNERDEAD)));
        recursiveCount := 1;
        ownerThread := Some(self);
        return Thread(Idle, me.depth + 1, true, EOWNERDEAD);
      }
      if result == Ok { result := EBUSY; }
      Finished(View(), self, Return(me, result));
      th := Return(me, result);
    }

    /** pthread_mutex_unlock.c:114-166. */
    method Unlock(self: Tid, me: Thread) returns (th: Thread)
      requires me.p.Idle?
      modifies this
      ensures (View(), th) == Alone(old(View()), self, me.(p := UOwner))
    {
      hide Alone, LockStep, DeathStep;
      OneStep(View(), self, me.(p := UOwner));
      if ownerThread != Some(self) {
        Finished(View(), self, Return(me, EPERM));
        return Return(me, EPERM);
      }
      OneStep(View(), self, me.(p := UState));
      if stateInconsistent.Inconsistent? { stateInconsistent := NotRecoverable; }
      if kind.Recursive? { th := GiveUpOne(self, me); } else { th := GiveUp(self, me.(depth := me.depth - 1)); }
    }

    /** 144-160 for a recursive mutex. */
    method GiveUpOne(self: Tid, me: Thread) returns (th: Thread)
      requires me.p.Idle?
      modifies this
      ensures (View(), th) == Alone(old(View()), self, me.(p := SubCount))
    {
      hide Alone, LockStep, DeathStep;
      OneStep(View(), self, me.(p := SubCount));
      recursiveCount := recursiveCount - 1;
      if recursiveCount == 0 {
        th := GiveUp(self, me.(depth := me.depth - 1));
      } else {
        Finished(View(), self, me.(depth := me.depth - 1, last := Ok));
        th := me.(depth := me.depth - 1, last := Ok);
      }
    }

    /** 128-140 and 147-159. */
    method GiveUp(self: Tid, me: Thread) returns (th: Thread)
      requires me.p.Idle?
      modifies this
      ensures (View(), th) == Alone(old(View()), self, me.(p := Remove))
    {
      hide Alone, LockStep, DeathStep;
      FinishGiving(View(), self, me.(p := Remove));
      ownerThread := None;
      var idx := lockIdx;
      lockIdx := 0;
      if idx < 0 { event := true; }
      th := Thread(Idle, me.depth, false, Ok);
    }

    /** pthread_mutex_consistent.c:179-188; `robust` is whether the kind is negative. */
    method MakeConsistent(me: Thread, robust: bool) returns (th: Thread)
      requires me.p.Idle?
      modifies this`stateInconsistent
      ensures (View(), th) ==
                if robust then Move(old(View()), 0, me, CallConsistent) else (old(View()), Return(me, EINVAL))
    {
      if !robust || !stateInconsistent.Inconsistent? { return Return(me, EINVAL); }
      stateInconsistent := Consistent;
      th := Return(me, Ok);
    }
  }

  // ----- invariant -----------------------------------------------------------------------------

  /** In possession of the mutex, and not dead: a dying thread gives it up when it leaves its mark. */
  predicate Holds(th: Thread) {
    th.depth > 0 || th.p.SetCount? || th.p.Add? || th.p.Remove? || th.p.UExchange? || th.p.DieMark?
  }

  predicate Ending(p: Pc) { p.Dying? || p.DieRemove? || p.DieMark? || p.DieSignal? || p.Dead? }

  function HolderW(th: Thread): nat { if Holds(th) then 1 else 0 }

  ghost function Holders(s: State): nat { Tally.Total(s.threads, HolderW) }

  predicate ThreadOk(sh: Shared, t: Tid, th: Thread) {
    && th.depth >= 0
    && (th.listed <==> th.depth > 0 || th.p.Remove?)
    && (!Ending(th.p) ==> (sh.owner == Some(t) <==> th.depth > 0 || th.p.Remove?))
    && (th.depth > 0 ==> !th.p.SetCount? && !th.p.Add? && !th.p.Remove? && !th.p.UExchange? && !th.p.Signal?
                         && !th.p.DieMark? && !th.p.DieSignal? && !th.p.Dead?)
    && (th.p.AddCount? || th.p.SubCount? || th.p.UState? || th.p.DieRemove? ==> th.depth > 0)
    && CountOk(sh, th)
  }

  /** recursive_count is the depth, and normal and error-checking mutexes do not nest. */
  predicate CountOk(sh: Shared, th: Thread) {
    && (!sh.kind.Normal? && th.depth > 0 ==> sh.count == th.depth)
    && (!sh.kind.Normal? && th.p.Add? ==> sh.count == 1)
    && (th.p.AddCount? || th.p.SubCount? || th.p.TOwner? ==> sh.kind.Recursive?)
    && (!sh.kind.Recursive? ==> th.depth <= 1)
  }

  function One(b: bool): int { if b then 1 else 0 }

  predicate Laws(sh: Shared, holders: int) {
    && (sh.lockIdx == 0 || sh.lockIdx == 1 || sh.lockIdx == -1)
    && holders + One(sh.state.OwnerDied?) == (if sh.lockIdx == 0 then 0 else 1)
    && sh.deaths == sh.inherited + One(sh.state.OwnerDied?)
  }

  ghost predicate Invariant(s: State) {
    && (forall t :: t in s.threads ==> ThreadOk(s.sh, t, s.threads[t]))
    && Laws(s.sh, Holders(s))
  }

  // ----- every step keeps the invariant --------------------------------------------------------

  /** Who finds the lock free or the mark does not have it yet. */
  predicate Unheld(sh: Shared, th: Thread) { sh.lockIdx == 0 || sh.state.OwnerDied? ==> !Holds(th) }

  lemma LockKeepsThreadOk(sh: Shared, t: Tid, th: Thread)
    requires CanMove(sh, th, Go) && Locking(th.p) && ThreadOk(sh, t, th) && Unheld(sh, th)
    ensures var (sh', th') := LockStep(sh, t, th); ThreadOk(sh', t, th') && sh'.kind == sh.kind
  {
  }

  lemma OtherKeepsThreadOk(sh: Shared, t: Tid, th: Thread, a: Act)
    requires CanMove(sh, th, a) && !(a.Go? && Locking(th.p)) && ThreadOk(sh, t, th)
    ensures var (sh', th') := Move(sh, t, th, a); ThreadOk(sh', t, th') && sh'.kind == sh.kind
  {
  }

  /** Only the thread in possession writes the owner and the count. */
  lemma OnlyHolderWrites(sh: Shared, t: Tid, th: Thread, a: Act)
    requires CanMove(sh, th, a) && ThreadOk(sh, t, th)
    ensures var sh' := Move(sh, t, th, a).0;
            (sh'.owner == sh.owner && sh'.count == sh.count)
            || (Holds(th) && (sh'.owner == sh.owner || sh'.owner == Some(t) || sh'.owner == None))
  {
  }

  lemma OthersStayOk(sh: Shared, sh': Shared, t: Tid, u: Tid, th: Thread)
    requires t != u && ThreadOk(sh, u, th) && sh'.kind == sh.kind
    requires (sh'.owner == sh.owner && sh'.count == sh.count)
             || (!Holds(th) && (sh'.owner == sh.owner || sh'.owner == Some(t) || sh'.owner == None))
    ensures ThreadOk(sh', u, th)
  {
  }

  lemma LockKeepsLaws(sh: Shared, t: Tid, th: Thread, holders: int)
    requires CanMove(sh, th, Go) && Locking(th.p) && ThreadOk(sh, t, th) && Laws(sh, holders) && HolderW(th) <= holders
    ensures var (sh', th') := LockStep(sh, t, th); Laws(sh', holders - HolderW(th) + HolderW(th'))
  {
  }

  lemma OtherKeepsLaws(sh: Shared, t: Tid, th: Thread, a: Act, holders: int)
    requires CanMove(sh, th, a) && ThreadOk(sh, t, th) && Laws(sh, holders) && HolderW(th) <= holders
    requires !(a.Go? && Locking(th.p))
    ensures var (sh', th') := Move(sh, t, th, a); Laws(sh', holders - HolderW(th) + HolderW(th'))
  {
  }

  lemma HolderUnique(s: State, t: Tid, u: Tid)
    requires Invariant(s) && t in s.threads && u in s.threads && t != u && Holds(s.threads[t])
    ensures !Holds(s.threads[u])
  {
    Tally.AtLeastTwo(s.threads, HolderW, t, u);
  }

  lemma StepKeepsInvariant(s: State, t: Tid, a: Act)
    requires Invariant(s) && Enabled(s, t, a)
    ensures Invariant(Apply(s, t, a))
  {
    var th, s' := s.threads[t], Apply(s, t, a);
    assert ThreadOk(s.sh, t, th);
    Tally.AtLeast(s.threads, HolderW, t);
    if a.Go? && Locking(th.p) {
      LockKeepsThreadOk(s.sh, t, th);
      LockKeepsLaws(s.sh, t, th, Holders(s));
    } else {
      OtherKeepsThreadOk(s.sh, t, th, a);
      OtherKeepsLaws(s.sh, t, th, a, Holders(s));
    }
    OnlyHolderWrites(s.sh, t, th, a);
    forall u | u in s'.threads ensures ThreadOk(s'.sh, u, s'.threads[u]) {
      if u != t {
        if Holds(th) { HolderUnique(s, t, u); }
        OthersStayOk(s.sh, s'.sh, t, u, s.threads[u]);
      }
    }
    Tally.Update(s.threads, HolderW, t, s'.threads[t]);
  }

  lemma {:induction false} RunKeepsInvariant(ss: seq<State>)
    requires Run(ss)
    ensures Invariant(ss[|ss| - 1])
  {
    if |ss| == 1 {
      Tally.Nobody(ss[0].threads, HolderW);
    } else {
      var k := |ss| - 1;
      assert Next(ss[k - 1], ss[k - 1 + 1]);
      RunKeepsInvariant(ss[..k]);
      var t, a :| Enabled(ss[k - 1], t, a) && ss[k] == Apply(ss[k - 1], t, a);
      StepKeepsInvariant(ss[k - 1], t, a);
    }
  }
}
