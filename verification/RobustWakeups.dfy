/** When robust mutexes lose a wakeup. A thread that has been woken takes responsibility for the others
    that sleep: it marks the lock again, so that the next unlock sets the event. A thread that inherits
    the mutex, or finds it unrecoverable at its second look, does not. */
module RobustWakeups {
  import opened Common
  import opened RobustMutex
  import opened RobustMutexLaws
  import Tally
  import Traces

  // ----- who wakes whom -------------------------------------------------------------------------

  function SleeperW(th: Thread): nat { if th.p.LSleep? then 1 else 0 }

  /** About to look at the state of the mutex, or to set the event. */
  function LookerW(th: Thread): nat {
    if th.p.LInherit? || th.p.LCheck? || th.p.LWakeNext? || th.p.Signal? || th.p.DieSignal? then 1 else 0
  }

  function MarkerW(th: Thread): nat { if th.p.LMark? then 1 else 0 }

  ghost function Sleepers(s: State): nat { Tally.Total(s.threads, SleeperW) }
  ghost function Lookers(s: State): nat { Tally.Total(s.threads, LookerW) }
  ghost function Markers(s: State): nat { Tally.Total(s.threads, MarkerW) }

  /** A dead owner's mark is not overlooked by those who sleep or are about to. */
  predicate MarkSeen(sh: Shared, sleepers: int, lookers: int, markers: int) {
    sh.state.OwnerDied? && sleepers + markers > 0 ==> sh.event || lookers > 0
  }

  /** Somebody sleeps, and no thread is bound to set the event: nobody is about to mark the lock or to
      look at it, and if a living thread has it, its unlock will not set the event. */
  predicate Forgotten(sh: Shared, sleepers: int, lookers: int, markers: int) {
    && sleepers > 0 && !sh.event && lookers == 0 && markers == 0
    && (sh.lockIdx != -1 || sh.state.OwnerDied?)
  }

  ghost predicate Lost(s: State) { Forgotten(s.sh, Sleepers(s), Lookers(s), Markers(s)) }

  /** The thread is the last one awake to answer for the sleepers, and its second look, at a mutex whose
      lock is not marked, ends its wait: it inherits the mutex, or finds it unrecoverable. */
  predicate Deserts(sh: Shared, th: Thread, a: Act, sleepers: int, lookers: int, markers: int) {
    && a.Go? && th.p.LInherit? && (sh.state.OwnerDied? || sh.state.NotRecoverable?) && sh.lockIdx != -1
    && sleepers > 0 && !sh.event && lookers == 1 && markers == 0
  }

  ghost predicate Strands(s: State, t: Tid, a: Act) {
    t in s.threads && Deserts(s.sh, s.threads[t], a, Sleepers(s), Lookers(s), Markers(s))
  }

  // ----- a wakeup is lost if and only if this happens -------------------------------------------

  /** What the step of a thread from th to th' does to the counts. */
  function After(n: int, weight: Thread -> nat, th: Thread, th': Thread): int { n - weight(th) + weight(th') }

  predicate Fits(th: Thread, sleepers: int, lookers: int, markers: int) {
    SleeperW(th) <= sleepers && LookerW(th) <= lookers && MarkerW(th) <= markers
  }

  lemma LockKeepsMark(sh: Shared, t: Tid, th: Thread, n: int, l: int, m: int)
    requires CanMove(sh, th, Go) && Locking(th.p) && MarkSeen(sh, n, l, m) && Fits(th, n, l, m)
    ensures var (sh', th') := LockStep(sh, t, th);
            MarkSeen(sh', After(n, SleeperW, th, th'), After(l, LookerW, th, th'), After(m, MarkerW, th, th'))
  {
  }

  lemma OtherKeepsMark(sh: Shared, t: Tid, th: Thread, a: Act, n: int, l: int, m: int)
    requires CanMove(sh, th, a) && !(a.Go? && Locking(th.p)) && MarkSeen(sh, n, l, m) && Fits(th, n, l, m)
    ensures var (sh', th') := Move(sh, t, th, a);
            MarkSeen(sh', After(n, SleeperW, th, th'), After(l, LookerW, th, th'), After(m, MarkerW, th, th'))
  {
  }

  lemma LockForgets(sh: Shared, t: Tid, th: Thread, n: int, l: int, m: int)
    requires CanMove(sh, th, Go) && Locking(th.p) && MarkSeen(sh, n, l, m) && Fits(th, n, l, m)
    requires ThreadOk(sh, t, th) && !Forgotten(sh, n, l, m)
    ensures var (sh', th') := LockStep(sh, t, th);
            Forgotten(sh', After(n, SleeperW, th, th'), After(l, LookerW, th, th'), After(m, MarkerW, th, th'))
            <==> Deserts(sh, th, Go, n, l, m)
  {
  }

  lemma OtherRemembers(sh: Shared, t: Tid, th: Thread, a: Act, n: int, l: int, m: int)
    requires CanMove(sh, th, a) && !(a.Go? && Locking(th.p)) && Fits(th, n, l, m)
    requires ThreadOk(sh, t, th) && !Forgotten(sh, n, l, m)
    ensures var (sh', th') := Move(sh, t, th, a);
            !Forgotten(sh', After(n, SleeperW, th, th'), After(l, LookerW, th, th'), After(m, MarkerW, th, th'))
  {
  }

  lemma StepCounts(s: State, t: Tid, a: Act)
    requires Enabled(s, t, a)
    ensures var th, s' := s.threads[t], Apply(s, t, a);
            && Fits(th, Sleepers(s), Lookers(s), Markers(s))
            && Sleepers(s') == After(Sleepers(s), SleeperW, th, s'.threads[t])
            && Lookers(s') == After(Lookers(s), LookerW, th, s'.threads[t])
            && Markers(s') == After(Markers(s), MarkerW, th, s'.threads[t])
  {
    var th' := Apply(s, t, a).threads[t];
    assert Apply(s, t, a).threads == s.threads[t := th'];
    hide Apply, SleeperW, LookerW, MarkerW;
    Tally.Update(s.threads, SleeperW, t, th');
    Tally.Update(s.threads, LookerW, t, th');
    Tally.Update(s.threads, MarkerW, t, th');
    Tally.AtLeast(s.threads, SleeperW, t);
    Tally.AtLeast(s.threads, LookerW, t);
    Tally.AtLeast(s.threads, MarkerW, t);
  }

  ghost predicate Seen(s: State) { MarkSeen(s.sh, Sleepers(s), Lookers(s), Markers(s)) }

  lemma StepKeepsSeen(s: State, t: Tid, a: Act)
    requires Enabled(s, t, a) && Seen(s)
    ensures Seen(Apply(s, t, a))
  {
    var th := s.threads[t];
    StepCounts(s, t, a);
    hide LockStep, UnlockStep, DeathStep, MarkSeen, After, Fits;
    if a.Go? && Locking(th.p) { LockKeepsMark(s.sh, t, th, Sleepers(s), Lookers(s), Markers(s)); }
    else { OtherKeepsMark(s.sh, t, th, a, Sleepers(s), Lookers(s), Markers(s)); }
  }

  lemma {:induction false} RunKeepsSeen(ss: seq<State>)
    requires Run(ss)
    ensures Seen(ss[|ss| - 1])
  {
    if |ss| > 1 {
      var k := |ss| - 1;
      assert Next(ss[k - 1], ss[k - 1 + 1]);
      RunKeepsSeen(ss[..k]);
      var t, a :| Enabled(ss[k - 1], t, a) && ss[k] == Apply(ss[k - 1], t, a);
      StepKeepsSeen(ss[k - 1], t, a);
    }
  }

  /** A step loses a wakeup if and only if its thread deserts the sleepers. */
  lemma LostIfDeserted(s: State, t: Tid, a: Act)
    requires Reachable(s) && Enabled(s, t, a) && !Lost(s)
    ensures Lost(Apply(s, t, a)) <==> Strands(s, t, a)
  {
    var th := s.threads[t];
    var ss :| Run(ss) && ss[|ss| - 1] == s;
    RunKeepsSeen(ss);
    ReachableInvariant(s);
    assert ThreadOk(s.sh, t, th);
    StepCounts(s, t, a);
    hide LockStep, UnlockStep, DeathStep, Forgotten, MarkSeen, After, Fits, Reachable, Run, Invariant, ThreadOk;
    if a.Go? && Locking(th.p) { LockForgets(s.sh, t, th, Sleepers(s), Lookers(s), Markers(s)); }
    else { OtherRemembers(s.sh, t, th, a, Sleepers(s), Lookers(s), Markers(s)); }
  }

  lemma LockStaysForgotten(sh: Shared, t: Tid, th: Thread, n: int, l: int, m: int)
    requires CanMove(sh, th, Go) && Locking(th.p) && Fits(th, n, l, m) && MarkSeen(sh, n, l, m)
    requires Forgotten(sh, n, l, m)
    ensures var (sh', th') := LockStep(sh, t, th);
            Forgotten(sh', After(n, SleeperW, th, th'), After(l, LookerW, th, th'), After(m, MarkerW, th, th'))
            <==> !th'.p.LInherit?
  {
  }

  lemma OtherStaysForgotten(sh: Shared, t: Tid, th: Thread, a: Act, n: int, l: int, m: int)
    requires CanMove(sh, th, a) && !(a.Go? && Locking(th.p)) && Fits(th, n, l, m) && ThreadOk(sh, t, th)
    requires MarkSeen(sh, n, l, m) && Forgotten(sh, n, l, m) && sh.lockIdx >= -1
    ensures var (sh', th') := Move(sh, t, th, a);
            Forgotten(sh', After(n, SleeperW, th, th'), After(l, LookerW, th, th'), After(m, MarkerW, th, th'))
            <==> !th'.p.DieSignal?
  {
  }

  /** A lost wakeup stays lost, whoever unlocks, until another thread comes to lock a mutex that is
      taken, or dies with it. */
  lemma LostStaysLost(s: State, t: Tid, a: Act)
    requires Reachable(s) && Enabled(s, t, a) && Lost(s)
    ensures var p' := Apply(s, t, a).threads[t].p; Lost(Apply(s, t, a)) <==> !p'.LInherit? && !p'.DieSignal?
    ensures forall u :: u in s.threads && s.threads[u].p.LSleep? ==> !Enabled(s, u, Go)
  {
    var th := s.threads[t];
    var ss :| Run(ss) && ss[|ss| - 1] == s;
    RunKeepsSeen(ss);
    ReachableInvariant(s);
    assert ThreadOk(s.sh, t, th);
    StepCounts(s, t, a);
    if a.Go? && Locking(th.p) { LockStaysForgotten(s.sh, t, th, Sleepers(s), Lookers(s), Markers(s)); }
    else { OtherStaysForgotten(s.sh, t, th, a, Sleepers(s), Lookers(s), Markers(s)); }
    hide LockStep, UnlockStep, DeathStep, MarkSeen, After, Fits, Reachable, Run, Invariant, ThreadOk;
  }

  /** A run from the beginning loses a wakeup if and only if some thread deserts the sleepers. */
  lemma {:induction false} RunLosesIfDeserted(es: seq<Event>)
    requires Trace(es) && RobustMutex.Init(es[0].before)
    ensures (exists k :: 0 <= k < |es| && Lost(es[k].after)) <==>
              exists k :: 0 <= k < |es| && Strands(es[k].before, es[k].who, es[k].act)
  {
    if k :| 0 <= k < |es| && Strands(es[k].before, es[k].who, es[k].act) {
      var e := es[k];
      Prefix(es, k);
      LostNotBefore(e.before, e.who, e.act);
      LostIfDeserted(e.before, e.who, e.act);
    } else {
      forall k | 0 <= k < |es| ensures !Lost(es[k].after) { NeverLost(es, k); }
    }
  }

  lemma Prefix(es: seq<Event>, k: nat)
    requires Trace(es) && k < |es|
    ensures Trace(es[..k + 1]) && Reachable(es[k].before)
  {
    var p := es[..k + 1];
    forall j | 0 <= j < |p| - 1 ensures p[j].after == p[j + 1].before { assert es[j].after == es[j + 1].before; }
    TraceReachable(p);
  }

  /** A thread that looks at the mutex is awake. */
  lemma LostNotBefore(s: State, t: Tid, a: Act)
    requires Strands(s, t, a)
    ensures !Lost(s)
  {
  }

  lemma {:induction false} NeverLost(es: seq<Event>, k: nat)
    requires Trace(es) && RobustMutex.Init(es[0].before) && k < |es|
    requires forall j :: 0 <= j < |es| ==> !Strands(es[j].before, es[j].who, es[j].act)
    ensures !Lost(es[k].before) && !Lost(es[k].after)
  {
    if k == 0 {
      Tally.Nobody(es[0].before.threads, SleeperW);
    } else {
      NeverLost(es, k - 1);
      assert es[k - 1].after == es[k - 1 + 1].before;
    }
    Prefix(es, k);
    LostIfDeserted(es[k].before, es[k].who, es[k].act);
  }

  // ----- how it happens -------------------------------------------------------------------------

  /** Thread t makes a call, or goes on after its sleep, and nobody disturbs it until it returns or
      sleeps. */
  ghost function Calling(s: State, t: Tid, a: Act): State
    requires Enabled(s, t, a)
  {
    var (sh, th) := Undisturbed(s.sh, t, s.threads[t], a); State(sh, s.threads[t := th])
  }

  predicate Nearer(sh: Shared, th: Thread, sh': Shared, th': Thread) {
    var m, m' := MaySleep(th.p), MaySleep(th'.p);
    var e, e' := m && sh.event, m' && sh'.event;
    (m && !m') || (m == m' && ((e && !e') || (e == e' && Distance(th') < Distance(th))))
  }

  lemma LockGoesDown(sh: Shared, t: Tid, th: Thread)
    requires CanMove(sh, th, Go) && Locking(th.p)
    ensures var (sh', th') := LockStep(sh, t, th); Nearer(sh, th, sh', th')
  {
  }

  /** Every step of a call brings it nearer to its end or its next sleep. */
  lemma GoesDown(sh: Shared, t: Tid, th: Thread)
    requires CanMove(sh, th, Go)
    ensures var (sh', th') := Move(sh, t, th, Go); Nearer(sh, th, sh', th')
  {
    if Locking(th.p) { hide Nearer; LockGoesDown(sh, t, th); }
  }

  lemma {:induction false} AloneReachable(s: State, t: Tid)
    requires Reachable(s) && t in s.threads
    ensures var (sh, th) := Alone(s.sh, t, s.threads[t]); Reachable(State(sh, s.threads[t := th]))
    decreases MaySleep(s.threads[t].p), MaySleep(s.threads[t].p) && s.sh.event, Distance(s.threads[t])
  {
    hide Reachable, Distance, MaySleep, LockStep, UnlockStep, DeathStep;
    if Enabled(s, t, Go) {
      var s' := Apply(s, t, Go);
      StepReachable(s, t, Go);
      OneStep(s.sh, t, s.threads[t]);
      GoesDown(s.sh, t, s.threads[t]);
      hide Alone, Move;
      AloneReachable(s', t);
      assert s'.threads[t := Alone(s'.sh, t, s'.threads[t]).1] == s.threads[t := Alone(s'.sh, t, s'.threads[t]).1];
    } else {
      assert s.threads[t := s.threads[t]] == s.threads;
    }
  }

  lemma CallingReachable(s: State, t: Tid, a: Act)
    requires Reachable(s) && Enabled(s, t, a)
    ensures Reachable(Calling(s, t, a))
  {
    var s' := Apply(s, t, a);
    StepReachable(s, t, a);
    AloneReachable(s', t);
    var th := Alone(s'.sh, t, s'.threads[t]).1;
    assert s'.threads[t := th] == s.threads[t := th];
    hide Alone, Reachable;
  }

  lemma TakesFree(sh: Shared, t: Tid, th: Thread)
    requires th.p.Idle? && sh.kind.Normal? && sh.state.Consistent? && sh.lockIdx == 0
    ensures Undisturbed(sh, t, th, CallLock) ==
              (sh.(lockIdx := 1, owner := Some(t)), Thread(Idle, th.depth + 1, true, Ok))
  {
    hide Alone, UnlockStep, DeathStep;
    OneStep(sh, t, th.(p := LState));
    OneStep(sh, t, th.(p := LExchange));
    FinishAdding(sh.(lockIdx := 1), t, th.(p := Add(Ok)));
  }

  lemma FallsAsleep(sh: Shared, t: Tid, th: Thread)
    requires th.p.Idle? && sh.kind.Normal? && sh.state.Consistent? && sh.lockIdx != 0 && !sh.event
    ensures Undisturbed(sh, t, th, CallLock) == (sh.(lockIdx := -1), th.(p := LSleep))
  {
    hide Alone, UnlockStep, DeathStep;
    OneStep(sh, t, th.(p := LState));
    OneStep(sh, t, th.(p := LExchange));
    MarksAndSleeps(sh.(lockIdx := 1), t, th.(p := LInherit));
  }

  lemma MarksAndSleeps(sh: Shared, t: Tid, th: Thread)
    requires th.p.LInherit? && sh.state.Consistent? && sh.lockIdx != 0 && !sh.event
    ensures Alone(sh, t, th) == (sh.(lockIdx := -1), th.(p := LSleep))
  {
    hide Alone, UnlockStep, DeathStep;
    OneStep(sh, t, th);
    OneStep(sh, t, th.(p := LMark));
    Asleep(sh.(lockIdx := -1), t, th.(p := LSleep));
  }

  lemma GivesBack(sh: Shared, t: Tid, th: Thread)
    requires th.p.Idle? && sh.kind.Normal? && sh.state.Consistent? && sh.owner == Some(t)
    ensures Undisturbed(sh, t, th, CallUnlock) ==
              (sh.(owner := None, lockIdx := 0, event := sh.event || sh.lockIdx < 0),
               Thread(Idle, th.depth - 1, false, Ok))
  {
    hide Alone, LockStep, DeathStep;
    OneStep(sh, t, th.(p := UOwner));
    OneStep(sh, t, th.(p := UState));
    FinishGiving(sh, t, th.(p := Remove, depth := th.depth - 1));
  }

  lemma DiesHolding(sh: Shared, t: Tid, th: Thread)
    requires th.p.Idle? && th.listed
    ensures Undisturbed(sh, t, th, Exit) ==
              (sh.(owner := Some(t), state := OwnerDied, deaths := sh.deaths + 1, event := true),
               Thread(Dead, 0, false, th.last))
  {
    hide Alone, LockStep, UnlockStep;
    OneStep(sh, t, th.(p := Dying));
    OneStep(sh, t, th.(p := DieRemove));
    LeavesMark(sh.(owner := Some(t)), t, Thread(DieMark, 0, false, th.last));
  }

  lemma LeavesMark(sh: Shared, t: Tid, th: Thread)
    requires th.p.DieMark? && !th.listed
    ensures Alone(sh, t, th) ==
              (sh.(state := OwnerDied, deaths := sh.deaths + 1, event := true), th.(p := Dead))
  {
    hide Alone, LockStep, UnlockStep;
    var sh' := sh.(state := OwnerDied, deaths := sh.deaths + 1);
    OneStep(sh, t, th);
    OneStep(sh', t, th.(p := DieSignal));
    OneStep(sh'.(event := true), t, th.(p := Dying));
    Over(sh'.(event := true), t, th.(p := Dead));
  }

  lemma Over(sh: Shared, t: Tid, th: Thread)
    requires th.p.Dead?
    ensures Alone(sh, t, th) == (sh, th)
  {
  }

  lemma InheritsAwake(sh: Shared, t: Tid, th: Thread)
    requires th.p.LSleep? && sh.kind.Normal? && sh.state.OwnerDied? && sh.event
    ensures Undisturbed(sh, t, th, Go) ==
              (sh.(event := false, state := Inconsistent, inherited := sh.inherited + 1, owner := Some(t)),
               Thread(Idle, th.depth + 1, true, EOWNERDEAD))
  {
    hide Alone, UnlockStep, DeathStep;
    var sh1 := sh.(event := false);
    OneStep(sh1, t, th.(p := LCheck));
    OneStep(sh1, t, th.(p := LInherit));
    FinishAdding(sh1.(state := Inconsistent, inherited := sh.inherited + 1), t, th.(p := Add(EOWNERDEAD)));
  }

  /** A thread that is woken and finds the mutex unrecoverable at once passes the wakeup on. */
  lemma PassesOn(sh: Shared, t: Tid, th: Thread)
    requires th.p.LSleep? && sh.state.NotRecoverable? && sh.event
    ensures Undisturbed(sh, t, th, Go) == (sh, th.(p := Idle, last := ENOTRECOVERABLE))
  {
    hide Alone, UnlockStep, DeathStep;
    var sh' := sh.(event := false);
    OneStep(sh', t, th.(p := LCheck));
    OneStep(sh', t, th.(p := LWakeNext));
    Finished(sh, t, th.(p := Idle, last := ENOTRECOVERABLE));
  }

  /** The threads 0, 1 and 2. */
  function Three(a: Thread, b: Thread, c: Thread): map<Tid, Thread> { map[0 := a, 1 := b, 2 := c] }

  lemma Beginning(s: State)
    requires RobustMutex.Init(s)
    ensures Reachable(s)
  {
    assert Run([s]) && [s][|[s]| - 1] == s;
  }

  const IDLE := Thread(Idle, 0, false, Ok)
  const ASLEEP := Thread(LSleep, 0, false, Ok)
  const HOLDER := Thread(Idle, 1, true, Ok)
  const DEAD := Thread(Dead, 0, false, Ok)

  /** 0 has the mutex again, before 1 and 2, that have been woken, are up. */
  function Overtaken(): State {
    State(Shared(Normal, 1, 0, Some(0), true, Consistent, 0, 0), Three(HOLDER, ASLEEP, ASLEEP))
  }

  function Afterwards(): State {
    State(Shared(Normal, 0, 0, None, false, Consistent, 1, 1), Three(DEAD, IDLE, ASLEEP))
  }

  /** 0 locks; 1 and 2 come and sleep; 0 unlocks and locks again. */
  lemma OvertakenReachable()
    ensures Reachable(Overtaken())
  {
    hide Undisturbed, Reachable, Alone;
    var sh := Shared(Normal, 0, 0, None, false, Consistent, 0, 0);
    var s0 := State(sh, Three(IDLE, IDLE, IDLE));
    Beginning(s0);
    CallingReachable(s0, 0, CallLock);
    TakesFree(sh, 0, IDLE);
    var s1 := State(sh.(lockIdx := 1, owner := Some(0)), Three(HOLDER, IDLE, IDLE));
    assert s1 == Calling(s0, 0, CallLock);
    CallingReachable(s1, 1, CallLock);
    FallsAsleep(s1.sh, 1, IDLE);
    var s2 := State(sh.(lockIdx := -1, owner := Some(0)), Three(HOLDER, ASLEEP, IDLE));
    assert s2 == Calling(s1, 1, CallLock);
    CallingReachable(s2, 2, CallLock);
    FallsAsleep(s2.sh, 2, IDLE);
    var s3 := State(s2.sh, Three(HOLDER, ASLEEP, ASLEEP));
    assert s3 == Calling(s2, 2, CallLock);
    CallingReachable(s3, 0, CallUnlock);
    GivesBack(s3.sh, 0, HOLDER);
    var s4 := State(sh.(event := true), Three(IDLE, ASLEEP, ASLEEP));
    assert s4 == Calling(s3, 0, CallUnlock);
    CallingReachable(s4, 0, CallLock);
    TakesFree(s4.sh, 0, IDLE);
    assert Overtaken() == Calling(s4, 0, CallLock);
  }

  /** 0 ends with the mutex; 1 inherits it, makes it consistent and unlocks it. */
  lemma AfterwardsReachable()
    ensures Reachable(Afterwards())
  {
    OvertakenReachable();
    hide Undisturbed, Reachable, Alone;
    var s5, heir := Overtaken(), Thread(Idle, 1, true, EOWNERDEAD);
    CallingReachable(s5, 0, Exit);
    DiesHolding(s5.sh, 0, HOLDER);
    var s6 := State(s5.sh.(state := OwnerDied, deaths := 1), Three(DEAD, ASLEEP, ASLEEP));
    assert s6 == Calling(s5, 0, Exit);
    CallingReachable(s6, 1, Go);
    InheritsAwake(s6.sh, 1, ASLEEP);
    var s7 := State(Shared(Normal, 1, 0, Some(1), false, Inconsistent, 1, 1), Three(DEAD, heir, ASLEEP));
    assert s7 == Calling(s6, 1, Go);
    StepReachable(s7, 1, CallConsistent);
    var s8 := State(s7.sh.(state := Consistent), Three(DEAD, HOLDER, ASLEEP));
    assert s8 == Apply(s7, 1, CallConsistent);
    CallingReachable(s8, 1, CallUnlock);
    GivesBack(s8.sh, 1, HOLDER);
    assert Afterwards() == Calling(s8, 1, CallUnlock);
  }

  /** A wakeup can be lost even if no call interrupts another: in the end the mutex is free, and 2
      sleeps on. */
  lemma WakeupLost()
    ensures var s := Afterwards();
            Reachable(s) && s.sh.lockIdx == 0 && s.threads[2].p.LSleep? && Lost(s) && forall t :: !Enabled(s, t, Go)
  {
    AfterwardsReachable();
    var s := Afterwards();
    Tally.AtLeast(s.threads, SleeperW, 2);
    Tally.Nobody(s.threads, LookerW);
    Tally.Nobody(s.threads, MarkerW);
  }
}
