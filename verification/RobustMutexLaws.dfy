/** What robust mutexes promise, over whole runs of the machine of module RobustMutex: at most one
    living owner, deaths that are inherited once, and lists, comparisons and results that tell the
    truth. */
module RobustMutexLaws {
  import opened Common
  import opened RobustMutex
  import Tally
  import Traces

  // ----- what holds in every reachable state ---------------------------------------------------

  ghost predicate Reachable(s: State) {
    exists ss :: Run(ss) && ss[|ss| - 1] == s
  }

  lemma ReachableInvariant(s: State)
    requires Reachable(s)
    ensures Invariant(s)
  {
    var ss :| Run(ss) && ss[|ss| - 1] == s;
    RunKeepsInvariant(ss);
  }

  /** Never two live owners, and none beside the mark of a dead one. */
  lemma MutualExclusion(s: State, t: Tid, u: Tid)
    requires Reachable(s) && t in s.threads && u in s.threads && Holds(s.threads[t])
    ensures Holds(s.threads[u]) ==> t == u
    ensures s.sh.lockIdx != 0 && !s.sh.state.OwnerDied?
  {
    ReachableInvariant(s);
    Tally.AtLeast(s.threads, HolderW, t);
    if t != u { HolderUnique(s, t, u); }
  }

  /** Every death is inherited at most once: EOWNERDEAD has been given out once for each owner that
      died, except for the mark that is still there, if any. While it is, nobody finds the lock free. */
  lemma DeathsAreInherited(s: State)
    requires Reachable(s)
    ensures s.sh.deaths == s.sh.inherited + (if s.sh.state.OwnerDied? then 1 else 0)
    ensures s.sh.state.OwnerDied? ==> s.sh.lockIdx != 0 && forall t :: t in s.threads ==> !Holds(s.threads[t])
  {
    ReachableInvariant(s);
    if t :| t in s.threads && Holds(s.threads[t]) { Tally.AtLeast(s.threads, HolderW, t); }
  }

  /** Possession begins with a free lock, or with the mark of a dead owner, which is taken away and
      is what EOWNERDEAD reports. */
  predicate BeginsRight(sh: Shared, th: Thread, sh': Shared, th': Thread) {
    !Holds(th) && Holds(th') ==>
      if th'.p == SetCount(EOWNERDEAD) || th'.p == Add(EOWNERDEAD) then sh.state.OwnerDied? && sh'.state.Inconsistent?
      else sh.lockIdx == 0 && !sh.state.OwnerDied? && (th'.p == SetCount(Ok) || th'.p == Add(Ok))
  }

  /** It ends with the exchange with 0, or with the mark. */
  predicate EndsRight(sh: Shared, th: Thread, sh': Shared, th': Thread) {
    && (Holds(th) && !Holds(th') <==> th.p.UExchange? || th.p.DieMark?)
    && (th.p.UExchange? ==> sh'.lockIdx == 0)
    && (th.p.DieMark? ==> sh'.state.OwnerDied? && sh'.deaths == sh.deaths + 1)
  }

  lemma LockBegins(sh: Shared, t: Tid, th: Thread, holders: int)
    requires CanMove(sh, th, Go) && Locking(th.p) && ThreadOk(sh, t, th) && Laws(sh, holders) && HolderW(th) <= holders
    ensures var (sh', th') := LockStep(sh, t, th); BeginsRight(sh, th, sh', th')
  {
  }

  lemma LockDoesNotEnd(sh: Shared, t: Tid, th: Thread)
    requires CanMove(sh, th, Go) && Locking(th.p) && ThreadOk(sh, t, th)
    ensures var (sh', th') := LockStep(sh, t, th); EndsRight(sh, th, sh', th')
  {
  }

  lemma OthersEnd(sh: Shared, t: Tid, th: Thread, a: Act)
    requires CanMove(sh, th, a) && ThreadOk(sh, t, th) && !(a.Go? && Locking(th.p))
    ensures var (sh', th') := Move(sh, t, th, a); BeginsRight(sh, th, sh', th') && EndsRight(sh, th, sh', th')
  {
  }

  lemma PossessionChanges(s: State, t: Tid, a: Act)
    requires Reachable(s) && Enabled(s, t, a)
    ensures BeginsRight(s.sh, s.threads[t], Apply(s, t, a).sh, Apply(s, t, a).threads[t])
    ensures EndsRight(s.sh, s.threads[t], Apply(s, t, a).sh, Apply(s, t, a).threads[t])
  {
    ReachableInvariant(s);
    var th := s.threads[t];
    assert ThreadOk(s.sh, t, th);
    Tally.AtLeast(s.threads, HolderW, t);
    if a.Go? && Locking(th.p) {
      LockBegins(s.sh, t, th, Holders(s));
      LockDoesNotEnd(s.sh, t, th);
    } else {
      OthersEnd(s.sh, t, th, a);
    }
  }

  /** The mutex is on the list of exactly the thread that has it locked, which ownerThread names;
      so a thread that has ended holds nothing. */
  lemma ListedIsHeld(s: State, t: Tid)
    requires Reachable(s) && t in s.threads
    ensures s.threads[t].p.Idle? ==> (s.threads[t].listed <==> s.threads[t].depth > 0)
    ensures s.threads[t].p.Idle? ==> (s.threads[t].listed <==> s.sh.owner == Some(t))
    ensures s.threads[t].p.Dead? ==> !Holds(s.threads[t]) && !s.threads[t].listed
    ensures s.threads[t].p.Idle? && s.threads[t].depth > 0 && !s.sh.kind.Normal? ==> s.sh.count == s.threads[t].depth
  {
    ReachableInvariant(s);
    assert ThreadOk(s.sh, t, s.threads[t]);
  }

  /** The checks of ownerThread come out right: EPERM for who does not have the mutex, EDEADLK or
      one level deeper for who does. */
  lemma OwnerReadsAreRight(s: State, t: Tid)
    requires Reachable(s) && Enabled(s, t, Go)
    ensures ReadsRight(s.sh.kind, s.threads[t], Apply(s, t, Go).threads[t])
  {
    ReachableInvariant(s);
    var th := s.threads[t];
    assert ThreadOk(s.sh, t, th);
    if Locking(th.p) { LockReadsRight(s.sh, t, th); }
    else if Unlocking(th.p) { UnlockReadsRight(s.sh, t, th); }
    hide LockStep, UnlockStep, DeathStep, ThreadOk, Invariant, Reachable;
  }

  predicate ReadsRight(kind: Kind, th: Thread, th': Thread) {
    && (th.p.UOwner? ==> if th.depth > 0 then th'.p.UState? else th'.p.Idle? && th'.last == EPERM)
    && (th.p.LOwner? ==> if th.depth == 0 then th'.p.LInherit? else if kind.Recursive? then th'.p.AddCount?
                         else th'.p.Idle? && th'.last == EDEADLK)
    && (th.p.TOwner? ==> th'.p == if th.depth > 0 then AddCount else TInherit)
    && (th.p.SubCount? ==> (th'.p.Remove? <==> th'.depth == 0))
  }

  lemma LockReadsRight(sh: Shared, t: Tid, th: Thread)
    requires CanMove(sh, th, Go) && Locking(th.p) && ThreadOk(sh, t, th)
    ensures ReadsRight(sh.kind, th, LockStep(sh, t, th).1)
  {
  }

  lemma UnlockReadsRight(sh: Shared, t: Tid, th: Thread)
    requires Unlocking(th.p) && ThreadOk(sh, t, th)
    ensures ReadsRight(sh.kind, th, UnlockStep(sh, t, th).1)
  {
  }

  /** A call that takes the mutex says Ok or EOWNERDEAD exactly if the caller has it one level deeper
      than before; one that gives it up says EPERM exactly if the caller did not have it. */
  predicate Honest(th: Thread, th': Thread) {
    if Locking(th.p) then
      && (th.p.Add? ==> th'.last == th.p.r && th'.depth == th.depth + 1)
      && (!th.p.Add? ==> th'.depth == th.depth + (if th'.last == Ok then 1 else 0) && th'.last != EOWNERDEAD)
    else th'.last == if th.p.UOwner? then EPERM else Ok
  }

  lemma LockIsHonest(sh: Shared, t: Tid, th: Thread)
    requires Locking(th.p) && CanMove(sh, th, Go) && LockStep(sh, t, th).1.p.Idle?
    ensures Honest(th, LockStep(sh, t, th).1)
  {
  }

  lemma UnlockIsHonest(sh: Shared, t: Tid, th: Thread)
    requires Unlocking(th.p) && ThreadOk(sh, t, th) && UnlockStep(sh, t, th).1.p.Idle?
    ensures Honest(th, UnlockStep(sh, t, th).1) && (th.p.UOwner? ==> th.depth == 0)
  {
  }

  lemma ResultsAreHonest(s: State, t: Tid)
    requires Reachable(s) && Enabled(s, t, Go) && Apply(s, t, Go).threads[t].p.Idle?
    ensures Honest(s.threads[t], Apply(s, t, Go).threads[t])
    ensures s.threads[t].p.UOwner? ==> s.threads[t].depth == 0
  {
    ReachableInvariant(s);
    var th := s.threads[t];
    assert ThreadOk(s.sh, t, th);
    if Locking(th.p) { LockIsHonest(s.sh, t, th); }
    else if Unlocking(th.p) { UnlockIsHonest(s.sh, t, th); }
    hide LockStep, UnlockStep, Honest, ThreadOk;
  }

  // ----- what a call comes to ------------------------------------------------------------------

  type Event = Traces.Event<State, Act>

  predicate Starts(a: Act) { a.CallLock? || a.CallTryLock? || a.CallUnlock? || a.CallConsistent? || a.Exit? }

  predicate Calls(e: Event) { Starts(e.act) }

  /** The thread takes a step in its call, and the mutex is not free; or it is unrecoverable. */
  predicate FindsTaken(e: Event) { e.act.Go? && e.before.sh.lockIdx != 0 }
  predicate FindsLost(e: Event) { e.act.Go? && e.before.sh.state.NotRecoverable? }

  predicate Happens(e: Event) { Enabled(e.before, e.who, e.act) && e.after == Apply(e.before, e.who, e.act) }

  /** A run that goes on from a reachable state. */
  ghost predicate Trace(es: seq<Event>) {
    |es| > 0 && Reachable(es[0].before) && Traces.Linked(es) && forall k :: 0 <= k < |es| ==> Happens(es[k])
  }

  lemma StepReachable(s: State, t: Tid, a: Act)
    requires Reachable(s) && Enabled(s, t, a)
    ensures Reachable(Apply(s, t, a))
  {
    var ss :| Run(ss) && ss[|ss| - 1] == s;
    var longer := ss + [Apply(s, t, a)];
    assert Next(s, Apply(s, t, a));
    assert Run(longer) && longer[|longer| - 1] == Apply(s, t, a);
  }

  lemma {:induction false} TraceReachable(es: seq<Event>)
    requires Trace(es)
    ensures Reachable(Traces.Last(es).before) && Reachable(Traces.Last(es).after)
  {
    if |es| > 1 {
      TraceReachable(Traces.Init(es));
      assert Traces.Last(Traces.Init(es)) == es[|es| - 2];
      assert es[|es| - 2].after == es[|es| - 2 + 1].before;
    }
    StepReachable(Traces.Last(es).before, Traces.Last(es).who, Traces.Last(es).act);
  }

  /** Thread t makes a call with the i-th event and no other since. */
  ghost predicate InCall(es: seq<Event>, i: nat, t: Tid) {
    Trace(es) && i < |es| && es[i].who == t && Calls(es[i]) && !Traces.Took(es, i, t, Calls)
  }

  lemma InCallBefore(es: seq<Event>, i: nat, t: Tid)
    requires InCall(es, i, t) && i < |es| - 1
    ensures InCall(Traces.Init(es), i, t) && Traces.Last(Traces.Init(es)).after == Traces.Last(es).before
    ensures Traces.Last(es).who == t ==> !Calls(Traces.Last(es))
  {
    Traces.TookNext(es, i, t, Calls);
    assert es[|es| - 2].after == es[|es| - 2 + 1].before;
  }

  lemma Moved(e: Event)
    requires Happens(e)
    ensures var (sh', th') := Move(e.before.sh, e.who, e.before.threads[e.who], e.act);
            e.who in e.after.threads && e.after.threads[e.who] == th' && e.after.sh == sh'
    ensures forall t :: t in e.before.threads && t != e.who ==>
              t in e.after.threads && e.after.threads[t] == e.before.threads[t]
  {
  }

  /** What a thread has found since its last call. */
  datatype Found = Found(taken: bool, lost: bool)

  ghost function FoundSince(es: seq<Event>, i: nat, t: Tid): Found {
    Found(Traces.Took(es, i, t, FindsTaken), Traces.Took(es, i, t, FindsLost))
  }

  function AlsoFound(f: Found, sh: Shared, a: Act): Found {
    Found(f.taken || (a.Go? && sh.lockIdx != 0), f.lost || (a.Go? && sh.state.NotRecoverable?))
  }

  /** Where a thread can be that has made this call as its last one, holding the mutex `depth` times;
      and what the call can return. */
  predicate During(kind: Kind, call: Act, depth: int, f: Found, th: Thread) {
    match call
    case CallLock =>
      if th.p.Idle? then
        Returns(th, depth, EDEADLK, f) && (th.last == EDEADLK ==> f.taken && !kind.Recursive? && depth > 0)
      else
        && th.depth == depth && (th.p.LOwner? ==> f.taken) && (th.p.LWakeNext? ==> f.lost)
        && (TakingNow(th.p) || th.p.LState? || th.p.LExchange? || th.p.LCas? || th.p.LOwner? || th.p.LInherit?
            || th.p.LMark? || th.p.LSleep? || th.p.LCheck? || th.p.LWakeNext?)
    case CallTryLock =>
      if th.p.Idle? then
        Returns(th, depth, EBUSY, f) && (th.last == EBUSY ==> f.taken && !(kind.Recursive? && depth > 0))
      else
        && th.depth == depth
        && (TakingNow(th.p) || th.p.TState? || th.p.TCas? || (th.p.TOwner? && f.taken)
            || (th.p.TInherit? && f.taken && !(kind.Recursive? && depth > 0)))
    case CallUnlock =>
      if th.p.Idle? then if th.last == Ok then th.depth == depth - 1 else th.last == EPERM && th.depth == depth == 0
      else if th.p.UOwner? || th.p.UState? || th.p.SubCount? then th.depth == depth
      else th.depth == depth - 1 && (th.p.Remove? || th.p.UExchange? || th.p.Signal?)
    case CallConsistent => th.p.Idle? && th.depth == depth && (th.last == Ok || th.last == EINVAL)
    case Exit => Ending(th.p)
    case _ => false
  }

  predicate TakingNow(p: Pc) {
    ((p.SetCount? || p.Add?) && (p.r == Ok || p.r == EOWNERDEAD)) || p.AddCount?
  }

  predicate Returns(th: Thread, depth: int, busy: Result, f: Found) {
    if th.last == Ok || th.last == EOWNERDEAD then th.depth == depth + 1
    else ((th.last == ENOTRECOVERABLE && f.lost) || th.last == busy) && th.depth == depth
  }

  lemma CallBegins(sh: Shared, t: Tid, th: Thread, a: Act)
    requires CanMove(sh, th, a) && Starts(a)
    ensures During(sh.kind, a, th.depth, Found(false, false), Move(sh, t, th, a).1)
  {
  }

  lemma LockGoesOn(sh: Shared, t: Tid, th: Thread, call: Act, depth: int, f: Found)
    requires CanMove(sh, th, Go) && ThreadOk(sh, t, th) && During(sh.kind, call, depth, f, th)
    requires call.CallLock? || call.CallTryLock?
    ensures During(sh.kind, call, depth, AlsoFound(f, sh, Go), Move(sh, t, th, Go).1)
  {
  }

  lemma OtherGoesOn(sh: Shared, t: Tid, th: Thread, call: Act, depth: int, f: Found)
    requires CanMove(sh, th, Go) && ThreadOk(sh, t, th) && During(sh.kind, call, depth, f, th)
    requires !call.CallLock? && !call.CallTryLock?
    ensures During(sh.kind, call, depth, AlsoFound(f, sh, Go), Move(sh, t, th, Go).1)
  {
  }

  lemma KindStays(sh: Shared, t: Tid, th: Thread, a: Act)
    requires CanMove(sh, th, a)
    ensures Move(sh, t, th, a).0.kind == sh.kind
  {
  }

  /** One more event. */
  lemma FoundNext(es: seq<Event>, i: nat, t: Tid)
    requires i < |es|
    ensures i == |es| - 1 ==> FoundSince(es, i, t) == Found(false, false)
    ensures i < |es| - 1 ==>
              var e, f := Traces.Last(es), FoundSince(Traces.Init(es), i, t);
              FoundSince(es, i, t) == if e.who == t then AlsoFound(f, e.before.sh, e.act) else f
  {
    if i == |es| - 1 {
      Traces.TookNothing(es, t, FindsTaken);
      Traces.TookNothing(es, t, FindsLost);
    } else {
      Traces.TookNext(es, i, t, FindsTaken);
      Traces.TookNext(es, i, t, FindsLost);
    }
  }

  lemma {:induction false} CallFollowed(es: seq<Event>, i: nat, t: Tid)
    requires InCall(es, i, t)
    ensures var s, s0 := Traces.Last(es).after, es[i].before;
            && t in s.threads && t in s0.threads && s.sh.kind == s0.sh.kind
            && During(s0.sh.kind, es[i].act, s0.threads[t].depth, FoundSince(es, i, t), s.threads[t])
  {
    var e, was := Traces.Last(es), Traces.Init(es);
    Moved(e);
    KindStays(e.before.sh, e.who, e.before.threads[e.who], e.act);
    FoundNext(es, i, t);
    hide During, Move, Apply, Reachable, FoundSince, AlsoFound;
    if i == |es| - 1 {
      CallBegins(e.before.sh, t, e.before.threads[t], e.act);
    } else {
      InCallBefore(es, i, t);
      CallFollowed(was, i, t);
      if e.who == t {
        TraceReachable(es);
        ReachableInvariant(e.before);
        var th, depth, f := e.before.threads[t], es[i].before.threads[t].depth, FoundSince(was, i, t);
        assert ThreadOk(e.before.sh, t, th);
        if es[i].act.CallLock? || es[i].act.CallTryLock? { LockGoesOn(e.before.sh, t, th, es[i].act, depth, f); }
        else { OtherGoesOn(e.before.sh, t, th, es[i].act, depth, f); }
      }
    }
  }

  /** What a call has come to when it returns: a lock or trylock that says Ok or EOWNERDEAD has the
      mutex one level deeper; otherwise it says ENOTRECOVERABLE, having found it so, or, having found
      it taken, EDEADLK and EBUSY respectively; trylock never sleeps; unlock has it one level less
      deep, or says EPERM to a thread that did not have it. */
  lemma CallsKeepTheirWord(es: seq<Event>, i: nat, t: Tid)
    requires InCall(es, i, t)
    ensures t in Traces.Last(es).after.threads && t in es[i].before.threads
    ensures var call, th, depth := es[i].act, Traces.Last(es).after.threads[t], es[i].before.threads[t].depth;
            var f, again := FoundSince(es, i, t), es[i].before.sh.kind.Recursive? && depth > 0;
            && (th.p.Idle? && call.CallLock? ==>
                  Returns(th, depth, EDEADLK, f) && (th.last == EDEADLK ==> f.taken && !again && depth > 0))
            && (th.p.Idle? && call.CallTryLock? ==>
                  Returns(th, depth, EBUSY, f) && (th.last == EBUSY ==> f.taken && !again))
            && (call.CallTryLock? ==> !th.p.LMark? && !th.p.LSleep?)
            && (th.p.Idle? && call.CallUnlock? ==>
                  && (th.last == Ok || (th.last == EPERM && depth == 0))
                  && th.depth == depth - (if th.last == Ok then 1 else 0))
            && (call.CallConsistent? ==> th.p.Idle? && th.depth == depth)
            && (call.Exit? ==> Ending(th.p))
  {
    CallFollowed(es, i, t);
  }

  /** Nobody goes to mark the lock and sleep, or says EBUSY, without having just seen that its owner is
      neither dead nor has left it unrecoverable. */
  lemma LooksFirst(s: State, t: Tid)
    requires Reachable(s) && Enabled(s, t, Go)
    ensures var th, th' := s.threads[t], Apply(s, t, Go).threads[t];
            th'.p.LMark? || (Locking(th.p) && !th.p.Add? && th'.p.Idle? && th'.last == EBUSY) ==>
              s.sh.state.Consistent? || s.sh.state.Inconsistent?
  {
  }

  // ----- a mutex after the death of its owner --------------------------------------------------

  /** How the state of the mutex changes, and by which steps: the end of an owner leaves the mark, the
      heir makes it inconsistent, pthread_mutex_consistent makes that good, and an unlock without it
      makes the mutex unrecoverable. */
  predicate StateLaw(a: Act, r: Robust, th: Thread, r': Robust, th': Thread) {
    match r
    case Consistent => r' == if th.p.DieMark? then OwnerDied else r
    case OwnerDied =>
      r' == r || (r'.Inconsistent? && !Holds(th) && (th'.p == SetCount(EOWNERDEAD) || th'.p == Add(EOWNERDEAD)))
    case Inconsistent =>
      r' == if a.CallConsistent? then Consistent else if th.p.UState? then NotRecoverable
            else if th.p.DieMark? then OwnerDied else r
    case NotRecoverable => r' == if th.p.DieMark? then OwnerDied else r
  }

  lemma LockStates(sh: Shared, t: Tid, th: Thread)
    requires CanMove(sh, th, Go) && Locking(th.p) && ThreadOk(sh, t, th) && Unheld(sh, th)
    ensures var (sh', th') := LockStep(sh, t, th); StateLaw(Go, sh.state, th, sh'.state, th')
  {
  }

  lemma OtherStates(sh: Shared, t: Tid, th: Thread, a: Act)
    requires CanMove(sh, th, a) && !(a.Go? && Locking(th.p)) && ThreadOk(sh, t, th) && Unheld(sh, th)
    ensures var (sh', th') := Move(sh, t, th, a); StateLaw(a, sh.state, th, sh'.state, th')
  {
  }

  lemma StateChanges(s: State, t: Tid, a: Act)
    requires Reachable(s) && Enabled(s, t, a)
    ensures StateLaw(a, s.sh.state, s.threads[t], Apply(s, t, a).sh.state, Apply(s, t, a).threads[t])
    ensures a.CallConsistent? ==> Apply(s, t, a).threads[t].last == if s.sh.state.Inconsistent? then Ok else EINVAL
  {
    ReachableInvariant(s);
    var th := s.threads[t];
    assert ThreadOk(s.sh, t, th);
    Tally.AtLeast(s.threads, HolderW, t);
    if a.Go? && Locking(th.p) { LockStates(s.sh, t, th); } else { OtherStates(s.sh, t, th, a); }
    hide LockStep, UnlockStep, DeathStep, StateLaw;
  }

  /** A lock that begins when the mutex is unrecoverable says so at its first look. */
  lemma UnrecoverableIsSaid(s: State, t: Tid)
    requires Reachable(s) && Enabled(s, t, Go) && (s.threads[t].p.LState? || s.threads[t].p.TState?)
    ensures var th' := Apply(s, t, Go).threads[t];
            (th'.p.Idle? && th'.last == ENOTRECOVERABLE) <==> s.sh.state.NotRecoverable?
  {
    ReachableInvariant(s);
    assert ThreadOk(s.sh, t, s.threads[t]);
  }

  /** What a call does that nobody disturbs. */
  function Undisturbed(sh: Shared, t: Tid, th: Thread, call: Act): (Shared, Thread)
    requires CanMove(sh, th, call)
  {
    var (sh', th') := Move(sh, t, th, call); Alone(sh', t, th')
  }

  /** The last unlock by the owner. */
  lemma UnlockAlone(sh: Shared, t: Tid, th: Thread)
    requires th.p.Idle? && sh.owner == Some(t) && (sh.kind.Recursive? ==> sh.count == 1)
    ensures var (sh', th') := Undisturbed(sh, t, th, CallUnlock);
            && sh'.lockIdx == 0 && sh'.kind == sh.kind && th' == Thread(Idle, th.depth - 1, false, Ok)
            && sh'.state == if sh.state.Inconsistent? then NotRecoverable else sh.state
  {
    hide Alone, LockStep, DeathStep;
    OneStep(sh, t, th.(p := UOwner));
    OneStep(sh, t, th.(p := UState));
    var sh1 := if sh.state.Inconsistent? then sh.(state := NotRecoverable) else sh;
    if sh.kind.Recursive? {
      OneStep(sh1, t, th.(p := SubCount));
      FinishGiving(sh1.(count := sh1.count - 1), t, th.(p := Remove, depth := th.depth - 1));
    } else {
      FinishGiving(sh1, t, th.(p := Remove, depth := th.depth - 1));
    }
  }

  /** A lock that finds the mutex free. */
  lemma LockAlone(sh: Shared, t: Tid, th: Thread)
    requires th.p.Idle? && sh.lockIdx == 0
    ensures var (_, th') := Undisturbed(sh, t, th, CallLock);
            if sh.state.NotRecoverable? then th' == th.(last := ENOTRECOVERABLE)
            else th' == Thread(Idle, th.depth + 1, true, Ok)
  {
    hide Alone, UnlockStep, DeathStep;
    StateStep(sh, t, th.(p := LState));
    if sh.state.NotRecoverable? {
      Finished(sh, t, Return(th, ENOTRECOVERABLE));
    } else if sh.kind.Normal? {
      OneStep(sh, t, th.(p := LExchange));
      FinishAdding(sh.(lockIdx := 1), t, th.(p := Add(Ok)));
    } else {
      OneStep(sh, t, th.(p := LCas));
      FinishTaking(sh.(lockIdx := 1), t, th.(p := SetCount(Ok)));
    }
  }

  /** The heir t unlocks the mutex it has inherited. If it has made it consistent, the next thread u
      gets it as usual; if not, u is told that it is unrecoverable. */
  lemma ConsistentIsUsable(s: State, t: Tid, u: Tid)
    requires Reachable(s) && t in s.threads && u in s.threads && t != u
    requires s.threads[t].p.Idle? && s.threads[t].depth == 1 && s.threads[u].p.Idle? && s.sh.state.Inconsistent?
    ensures var th, thu := s.threads[t], s.threads[u];
            var (sh1, th1) := Move(s.sh, t, th, CallConsistent);
            var (sh2, th2) := Undisturbed(sh1, t, th1, CallUnlock);
            var th3 := Undisturbed(sh2, u, thu, CallLock).1;
            th1.last == Ok && th2.last == Ok && th2.depth == 0 && th3.last == Ok && th3.depth == thu.depth + 1
    ensures var (sh2, th2) := Undisturbed(s.sh, t, s.threads[t], CallUnlock);
            var th3 := Undisturbed(sh2, u, s.threads[u], CallLock).1;
            th2.last == Ok && th2.depth == 0 && th3.last == ENOTRECOVERABLE && th3.depth == s.threads[u].depth
  {
    ReachableInvariant(s);
    var th, thu := s.threads[t], s.threads[u];
    assert ThreadOk(s.sh, t, th);
    hide Invariant, Alone, LockStep, UnlockStep, DeathStep, Undisturbed;
    var (sh1, th1) := Move(s.sh, t, th, CallConsistent);
    UnlockAlone(sh1, t, th1);
    LockAlone(Undisturbed(sh1, t, th1, CallUnlock).0, u, thu);
    UnlockAlone(s.sh, t, th);
    LockAlone(Undisturbed(s.sh, t, th, CallUnlock).0, u, thu);
  }

  /** A thread that finds the lock free takes it; one that does not goes on without it. */
  lemma FreeIsTaken(s: State, t: Tid)
    requires Reachable(s) && Enabled(s, t, Go) && !Holds(s.threads[t])
    requires var p := s.threads[t].p; p.LExchange? || p.LCas? || p.LMark? || p.TCas?
    ensures Holds(Apply(s, t, Go).threads[t]) <==> s.sh.lockIdx == 0
    ensures s.sh.lockIdx == 0 ==> Apply(s, t, Go).sh.lockIdx != 0
  {
    ReachableInvariant(s);
    assert ThreadOk(s.sh, t, s.threads[t]);
    hide UnlockStep, DeathStep, Invariant;
  }
}
