/** What condition variables promise, over whole runs of the machine of module CondVar: the balance of
    the waiters, wakeups that are not lost, a gate with one holder, and freedom from deadlock. */
module CondVarLaws {
  import opened Common
  import opened CondVar
  import Tally
  import Traces

  // ----- what holds in every reachable state ---------------------------------------------------

  ghost predicate Reachable(s: State) {
    exists ss :: Run(ss) && ss[|ss| - 1] == s
  }

  lemma ReachableInvariant(s: State)
    requires Reachable(s)
    ensures Invariant(s)
  {
    var ss :| Run(ss) && ss[|ss| - 1] == s;
    RunKeepsInvariant(ss);
  }

  lemma StepReachable(s: State, t: Tid, a: Act)
    requires Reachable(s) && Enabled(s, t, a)
    ensures Reachable(Apply(s, t, a))
  {
    var ss :| Run(ss) && ss[|ss| - 1] == s;
    var longer := ss + [Apply(s, t, a)];
    assert Next(s, Apply(s, t, a));
    assert Run(longer) && longer[|longer| - 1] == Apply(s, t, a);
  }

  /** The counters add up whenever mtxUnblockLock is free, and they stay far from overflow as long
      as there are fewer than 2^30 threads. */
  lemma Accounting(s: State)
    requires Reachable(s)
    ensures s.sh.mtx.None? ==>
              RegisteredWaiters(s) == s.sh.c.blocked - s.sh.c.gone + s.sh.c.toUnblock && s.sh.c.gone < GONE_LIMIT
    ensures s.sh.c.blocked >= 0 && s.sh.c.gone >= 0 && s.sh.c.toUnblock >= 0
    ensures s.sh.c.toUnblock > 0 ==> s.sh.c.gone == 0
    ensures s.sh.c.gone <= GONE_LIMIT && s.sh.c.toUnblock <= |s.pc| && s.sh.c.blocked <= |s.pc| + GONE_LIMIT
  {
    ReachableInvariant(s);
    OnlyOwnerFolds(s);
    Tally.AtMostOneEach(s.pc, RegisteredW);
  }

  /** Signals are never lost: every waiter that is owed a wakeup is matched by a unit of the queue
      semaphore, a post still to come, or a waiter that has taken a unit. So of the waiters without
      a unit, at most those not yet covered lack one. */
  lemma WakeupsNeverLost(s: State)
    requires Reachable(s)
    ensures s.sh.queue >= 0 && s.sh.queue + TokensHeld(s) + ToPost(s) >= s.sh.c.toUnblock
    ensures var asleep := RegisteredWaiters(s) - TokensHeld(s);
            var uncovered := RegisteredWaiters(s) - s.sh.c.toUnblock;
            0 <= asleep <= s.sh.queue + ToPost(s) + uncovered
  {
    ReachableInvariant(s);
    Tally.Compare(s.pc, TokenW, RegisteredW);
  }

  /** The section of a signaller ends when it is about to unlock mtxUnblockLock. */
  predicate EndsSection(p: Pc, p': Pc) { !p.SignalOut? && p'.SignalOut? }

  /** Is a signaller in its section on behalf of a broadcast? */
  predicate AllOf(p: Pc) { (p.SignalIn? || p.SignalClose?) && p.all }

  /** A broadcast covers every registered waiter, a signal one more if there is one; t is to post as
      many units as it has newly covered waiters. */
  ghost predicate Covers(s: State, s': State, t: Tid, all: bool)
    requires t in s'.pc
  {
    var uncovered := RegisteredWaiters(s) - s.sh.c.toUnblock;
    && RegisteredWaiters(s') == RegisteredWaiters(s) && uncovered >= 0
    && s'.sh.c.toUnblock == s.sh.c.toUnblock + (if all || uncovered == 0 then uncovered else 1)
    && s'.pc[t] == SignalOut(s'.sh.c.toUnblock - s.sh.c.toUnblock)
  }

  /** The section of a signal or broadcast, on whichever of its two paths it ends: a broadcast
      leaves every registered waiter covered, a signal covers exactly one more if there is one, the
      number of posts is the number of newly covered waiters, and nobody is forgotten. */
  lemma SectionCovers(s: State, t: Tid, a: Act)
    requires Reachable(s) && Enabled(s, t, a) && EndsSection(s.pc[t], Apply(s, t, a).pc[t])
    ensures Covers(s, Apply(s, t, a), t, AllOf(s.pc[t]))
  {
    ReachableInvariant(s);
    ThreadFits(s, t);
    Counted(s, t, Apply(s, t, a).pc[t]);
  }

  /** The gate is open or has exactly one reason to be closed. Nobody registers while waiters are
      being unblocked, and each closing by a signaller is undone exactly once. */
  lemma GateHasOneHolder(s: State, t: Tid, u: Tid)
    requires Reachable(s) && t in s.pc && u in s.pc
    ensures GateW(s.pc[t]) == 1 && GateW(s.pc[u]) == 1 ==> t == u
    ensures GateW(s.pc[t]) == 1 ==> s.sh.gate == 0 && s.sh.c.toUnblock == 0
    ensures s.sh.c.toUnblock > 0 ==> s.sh.gate == 0
    ensures s.sh.gate == 1 || s.sh.c.toUnblock > 0 || exists v :: v in s.pc && GateW(s.pc[v]) == 1
    ensures s.sh.openings <= s.sh.closings <= s.sh.openings + 1
    ensures s.sh.gate == 1 ==> s.sh.closings == s.sh.openings
  {
    ReachableInvariant(s);
    Tally.AtLeast(s.pc, GateW, t);
    if t != u { Tally.AtLeastTwo(s.pc, GateW, t, u); }
    if CensusOf(s).gate > 0 { var v := Tally.Witness(s.pc, GateW); }
    Tally.Compare(s.pc, ClosingW, GateW);
  }

  // ----- deadlock freedom ----------------------------------------------------------------------

  /** Steps a thread takes on its own account: neither a new call nor giving up a wait. */
  predicate Internal(a: Act) { !a.CallWait? && !a.CallSignal? && !a.GiveUp? }

  /** The one step a thread inside a call takes next, unless it gives up. */
  function OwnStep(p: Pc): (a: Act)
    requires !p.Idle?
    ensures Internal(a)
  {
    match p
    case Entering => Count
    case Registered => PostGate
    case Queued => TakeToken
    case Leaving(_) => LeaveLock
    case LeaveIn(_) => LeaveCount
    case FoldGate => TakeFoldGate
    case FoldIn => FoldSub
    case FoldPost => FoldOpen
    case FoldZero => FoldClear
    case LeaveOut(_) => LeaveUnlock
    case Opening => OpenGate
    case Signalling(_) => SignalLock
    case SignalIn(_) => SignalDecide
    case SignalGate(_) => SignalTakeGate
    case SignalClose(_) => SignalCount
    case SignalOut(_) => SignalUnlock
    case Posting(_) => Post
  }

  /** Thread t is outside or waits for something. */
  predicate Blocked(s: State, t: Tid)
    requires t in s.pc
  {
    match s.pc[t]
    case Idle => true
    case Queued => s.sh.queue <= 0
    case Leaving(_) | Signalling(_) => s.sh.mtx.Some?
    case FoldGate | SignalGate(_) => s.sh.gate <= 0
    case _ => false
  }

  ghost predicate AllBlocked(s: State) {
    forall t :: t in s.pc ==> Blocked(s, t)
  }

  /** A thread that cannot take its own step is blocked. */
  lemma NoStepBlocked(s: State, t: Tid)
    requires t in s.pc && (s.pc[t].Idle? || !Enabled(s, t, OwnStep(s.pc[t])))
    ensures Blocked(s, t)
  {
  }

  /** Whoever holds mtxUnblockLock, somebody can move: the holder, or who holds the gate from it. */
  lemma SomebodyMoves(s: State)
    requires Invariant(s) && s.sh.mtx.Some?
    ensures exists t :: t in s.pc && !Blocked(s, t)
  {
    assert ThreadOk(s.sh, s.sh.mtx.value, s.pc[s.sh.mtx.value]);
    OnlyOwnerFolds(s);
    if Blocked(s, s.sh.mtx.value) {
      var u := Tally.Witness(s.pc, GateW);
      assert !Blocked(s, u);
    }
  }

  lemma NothingOwedWhenBlocked(s: State)
    requires Invariant(s) && AllBlocked(s) && s.sh.mtx.None?
    ensures s.sh.gate == 1 && s.sh.c.toUnblock == 0
    ensures forall t :: t in s.pc ==> s.pc[t].Idle? || (s.pc[t].Queued? && s.sh.queue == 0)
  {
    assert forall t :: t in s.pc ==> Blocked(s, t) && (s.pc[t].Idle? || (s.pc[t].Queued? && s.sh.queue == 0));
    Tally.Nobody(s.pc, GateW);
    Tally.Nobody(s.pc, TokenW);
    Tally.Nobody(s.pc, ToPostW);
    if s.sh.c.toUnblock > 0 {
      var u := Tally.Witness(s.pc, RegisteredW);
    }
  }

  /** If nobody inside a call can move, then nobody is owed anything: the mutex is free, the gate
      is open, and whoever is inside a call sleeps in the empty queue, uncovered by any signal. */
  lemma NoDeadlock(s: State)
    requires Reachable(s)
    requires forall t, a :: Enabled(s, t, a) ==> !Internal(a)
    ensures s.sh.mtx.None? && s.sh.gate == 1 && s.sh.c.toUnblock == 0
    ensures forall t :: t in s.pc ==> s.pc[t].Idle? || (s.pc[t].Queued? && s.sh.queue == 0)
  {
    ReachableInvariant(s);
    forall t | t in s.pc ensures Blocked(s, t) {
      NoStepBlocked(s, t);
    }
    if s.sh.mtx.Some? { SomebodyMoves(s); }
    NothingOwedWhenBlocked(s);
  }

  /** Who writes a counter has what guards it: nWaitersBlocked changes only while the gate is closed,
      the other two only under mtxUnblockLock. */
  lemma CountersGuarded(s: State, t: Tid, a: Act)
    requires Reachable(s) && Enabled(s, t, a)
    ensures var c, c' := s.sh.c, Apply(s, t, a).sh.c;
            && (c'.blocked != c.blocked ==> s.sh.gate == 0)
            && (c'.gone != c.gone || c'.toUnblock != c.toUnblock ==> s.sh.mtx == Some(t))
  {
    ReachableInvariant(s);
    assert ThreadOk(s.sh, t, s.pc[t]);
    Tally.AtLeast(s.pc, GateW, t);
  }

  // ----- what a call comes to ------------------------------------------------------------------

  type Event = Traces.Event<State, Act>

  predicate Starts(a: Act) { a.CallWait? || a.CallSignal? }

  predicate Calls(e: Event) { Starts(e.act) }

  predicate TakesUnit(e: Event) { e.act.TakeToken? }
  predicate GivesUp(e: Event) { e.act.GiveUp? }

  /** The thread ends its section as a signaller. */
  predicate Decides(e: Event) {
    e.who in e.before.pc && e.who in e.after.pc && EndsSection(e.before.pc[e.who], e.after.pc[e.who])
  }

  /** The thread posts n units to the queue. */
  function Posts(n: int): Event -> bool { (e: Event) => e.act.Post? && e.after.sh.queue == e.before.sh.queue + n }

  predicate Happens(e: Event) { Enabled(e.before, e.who, e.act) && e.after == Apply(e.before, e.who, e.act) }

  /** A run that goes on from a reachable state. */
  ghost predicate Trace(es: seq<Event>) {
    |es| > 0 && Reachable(es[0].before) && Traces.Linked(es) && forall k :: 0 <= k < |es| ==> Happens(es[k])
  }

  lemma {:induction false} TraceReachable(es: seq<Event>)
    requires Trace(es)
    ensures Reachable(Traces.Last(es).before) && Reachable(Traces.Last(es).after)
  {
    if |es| > 1 {
      TraceReachable(Traces.Init(es));
      assert Traces.Last(Traces.Init(es)) == es[|es| - 2];
      assert es[|es| - 2].after == es[|es| - 2 + 1].before;
    }
    StepReachable(Traces.Last(es).before, Traces.Last(es).who, Traces.Last(es).act);
  }

  /** Thread t makes a call with the i-th event and no other since. */
  ghost predicate InCall(es: seq<Event>, i: nat, t: Tid) {
    Trace(es) && i < |es| && es[i].who == t && Calls(es[i]) && !Traces.Took(es, i, t, Calls)
  }

  lemma InCallBefore(es: seq<Event>, i: nat, t: Tid)
    requires InCall(es, i, t) && i < |es| - 1
    ensures InCall(Traces.Init(es), i, t) && Traces.Last(Traces.Init(es)).after == Traces.Last(es).before
    ensures Traces.Last(es).who == t ==> !Calls(Traces.Last(es))
  {
    Traces.TookNext(es, i, t, Calls);
    assert es[|es| - 2].after == es[|es| - 2 + 1].before;
  }

  lemma Moved(e: Event)
    requires Happens(e)
    ensures var (sh', p') := Move(e.before.sh, e.who, e.before.pc[e.who], e.act);
            e.who in e.after.pc && e.after.pc[e.who] == p' && e.after.sh == sh'
    ensures forall t :: t in e.before.pc && t != e.who ==> t in e.after.pc && e.after.pc[t] == e.before.pc[t]
  {
  }

  /** Where a thread can be that has made this call as its last one; since then it may have taken a
      unit of the queue or given up its wait, and its section may have ended. */
  predicate During(call: Act, took: bool, gaveUp: bool, decided: bool, p: Pc) {
    match call
    case CallWait =>
      !decided &&
      if !took && !gaveUp then p.Entering? || p.Registered? || p.Queued?
      else !(took && gaveUp) && (InCleanUp(p) || p.Idle?) && (p.Leaving? || p.LeaveIn? ==> p.token == took)
    case CallSignal(all) =>
      !took && !gaveUp &&
      if decided then p.SignalOut? || p.Posting? || p.Idle?
      else p == Signalling(all) || p == SignalIn(all) || p == SignalGate(all) || p == SignalClose(all)
    case _ => false
  }

  predicate InCleanUp(p: Pc) {
    p.Leaving? || p.LeaveIn? || p.FoldGate? || p.FoldIn? || p.FoldPost? || p.FoldZero? || p.LeaveOut? || p.Opening?
  }

  lemma CallBegins(sh: Shared, t: Tid, p: Pc, a: Act)
    requires CanMove(sh, p, a) && Starts(a)
    ensures During(a, false, false, false, Move(sh, t, p, a).1)
  {
  }

  lemma CallGoesOn(sh: Shared, t: Tid, p: Pc, a: Act, call: Act, took: bool, gaveUp: bool, decided: bool)
    requires CanMove(sh, p, a) && !Starts(a) && During(call, took, gaveUp, decided, p)
    ensures var p' := Move(sh, t, p, a).1;
            During(call, took || a.TakeToken?, gaveUp || a.GiveUp?, decided || EndsSection(p, p'), p')
  {
  }

  lemma {:induction false} CallFollowed(es: seq<Event>, i: nat, t: Tid)
    requires InCall(es, i, t)
    ensures var s := Traces.Last(es).after;
            t in s.pc && During(es[i].act, Traces.Took(es, i, t, TakesUnit), Traces.Took(es, i, t, GivesUp),
                                Traces.Took(es, i, t, Decides), s.pc[t])
  {
    var e, was := Traces.Last(es), Traces.Init(es);
    Moved(e);
    hide During, Move, Apply, Reachable, EndsSection;
    if i == |es| - 1 {
      CallBegins(e.before.sh, t, e.before.pc[t], e.act);
      Traces.TookNothing(es, t, TakesUnit);
      Traces.TookNothing(es, t, GivesUp);
      Traces.TookNothing(es, t, Decides);
    } else {
      InCallBefore(es, i, t);
      Traces.TookNext(es, i, t, TakesUnit);
      Traces.TookNext(es, i, t, GivesUp);
      Traces.TookNext(es, i, t, Decides);
      CallFollowed(was, i, t);
      if e.who == t {
        CallGoesOn(e.before.sh, t, e.before.pc[t], e.act, es[i].act, Traces.Took(was, i, t, TakesUnit),
                   Traces.Took(was, i, t, GivesUp), Traces.Took(was, i, t, Decides));
      }
    }
  }

  /** A wait that has come back has taken a unit of the queue or has been given up, and not both. A
      signal or broadcast that has come back has been through its section. */
  lemma CallsKeepTheirWord(es: seq<Event>, i: nat, t: Tid)
    requires InCall(es, i, t)
    ensures t in Traces.Last(es).after.pc
    ensures es[i].act.CallWait? && Traces.Last(es).after.pc[t].Idle? ==>
              (Traces.Took(es, i, t, TakesUnit) <==> !Traces.Took(es, i, t, GivesUp))
    ensures es[i].act.CallSignal? && Traces.Last(es).after.pc[t].Idle? ==> Traces.Took(es, i, t, Decides)
  {
    CallFollowed(es, i, t);
  }

  /** The section of a call covers whom the call was for: after a broadcast everybody registered, after
      a signal one more waiter if there is one. */
  lemma CallCovers(es: seq<Event>, i: nat, t: Tid)
    requires InCall(es, i, t) && i < |es| - 1 && es[i].act.CallSignal?
    requires Traces.Last(es).who == t && Decides(Traces.Last(es))
    ensures var e := Traces.Last(es); t in e.after.pc && Covers(e.before, e.after, t, es[i].act.all)
  {
    var e := Traces.Last(es);
    InCallBefore(es, i, t);
    CallFollowed(Traces.Init(es), i, t);
    TraceReachable(es);
    Moved(e);
    hide Apply;
    DecidesForIts(e.before.sh, t, e.before.pc[t], e.act, es[i].act.all, Traces.Took(Traces.Init(es), i, t, Decides));
    SectionCovers(e.before, t, e.act);
  }

  lemma DecidesForIts(sh: Shared, t: Tid, p: Pc, a: Act, all: bool, decided: bool)
    requires CanMove(sh, p, a) && !Starts(a) && During(CallSignal(all), false, false, decided, p)
    requires EndsSection(p, Move(sh, t, p, a).1)
    ensures AllOf(p) == all && !decided
  {
  }

  /** A signaller that owes n units. */
  predicate Owes(n: int, posted: bool, p: Pc) {
    if posted then n > 0 && p.Idle? else p == SignalOut(n) || (n > 0 && p == Posting(n)) || (n == 0 && p.Idle?)
  }

  lemma OwesNext(sh: Shared, t: Tid, p: Pc, a: Act, n: int, posted: bool)
    requires CanMove(sh, p, a) && !Starts(a) && Owes(n, posted, p) && n >= 0
    ensures var (sh', p') := Move(sh, t, p, a); Owes(n, posted || (a.Post? && sh'.queue == sh.queue + n), p')
  {
  }

  /** After its section a signaller posts exactly as many units as it owes, before it comes back. */
  lemma {:induction false} CallDelivers(es: seq<Event>, j: nat, t: Tid, n: nat)
    requires Trace(es) && j < |es| && es[j].who == t && !Traces.Took(es, j, t, Calls)
    requires t in es[j].after.pc && es[j].after.pc[t] == SignalOut(n)
    ensures var s := Traces.Last(es).after; t in s.pc && Owes(n, Traces.Took(es, j, t, Posts(n)), s.pc[t])
    ensures Traces.Last(es).after.pc[t].Idle? && n > 0 ==> Traces.Took(es, j, t, Posts(n))
  {
    var e, was := Traces.Last(es), Traces.Init(es);
    if j == |es| - 1 {
      Traces.TookNothing(es, t, Posts(n));
    } else {
      Traces.TookNext(es, j, t, Calls);
      Traces.TookNext(es, j, t, Posts(n));
      assert es[|es| - 2].after == es[|es| - 2 + 1].before;
      CallDelivers(was, j, t, n);
      Moved(e);
      if e.who == t { OwesNext(e.before.sh, t, e.before.pc[t], e.act, n, Traces.Took(was, j, t, Posts(n))); }
      hide Move, Apply, Reachable;
    }
  }
}
