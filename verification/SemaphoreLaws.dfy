/** What semaphores promise, over whole runs of the machine of module Semaphore: units are conserved,
    nobody waits over a unit that is there, and every call does what it is for. */
module SemaphoreLaws {
  import opened Common
  import opened Semaphore
  import Tally
  import Traces

  // ----- what holds in every reachable state ---------------------------------------------------

  ghost predicate Reachable(s: State) {
    exists ss :: Run(ss) && ss[|ss| - 1] == s
  }

  lemma ReachableInvariant(s: State)
    requires Reachable(s)
    ensures Invariant(s)
  {
    var ss :| Run(ss) && ss[|ss| - 1] == s;
    RunKeepsInvariant(ss);
  }

  /** Units are conserved, and whoever waits lacks one only if there is none: with the lock free,
      successful waits, undelivered tokens and free units add up to the initial value and the
      posts, and the waiters without a token are as many as the field is below zero. */
  lemma Conservation(s: State)
    requires Reachable(s) && s.sh.mtx.None?
    ensures s.sh.taken + s.sh.tokens + Pos(s.sh.value) == s.sh.initial + s.sh.posted
    ensures Waiters(s) - s.sh.tokens == Pos(-s.sh.value)
    ensures s.sh.value > 0 ==> s.sh.tokens == Waiters(s)
  {
    ReachableInvariant(s);
    forall t | t in s.pc ensures ComingW(s.pc[t]) == 0 { assert ThreadOk(s.sh, t, s.pc[t]); }
    Tally.Nobody(s.pc, ComingW);
  }

  /** Neither the field nor the OS semaphore overflows, and with at most SEM_VALUE_MAX threads
      ReleaseSemaphore is never refused. */
  lemma NeverOverflows(s: State)
    requires Reachable(s)
    ensures -|s.pc| <= s.sh.value <= SEM_VALUE_MAX && 0 <= s.sh.tokens <= |s.pc|
    ensures forall t :: Enabled(s, t, Release) && |s.pc| <= SEM_VALUE_MAX ==> s.sh.tokens + s.pc[t].n <= SEM_VALUE_MAX
  {
    ReachableInvariant(s);
    Tally.AtMostOneEach(s.pc, WaitsW);
    forall t | Enabled(s, t, Release) ensures s.sh.tokens + s.pc[t].n <= |s.pc| {
      assert ThreadOk(s.sh, t, s.pc[t]);
      Tally.AtLeast(s.pc, ComingW, t);
    }
  }

  /** The semaphore behaves like a counter of available units: every wait that succeeds takes one
      that was there, nothing else changes the number except posts, and a post adds exactly what
      it promised, or nothing. */
  lemma RefinesCounter(s: State, t: Tid, a: Act)
    requires Reachable(s) && Enabled(s, t, a)
    ensures var s' := Apply(s, t, a);
            && Available(s) >= 0
            && Available(s') - Available(s) == (s'.sh.posted - s.sh.posted) - (s'.sh.taken - s.sh.taken)
            && (s'.sh.taken == s.sh.taken || (s'.sh.taken == s.sh.taken + 1 && Available(s) > 0))
            && (s'.sh.posted != s.sh.posted ==> a.DoPost? || a.Release?)
            && (a.DoPost? ==> s'.sh.posted == if s.sh.value + s.pc[t].op.count <= SEM_VALUE_MAX
                                              then s.sh.posted + s.pc[t].op.count else s.sh.posted)
            && (a.Release? ==> s'.sh.posted == s.sh.posted || s'.sh.posted == s.sh.posted - s.pc[t].count)
  {
    ReachableInvariant(s);
    StepKeepsInvariant(s, t, a);
  }

  /** A wait that gives up with ETIMEDOUT does so when no unit is available, and one that found a
      unit after all has succeeded. sem_trywait says EAGAIN only if every unit there is belongs to
      a thread that already waits. */
  lemma FailuresAreHonest(s: State, t: Tid, a: Act)
    requires Reachable(s) && Enabled(s, t, a) && (a.DoCleanUp? || a.DoTryWait?)
    ensures a.DoCleanUp? ==> (Apply(s, t, a).sh.taken == s.sh.taken + 1 <==> Available(s) > 0)
    ensures a.DoTryWait? ==> (Apply(s, t, a).sh.taken == s.sh.taken + 1 <==> Available(s) > Waiters(s))
  {
    ReachableInvariant(s);
    assert ThreadOk(s.sh, t, s.pc[t]);
    ComingFromOwner(s, t);
    Tally.AtLeast(s.pc, WaitsW, t);
  }

  // ----- deadlock freedom ----------------------------------------------------------------------

  /** The step a thread inside a call takes next, unless it gives up. */
  function OwnStep(p: Pc): Act
    requires !p.Idle?
  {
    match p
    case WantLock(_, _) => Lock
    case In(op, _) =>
      if op.Wait? then DoWait else if op.TryWait? then DoTryWait else if op.Post? then DoPost else DoCleanUp
    case Releasing(_, _) => Release
    case Out(_, _) => Unlock
    case Asleep(_) => TakeToken
  }

  predicate CanGoOn(s: State, t: Tid) { t in s.pc && !s.pc[t].Idle? && Enabled(s, t, OwnStep(s.pc[t])) }

  /** If nobody inside a call can go on, then everybody inside sleeps and no unit is available. */
  lemma NobodyStranded(s: State)
    requires Reachable(s) && forall t :: !CanGoOn(s, t)
    ensures s.sh.mtx.None? && forall t :: t in s.pc ==> s.pc[t].Idle? || s.pc[t].Asleep?
    ensures Waiters(s) > 0 ==> Available(s) == 0
  {
    ReachableInvariant(s);
    if s.sh.mtx.Some? {
      assert ThreadOk(s.sh, s.sh.mtx.value, s.pc[s.sh.mtx.value]);
      assert CanGoOn(s, s.sh.mtx.value);
    }
    forall t | t in s.pc ensures s.pc[t].Idle? || (s.pc[t].Asleep? && s.sh.tokens <= 0) {
      assert !CanGoOn(s, t);
      assert ThreadOk(s.sh, t, s.pc[t]);
    }
    Conservation(s);
    Tally.Nobody(s.pc, ComingW);
    if Waiters(s) > 0 { var t := Tally.Witness(s.pc, WaitsW); }
  }

  // ----- what a call comes to ------------------------------------------------------------------

  type Event = Traces.Event<State, Act>

  predicate Starts(a: Act) { a.CallWait? || a.CallTryWait? || a.CallPost? }

  predicate Calls(e: Event) { Starts(e.act) }

  predicate GivesUp(e: Event) { e.act.GiveUp? }

  /** The thread takes a unit. */
  predicate TakesUnit(e: Event) { e.after.sh.taken == e.before.sh.taken + 1 }

  /** The thread adds n units. */
  function Adds(n: int): Event -> bool { (e: Event) => e.after.sh.posted == e.before.sh.posted + n }

  /** The thread finds no free unit: EAGAIN. */
  predicate FindsNone(e: Event) { e.act.DoTryWait? && e.before.sh.value <= 0 }

  /** The thread finds no room for n units: ERANGE. */
  function FindsFull(n: int): Event -> bool {
    (e: Event) => e.act.DoPost? && e.before.sh.value + n > SEM_VALUE_MAX && e.after.sh.posted == e.before.sh.posted
  }

  predicate Happens(e: Event) { Enabled(e.before, e.who, e.act) && e.after == Apply(e.before, e.who, e.act) }

  /** A run that goes on from a reachable state. */
  ghost predicate Trace(es: seq<Event>) {
    |es| > 0 && Reachable(es[0].before) && Traces.Linked(es) && forall k :: 0 <= k < |es| ==> Happens(es[k])
  }

  lemma StepReachable(s: State, t: Tid, a: Act)
    requires Reachable(s) && Enabled(s, t, a)
    ensures Reachable(Apply(s, t, a))
  {
    var ss :| Run(ss) && ss[|ss| - 1] == s;
    var longer := ss + [Apply(s, t, a)];
    assert Next(s, Apply(s, t, a));
    assert Run(longer) && longer[|longer| - 1] == Apply(s, t, a);
  }

  lemma {:induction false} TraceReachable(es: seq<Event>)
    requires Trace(es)
    ensures Reachable(Traces.Last(es).before) && Reachable(Traces.Last(es).after)
  {
    if |es| > 1 {
      TraceReachable(Traces.Init(es));
      assert Traces.Last(Traces.Init(es)) == es[|es| - 2];
      assert es[|es| - 2].after == es[|es| - 2 + 1].before;
    }
    StepReachable(Traces.Last(es).before, Traces.Last(es).who, Traces.Last(es).act);
  }

  /** Thread t makes a call with the i-th event and no other since. */
  ghost predicate InCall(es: seq<Event>, i: nat, t: Tid) {
    Trace(es) && i < |es| && es[i].who == t && Calls(es[i]) && !Traces.Took(es, i, t, Calls)
  }

  lemma InCallBefore(es: seq<Event>, i: nat, t: Tid)
    requires InCall(es, i, t) && i < |es| - 1
    ensures InCall(Traces.Init(es), i, t) && Traces.Last(Traces.Init(es)).after == Traces.Last(es).before
    ensures Traces.Last(es).who == t ==> !Calls(Traces.Last(es))
  {
    Traces.TookNext(es, i, t, Calls);
    assert es[|es| - 2].after == es[|es| - 2 + 1].before;
  }

  lemma Moved(e: Event)
    requires Happens(e)
    ensures var (sh', p') := Move(e.before.sh, e.who, e.before.pc[e.who], e.act);
            e.who in e.after.pc && e.after.pc[e.who] == p' && e.after.sh == sh'
    ensures forall t :: t in e.before.pc && t != e.who ==> t in e.after.pc && e.after.pc[t] == e.before.pc[t]
  {
  }

  /** What a thread has done since its last call: taken a unit, found none, given up waiting, added the
      units it was to post, or found no room for them. */
  datatype Done = Done(took: bool, none: bool, gaveUp: bool, added: bool, full: bool)

  ghost function DoneSince(es: seq<Event>, i: nat, t: Tid, n: int): Done {
    Done(Traces.Took(es, i, t, TakesUnit), Traces.Took(es, i, t, FindsNone), Traces.Took(es, i, t, GivesUp),
         Traces.Took(es, i, t, Adds(n)), Traces.Took(es, i, t, FindsFull(n)))
  }

  function CountOf(call: Act): int { if call.CallPost? then call.n else 1 }

  /** Where a thread can be that has made this call as its last one. */
  predicate During(call: Act, d: Done, p: Pc) {
    match call
    case CallWait(timed) =>
      && (d.gaveUp ==> timed)
      && (if d.took then p == Out(false, false) || p.Idle?
          else if d.gaveUp then
            p == WantLock(CleanUp, false) || p == In(CleanUp, false) || p == Out(false, false) || p.Idle?
          else p == WantLock(Wait, timed) || p == In(Wait, timed) || p == Out(true, timed) || p == Asleep(timed))
    case CallTryWait =>
      && !d.gaveUp
      && (if d.took || d.none then p == Out(false, false) || p.Idle?
          else p == WantLock(TryWait, false) || p == In(TryWait, false))
    case CallPost(n) =>
      && !d.took && !d.gaveUp
      && (if n <= 0 then p.Idle?
          else || p == WantLock(Post(n), false) || p == In(Post(n), false)
               || (d.added && p.Releasing? && p.count == n)
               || ((d.added || d.full) && (p == Out(false, false) || p.Idle?)))
    case _ => false
  }

  lemma CallBegins(sh: Shared, t: Tid, p: Pc, a: Act)
    requires CanMove(sh, p, a) && Starts(a)
    ensures During(a, Done(false, false, false, false, false), Move(sh, t, p, a).1)
  {
  }

  function AlsoDone(d: Done, sh: Shared, sh': Shared, a: Act, n: int): Done {
    Done(d.took || sh'.taken == sh.taken + 1, d.none || (a.DoTryWait? && sh.value <= 0), d.gaveUp || a.GiveUp?, 
         d.added || sh'.posted == sh.posted + n,
         d.full || (a.DoPost? && sh.value + n > SEM_VALUE_MAX && sh'.posted == sh.posted))
  }

  lemma CallGoesOn(sh: Shared, t: Tid, p: Pc, a: Act, call: Act, d: Done)
    requires CanMove(sh, p, a) && !Starts(a) && Starts(call) && During(call, d, p)
    ensures var (sh', p') := Move(sh, t, p, a); During(call, AlsoDone(d, sh, sh', a, CountOf(call)), p')
  {
  }

  lemma DoneNothing(es: seq<Event>, t: Tid, n: int)
    requires |es| > 0
    ensures DoneSince(es, |es| - 1, t, n) == Done(false, false, false, false, false)
  {
    Traces.TookNothing(es, t, TakesUnit);
    Traces.TookNothing(es, t, FindsNone);
    Traces.TookNothing(es, t, GivesUp);
    Traces.TookNothing(es, t, Adds(n));
    Traces.TookNothing(es, t, FindsFull(n));
  }

  /** One more event. */
  lemma DoneNext(es: seq<Event>, i: nat, t: Tid, n: int)
    requires i < |es| - 1
    ensures var e, d := Traces.Last(es), DoneSince(Traces.Init(es), i, t, n);
            DoneSince(es, i, t, n) == if e.who == t then AlsoDone(d, e.before.sh, e.after.sh, e.act, n) else d
  {
    Traces.TookNext(es, i, t, TakesUnit);
    Traces.TookNext(es, i, t, FindsNone);
    Traces.TookNext(es, i, t, GivesUp);
    Traces.TookNext(es, i, t, Adds(n));
    Traces.TookNext(es, i, t, FindsFull(n));
  }

  lemma {:induction false} CallFollowed(es: seq<Event>, i: nat, t: Tid)
    requires InCall(es, i, t)
    ensures var s := Traces.Last(es).after;
            t in s.pc && During(es[i].act, DoneSince(es, i, t, CountOf(es[i].act)), s.pc[t])
  {
    var e, was, n := Traces.Last(es), Traces.Init(es), CountOf(es[i].act);
    Moved(e);
    hide During, Move, Apply, Reachable, DoneSince, AlsoDone;
    if i == |es| - 1 {
      CallBegins(e.before.sh, t, e.before.pc[t], e.act);
      DoneNothing(es, t, n);
    } else {
      InCallBefore(es, i, t);
      DoneNext(es, i, t, n);
      CallFollowed(was, i, t);
      if e.who == t { CallGoesOn(e.before.sh, t, e.before.pc[t], e.act, es[i].act, DoneSince(was, i, t, n)); }
    }
  }

  /** A wait that has come back has taken a unit, unless it has given up; sem_trywait does not
      sleep, and has taken a unit or found none; a post that has come back has added its units, unless
      they would not fit. */
  lemma CallsKeepTheirWord(es: seq<Event>, i: nat, t: Tid)
    requires InCall(es, i, t)
    ensures t in Traces.Last(es).after.pc
    ensures var call, p := es[i].act, Traces.Last(es).after.pc[t];
            var d := DoneSince(es, i, t, CountOf(call));
            && (call.CallWait? && p.Idle? ==> d.took || (d.gaveUp && call.timed))
            && (call.CallTryWait? ==> !p.Asleep? && !d.gaveUp && (p.Idle? ==> d.took || d.none))
            && (call.CallPost? ==> !p.Asleep? && !d.took && (p.Idle? ==> call.n <= 0 || d.added || d.full))
            && (call.CallPost? && call.n <= 0 ==> p.Idle?)
  {
    CallFollowed(es, i, t);
  }
}
