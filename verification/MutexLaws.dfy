/** What non-robust mutexes promise, over whole runs of the machine of module Mutex: one holder, a
    recursion count that is the nesting depth, comparisons of the owner that come out right, results
    that tell the truth, and no lost wakeup. */
module MutexLaws {
  import opened Common
  import opened Mutex
  import Tally
  import Traces

  // ----- what holds in every reachable state ---------------------------------------------------

  ghost predicate Reachable(s: State) {
    exists ss :: Run(ss) && ss[|ss| - 1] == s
  }

  lemma ReachableInvariant(s: State)
    requires Reachable(s)
    ensures Invariant(s)
  {
    var ss :| Run(ss) && ss[|ss| - 1] == s;
    RunKeepsInvariant(ss);
  }

  lemma StepReachable(s: State, t: Tid, a: Act)
    requires Reachable(s) && Enabled(s, t, a)
    ensures Reachable(Apply(s, t, a))
  {
    var ss :| Run(ss) && ss[|ss| - 1] == s;
    var longer := ss + [Apply(s, t, a)];
    assert Next(s, Apply(s, t, a));
    assert Run(longer) && longer[|longer| - 1] == Apply(s, t, a);
  }

  /** At most one thread is in possession, and lock_idx is 0 exactly when nobody is. */
  lemma MutualExclusion(s: State, t: Tid, u: Tid)
    requires Reachable(s) && t in s.threads && u in s.threads
    ensures Holds(s.threads[t]) && Holds(s.threads[u]) ==> t == u
    ensures s.sh.lockIdx == 0 <==> forall v :: v in s.threads ==> !Holds(s.threads[v])
  {
    ReachableInvariant(s);
    if t != u && Holds(s.threads[t]) { HolderUnique(s, t, u); }
    if v :| v in s.threads && Holds(s.threads[v]) { Tally.AtLeast(s.threads, HolderW, v); }
    else { Tally.Nobody(s.threads, HolderW); }
  }

  /** A recursive or error-checking mutex knows its owner and how often it has been locked. */
  lemma CountIsDepth(s: State, t: Tid)
    requires Reachable(s) && !s.sh.kind.Normal? && t in s.threads && s.threads[t].p.Idle?
    ensures s.sh.owner == Some(t) <==> s.threads[t].depth > 0
    ensures s.threads[t].depth > 0 ==> s.sh.count == s.threads[t].depth
    ensures s.threads[t].depth > 1 ==> s.sh.kind.Recursive?
  {
    ReachableInvariant(s);
    assert ThreadOk(s.sh, t, s.threads[t]);
  }

  /** The unsynchronised reads of ownerThread tell the caller whether it has the lock itself: EPERM,
      EDEADLK, EBUSY and the recursive path are taken exactly when they should be. */
  lemma OwnerReadsAreRight(s: State, t: Tid)
    requires Reachable(s) && !s.sh.kind.Normal? && Enabled(s, t, Go)
    requires s.threads[t].p.UOwner? || s.threads[t].p.LOwner? || s.threads[t].p.TOwner?
    ensures var p, p', last, mine := s.threads[t].p, Apply(s, t, Go).threads[t].p, Apply(s, t, Go).threads[t].last,
                                     s.threads[t].depth > 0;
            && (p.UOwner? && !mine ==> p'.Idle? && last == EPERM)
            && (p.UOwner? && mine ==> p' == if s.sh.kind.Recursive? then SubCount else ClearOwner)
            && (p.LOwner? && !mine ==> p'.Mark?)
            && (p.LOwner? && mine ==> if s.sh.kind.Recursive? then p'.AddCount? else p'.Idle? && last == EDEADLK)
            && (p.TOwner? ==> if mine then p'.AddCount? else p'.Idle? && last == EBUSY)
  {
    ReachableInvariant(s);
    assert ThreadOk(s.sh, t, s.threads[t]);
  }

  /** The lock is given up exactly when the last of the nested locks is: every step either leaves
      possession alone, or takes the free lock for a thread that had none, or is the exchange with 0
      by the thread that has it and whose locks are all undone. */
  lemma ReleasesAtZero(s: State, t: Tid, a: Act)
    requires Reachable(s) && Enabled(s, t, a)
    ensures var th, th' := s.threads[t], Apply(s, t, a).threads[t];
            && (!Holds(th) && Holds(th') ==> s.sh.lockIdx == 0)
            && (Holds(th) && !Holds(th') <==> th.p.UExchange?)
            && (th.p.UExchange? ==> th'.depth == 0 && Apply(s, t, a).sh.lockIdx == 0)
            && (th.p.SubCount? ==> th'.depth == th.depth - 1 && (th'.p.ClearOwner? <==> th'.depth == 0))
  {
    ReachableInvariant(s);
    assert ThreadOk(s.sh, t, s.threads[t]);
    Tally.AtLeast(s.threads, HolderW, t);
  }

  /** What unlock does to a normal mutex, whoever calls it: pthread_mutex_unlock.c:65-83. */
  function Freed(sh: Shared): Shared { sh.(lockIdx := 0, event := sh.event || sh.lockIdx < 0) }

  ghost predicate TwoHold(threads: map<Tid, Thread>) {
    exists v, w :: v in threads && w in threads && v != w && Holds(threads[v]) && Holds(threads[w])
  }

  /** Unlocked by a thread that does not have it and then locked by it, a normal mutex has two
      holders if and only if it was locked before. */
  lemma StrayUnlock(s: State, u: Tid)
    requires Reachable(s) && s.sh.kind.Normal? && u in s.threads && s.threads[u].p.Idle? && s.threads[u].depth == 0
    ensures var (sh', th') := Move(Freed(s.sh), u, s.threads[u].(p := TCas), Go);
            Holds(th') && (TwoHold(s.threads[u := th']) <==> s.sh.lockIdx != 0)
  {
    var threads := s.threads[u := Move(Freed(s.sh), u, s.threads[u].(p := TCas), Go).1];
    MutualExclusion(s, u, u);
    assert forall v :: v in threads && v != u ==> threads[v] == s.threads[v];
    if s.sh.lockIdx != 0 {
      var t :| t in s.threads && Holds(s.threads[t]);
      assert t != u && Holds(threads[t]) && Holds(threads[u]);
    }
  }

  /** A call that takes the lock says Ok exactly if the caller has it one level deeper than before,
      and ETIMEDOUT exactly if its time ran out; one that gives it up says Ok or EPERM, the latter
      exactly if the caller did not have it. */
  lemma ResultsAreHonest(s: State, t: Tid, a: Act)
    requires Reachable(s) && Enabled(s, t, a) && !s.threads[t].p.Idle? && Apply(s, t, a).threads[t].p.Idle?
    ensures var th, th' := s.threads[t], Apply(s, t, a).threads[t];
            if Taking(th.p) then
              th'.depth == th.depth + (if th'.last == Ok then 1 else 0) && (th'.last == ETIMEDOUT <==> a.TimeOut?)
            else
              && (th'.last == Ok || th'.last == EPERM)
              && (th'.last == EPERM <==> th.p.UOwner?) && (th'.last == EPERM ==> th.depth == 0)
  {
    ReachableInvariant(s);
    assert ThreadOk(s.sh, t, s.threads[t]);
  }

  /** No wakeup is lost: while somebody sleeps and the event is not set, the next unlock is bound to
      set it, or some thread is about to mark the lock or to set the event itself. */
  lemma NoLostWakeup(s: State, t: Tid)
    requires Reachable(s) && t in s.threads && s.threads[t].p.Sleep? && !s.sh.event
    ensures s.sh.lockIdx == -1 || exists u :: u in s.threads && (s.threads[u].p.Mark? || s.threads[u].p.Signal?)
  {
    ReachableInvariant(s);
    Tally.AtLeast(s.threads, SleeperW, t);
    if Wakers(s) > 0 { var u := Tally.Witness(s.threads, WakerW); }
  }

  /** So nobody sleeps over a free lock when nobody else can go on. */
  lemma NobodyStranded(s: State, t: Tid)
    requires Reachable(s) && t in s.threads && s.threads[t].p.Sleep?
    requires forall u :: !Enabled(s, u, Go)
    ensures s.sh.lockIdx == -1
    ensures exists u :: u in s.threads && s.threads[u].depth > 0 && (s.threads[u].p.Idle? || s.threads[u].p.Sleep?)
  {
    assert !Enabled(s, t, Go);
    NoLostWakeup(s, t);
    forall u | u in s.threads ensures s.threads[u].p.Idle? || s.threads[u].p.Sleep? {
      assert !Enabled(s, u, Go);
    }
    ReachableInvariant(s);
    var u := Tally.Witness(s.threads, HolderW);
  }

  // ----- what a call comes to ------------------------------------------------------------------

  type Event = Traces.Event<State, Act>

  predicate Starts(a: Act) { a.CallLock? || a.CallTryLock? || a.CallUnlock? }

  predicate Calls(e: Event) { Starts(e.act) }

  predicate RunsOutOfTime(e: Event) { e.act.TimeOut? }

  /** The thread takes a step in its call, and the mutex is not free. */
  predicate FindsTaken(e: Event) { e.act.Go? && e.before.sh.lockIdx != 0 }

  predicate Happens(e: Event) { Enabled(e.before, e.who, e.act) && e.after == Apply(e.before, e.who, e.act) }

  /** A run that goes on from a reachable state. */
  ghost predicate Trace(es: seq<Event>) {
    |es| > 0 && Reachable(es[0].before) && Traces.Linked(es) && forall k :: 0 <= k < |es| ==> Happens(es[k])
  }

  lemma {:induction false} TraceReachable(es: seq<Event>)
    requires Trace(es)
    ensures Reachable(Traces.Last(es).before) && Reachable(Traces.Last(es).after)
  {
    if |es| > 1 {
      TraceReachable(Traces.Init(es));
      assert Traces.Last(Traces.Init(es)) == es[|es| - 2];
      assert es[|es| - 2].after == es[|es| - 2 + 1].before;
    }
    StepReachable(Traces.Last(es).before, Traces.Last(es).who, Traces.Last(es).act);
  }

  /** Thread t makes a call with the i-th event and no other since. */
  ghost predicate InCall(es: seq<Event>, i: nat, t: Tid) {
    Trace(es) && i < |es| && es[i].who == t && Calls(es[i]) && !Traces.Took(es, i, t, Calls)
  }

  lemma InCallBefore(es: seq<Event>, i: nat, t: Tid)
    requires InCall(es, i, t) && i < |es| - 1
    ensures InCall(Traces.Init(es), i, t) && Traces.Last(Traces.Init(es)).after == Traces.Last(es).before
    ensures Traces.Last(es).who == t ==> !Calls(Traces.Last(es))
  {
    Traces.TookNext(es, i, t, Calls);
    assert es[|es| - 2].after == es[|es| - 2 + 1].before;
  }

  lemma Moved(e: Event)
    requires Happens(e)
    ensures var (sh', th') := Move(e.before.sh, e.who, e.before.threads[e.who], e.act);
            e.who in e.after.threads && e.after.threads[e.who] == th' && e.after.sh == sh'
    ensures forall t :: t in e.before.threads && t != e.who ==>
              t in e.after.threads && e.after.threads[t] == e.before.threads[t]
  {
  }

  /** Where a thread can be that has made this call as its last one, holding the mutex `depth` times;
      and what the call can return. */
  predicate During(kind: Kind, call: Act, depth: int, timedOut: bool, taken: bool, th: Thread) {
    match call
    case CallLock(timed) =>
      if th.p.Idle? then
        if timedOut then timed && th.last == ETIMEDOUT && th.depth == depth
        else if th.last == Ok then th.depth == depth + 1
        else th.last == EDEADLK && th.depth == depth && depth > 0 && kind.ErrorCheck?
      else
        && th.depth == depth && !timedOut
        && (TakingNow(th.p) || th.p == LExchange(timed) || th.p == LCas(timed) || th.p == LOwner(timed)
            || th.p == Mark(timed) || th.p == Sleep(timed))
    case CallTryLock =>
      && !timedOut
      && (if th.p.Idle? then
            if th.last == Ok then th.depth == depth + 1
            else th.last == EBUSY && th.depth == depth && taken && !(kind.Recursive? && depth > 0)
          else th.depth == depth && (TakingNow(th.p) || th.p.TCas? || (th.p.TOwner? && taken)))
    case CallUnlock =>
      && !timedOut
      && (if th.p.Idle? then if th.last == Ok then th.depth == depth - 1 else th.last == EPERM && th.depth == depth == 0
          else if th.p.UOwner? || th.p.SubCount? || (kind.Normal? && th.p.UExchange?) then th.depth == depth
          else th.depth == depth - 1 && (th.p.ClearOwner? || th.p.UExchange? || th.p.Signal?))
    case _ => false
  }

  predicate TakingNow(p: Pc) { p.SetCount? || p.SetOwner? || p.AddCount? }

  lemma CallBegins(sh: Shared, t: Tid, th: Thread, a: Act)
    requires CanMove(sh, th, a) && Starts(a)
    ensures During(sh.kind, a, th.depth, false, false, Move(sh, t, th, a).1)
  {
  }

  lemma CallGoesOn(sh: Shared, t: Tid, th: Thread, a: Act, call: Act, depth: int, timedOut: bool, taken: bool)
    requires CanMove(sh, th, a) && !Starts(a) && ThreadOk(sh, t, th)
    requires During(sh.kind, call, depth, timedOut, taken, th)
    ensures var (sh', th') := Move(sh, t, th, a);
            && sh'.kind == sh.kind
            && During(sh.kind, call, depth, timedOut || a.TimeOut?, taken || (a.Go? && sh.lockIdx != 0), th')
  {
  }

  lemma {:induction false} CallFollowed(es: seq<Event>, i: nat, t: Tid)
    requires InCall(es, i, t)
    ensures var s, s0 := Traces.Last(es).after, es[i].before;
            && t in s.threads && t in s0.threads && s.sh.kind == s0.sh.kind
            && During(s0.sh.kind, es[i].act, s0.threads[t].depth, Traces.Took(es, i, t, RunsOutOfTime),
                      Traces.Took(es, i, t, FindsTaken), s.threads[t])
  {
    var e, was := Traces.Last(es), Traces.Init(es);
    Moved(e);
    KindStays(e.before.sh, e.who, e.before.threads[e.who], e.act);
    hide During, Move, Apply, Reachable;
    if i == |es| - 1 {
      CallBegins(e.before.sh, t, e.before.threads[t], e.act);
      Traces.TookNothing(es, t, RunsOutOfTime);
      Traces.TookNothing(es, t, FindsTaken);
    } else {
      InCallBefore(es, i, t);
      Traces.TookNext(es, i, t, RunsOutOfTime);
      Traces.TookNext(es, i, t, FindsTaken);
      CallFollowed(was, i, t);
      if e.who == t {
        TraceReachable(es);
        ReachableInvariant(e.before);
        assert ThreadOk(e.before.sh, t, e.before.threads[t]);
        CallGoesOn(e.before.sh, t, e.before.threads[t], e.act, es[i].act, es[i].before.threads[t].depth,
                   Traces.Took(was, i, t, RunsOutOfTime), Traces.Took(was, i, t, FindsTaken));
      }
    }
  }

  lemma KindStays(sh: Shared, t: Tid, th: Thread, a: Act)
    requires CanMove(sh, th, a)
    ensures Move(sh, t, th, a).0.kind == sh.kind
  {
  }

  /** What a call has come to when it returns: lock and timedlock have the mutex one level deeper, or
      say EDEADLK to the owner of an error-checking mutex, or ETIMEDOUT if and only if the time has
      run out; trylock has it one level deeper or, having found it taken and not its own to nest, says
      EBUSY, and never sleeps; unlock has it one
      level less deep, or says EPERM to a thread that did not have it. */
  lemma CallsKeepTheirWord(es: seq<Event>, i: nat, t: Tid)
    requires InCall(es, i, t)
    ensures t in Traces.Last(es).after.threads && t in es[i].before.threads
    ensures var call, th, depth := es[i].act, Traces.Last(es).after.threads[t], es[i].before.threads[t].depth;
            var late := Traces.Took(es, i, t, RunsOutOfTime);
            && (th.p.Idle? && call.CallLock? ==>
                  && (th.last == ETIMEDOUT <==> late)
                  && (th.last == Ok || th.last == ETIMEDOUT || (th.last == EDEADLK && depth > 0))
                  && th.depth == depth + (if th.last == Ok then 1 else 0))
            && (th.p.Idle? && call.CallTryLock? ==>
                  && th.depth == depth + (if th.last == Ok then 1 else 0)
                  && (th.last == Ok || (th.last == EBUSY && Traces.Took(es, i, t, FindsTaken)
                                        && !(es[i].before.sh.kind.Recursive? && depth > 0))))
            && (call.CallTryLock? ==> !th.p.Mark? && !th.p.Sleep?)
            && (th.p.Idle? && call.CallUnlock? ==>
                  && (th.last == Ok || (th.last == EPERM && depth == 0))
                  && th.depth == depth - (if th.last == Ok then 1 else 0))
  {
    CallFollowed(es, i, t);
  }

  /** A thread that finds the lock free takes it; one that does not goes on without it. */
  lemma FreeIsTaken(s: State, t: Tid)
    requires Reachable(s) && Enabled(s, t, Go)
    requires var p := s.threads[t].p; p.LExchange? || p.LCas? || p.Mark? || p.TCas?
    ensures Holds(s.threads[t]) || (Holds(Apply(s, t, Go).threads[t]) <==> s.sh.lockIdx == 0)
    ensures s.sh.lockIdx == 0 ==> Apply(s, t, Go).sh.lockIdx != 0
  {
    ReachableInvariant(s);
    assert ThreadOk(s.sh, t, s.threads[t]);
  }
}
