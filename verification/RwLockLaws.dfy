/** What the read/write lock promises, over whole runs of the machine of module RwLock: exclusion,
    counters that tell how many readers are inside, a roll-back that restores them, an unlock that
    picks the right kind, and freedom from deadlock. */
module RwLockLaws {
  import opened Common
  import opened RwLock
  import Tally
  import Traces

  // ----- what holds in every reachable state ---------------------------------------------------

  /** Reachable by steps with fewer than INT_MAX readers active at once. */
  ghost predicate Reachable(s: State) {
    exists ss :: Run(ss) && ss[|ss| - 1] == s
  }

  lemma ReachableInvariant(s: State)
    requires Reachable(s)
    ensures Invariant(s) && ActiveReaders(s) < INT_MAX
  {
    var ss :| Run(ss) && ss[|ss| - 1] == s;
    RunKeepsInvariant(ss);
  }

  /** A thread that may write excludes all readers and all other writers. */
  lemma Exclusion(s: State, w: Tid, u: Tid)
    requires Reachable(s) && w in s.pc && u in s.pc && u != w && HasWriteLock(s.pc[w])
    ensures !HasWriteLock(s.pc[u]) && ActiveW(s.pc[u]) == 0 && ActiveReaders(s) == 0
  {
    ReachableInvariant(s);
    assert OwnsWhatItShould(s.sh, w, s.pc[w]) && OwnsWhatItShould(s.sh, u, s.pc[u]);
    Tally.AtLeast(s.pc, ActiveW, u);
  }

  predicate HasWriteLock(p: Pc) { p.Writing? || p == Unlock(true) || p.WrOut? }

  predicate WriterWaits(s: State) { PhaseOf(HolderE(s)).Waits? || PhaseOf(HolderE(s)).Drained? }

  /** How many readers are inside, by the counters; and the counters do not overflow, however many
      read locks have been taken. */
  lemma CountersTell(s: State)
    requires Reachable(s)
    ensures ActiveReaders(s) == if WriterWaits(s) then -s.sh.c.completed else s.sh.c.shared - s.sh.c.completed
    ensures 0 <= s.sh.c.shared <= INT_MAX && -INT_MAX < s.sh.c.completed <= INT_MAX && 0 <= s.sh.c.exclusive <= 1
  {
    ReachableInvariant(s);
  }

  /** When a waiting writer gives up, the counters again say who is inside. */
  lemma RollBackRestores(s: State, t: Tid)
    requires Reachable(s) && Enabled(s, t, Check) && !s.pc[t].ok
    ensures var s' := Apply(s, t, Check);
            && s'.sh.c.completed == 0 && s'.sh.c.shared == ActiveReaders(s') == ActiveReaders(s)
            && !WriterWaits(s')
  {
    ReachableInvariant(s);
    assert OwnsWhatItShould(s.sh, t, s.pc[t]);
    Tally.Update(s.pc, ActiveW, t, DropC);
  }

  /** pthread_rwlock_unlock picks the caller's own kind. */
  lemma UnlockPicksOwnKind(s: State, t: Tid)
    requires Reachable(s) && Enabled(s, t, ReadExclusive)
    ensures Apply(s, t, ReadExclusive).pc[t] == if s.pc[t].writer then WrOut else OutWantC
  {
    ReachableInvariant(s);
    ThreadFits(s, t);
  }

  /** Counting out reaches zero, and the reader is going to signal, exactly when a writer waits and its
      last reader leaves. */
  lemma ReachesZero(s: State, t: Tid)
    requires Reachable(s) && Enabled(s, t, CountOut)
    ensures var s' := Apply(s, t, CountOut);
            && ActiveReaders(s') == ActiveReaders(s) - 1
            && (s'.sh.c.completed == 0 <==> WriterWaits(s) && ActiveReaders(s') == 0)
            && (s'.pc[t].OutSignal? <==> WriterWaits(s) && ActiveReaders(s') == 0)
  {
    ReachableInvariant(s);
    ThreadFits(s, t);
    Tally.Update(s.pc, ActiveW, t, Apply(s, t, CountOut).pc[t]);
  }

  /** A writer gets in only when nobody is inside; it does not wait if nobody is, and trylock does not
      return without giving back the mutexes. */
  lemma WriterEntersEmpty(s: State, t: Tid, a: Act)
    requires Reachable(s) && Enabled(s, t, a) && (a.EnterWriter? || a.TryEnterWriter? || a.Check?)
    ensures var p' := Apply(s, t, a).pc[t];
            && (p'.WrCount? || p'.Writing? || p'.WrClear? ==> ActiveReaders(s) == 0)
            && (ActiveReaders(s) == 0 && !a.Check? ==> p'.WrCount? || p'.Writing?)
            && (a.TryEnterWriter? ==> p'.Writing? || p'.DropC?)
  {
    ReachableInvariant(s);
    ThreadFits(s, t);
    if a.EnterWriter? { WriterEntryFits(s.sh, ActiveReaders(s)); }
    else if a.TryEnterWriter? { TryWriterEntryFits(s.sh, ActiveReaders(s)); }
  }

  // ----- deadlock freedom ----------------------------------------------------------------------

  /** The step a thread inside a call takes next if nothing goes wrong. */
  function OwnStep(p: Pc): Act
    requires !p.Idle? && !p.Reading? && !p.Writing?
  {
    match p
    case RdWantE | WrWantE => LockE
    case RdWantC | OutWantC | WrWantC | WrWoken(_) => LockC
    case RdCount => CountIn
    case RdNormalise => DoNormalise
    case RdDropC | OutDropC | DropC => UnlockC
    case RdDropE | DropE => UnlockE
    case Unlock(_) => ReadExclusive
    case OutCount => CountOut
    case OutSignal => DoSignal
    case WrOut => CountWriterOut
    case WrEntry => EnterWriter
    case WrAsleep(_) => WakeUp
    case WrCheck(_) => Check
    case WrClear => ClearShared
    case WrCount => CountWriter
    case TryC => TryLockC
    case TryEntry => TryEnterWriter
  }

  /** Thread t can go on by itself; a writer asleep only counts if it has been signalled. */
  predicate CanGoOn(s: State, t: Tid) {
    t in s.pc && !s.pc[t].Idle? && !s.pc[t].Reading? && !s.pc[t].Writing?
    && Enabled(s, t, OwnStep(s.pc[t])) && s.pc[t] != WrAsleep(false)
  }

  lemma HolderOfCGoesOn(s: State)
    requires Invariant(s) && s.sh.mtxC.Some? && !HolderC(s).Writing?
    ensures CanGoOn(s, s.sh.mtxC.value)
  {
    assert OwnsWhatItShould(s.sh, s.sh.mtxC.value, HolderC(s));
  }

  /** With the other mutex free, what can hold up the holder of E is a writer waiting for readers. */
  lemma HolderOfEGoesOn(s: State)
    requires Invariant(s) && s.sh.mtxE.Some? && s.sh.mtxC.None?
    ensures HolderE(s) == WrAsleep(false) || CanGoOn(s, s.sh.mtxE.value)
  {
    assert OwnsWhatItShould(s.sh, s.sh.mtxE.value, HolderE(s));
  }

  /** Unless somebody simply has the lock, a thread inside a call can go on: every wait is for a
      holder of the lock. */
  lemma NoDeadlock(s: State, t: Tid)
    requires Reachable(s) && t in s.pc && s.pc[t] != Idle
    requires forall u :: u in s.pc ==> !s.pc[u].Reading? && !s.pc[u].Writing?
    ensures exists u :: CanGoOn(s, u)
  {
    ReachableInvariant(s);
    assert OwnsWhatItShould(s.sh, t, s.pc[t]);
    if s.sh.mtxC.Some? {
      HolderOfCGoesOn(s);
    } else if s.sh.mtxE.Some? {
      HolderOfEGoesOn(s);
      if HolderE(s) == WrAsleep(false) {
        var u := Tally.Witness(s.pc, ActiveW);
        assert OwnsWhatItShould(s.sh, u, s.pc[u]) && OwnsWhatItShould(s.sh, s.sh.mtxE.value, HolderE(s));
        assert CanGoOn(s, u);
      }
    } else {
      assert CanGoOn(s, t);
    }
  }

  // ----- what a call comes to ------------------------------------------------------------------

  type Event = Traces.Event<State, Act>

  predicate Starts(a: Act) { a.CallRdLock? || a.CallTryRdLock? || a.CallWrLock? || a.CallTryWrLock? || a.CallUnlock? }

  predicate Calls(e: Event) { Starts(e.act) }

  predicate GivesUp(e: Event) { e.act.GiveUpLock? || e.act.GiveUpWait? }

  ghost predicate Happens(e: Event) {
    Enabled(e.before, e.who, e.act) && e.after == Apply(e.before, e.who, e.act) && ActiveReaders(e.after) < INT_MAX
  }

  /** A run that goes on from a reachable state. */
  ghost predicate Trace(es: seq<Event>) {
    |es| > 0 && Reachable(es[0].before) && Traces.Linked(es) && forall k :: 0 <= k < |es| ==> Happens(es[k])
  }

  lemma StepReachable(e: Event)
    requires Reachable(e.before) && Happens(e)
    ensures Reachable(e.after)
  {
    var ss :| Run(ss) && ss[|ss| - 1] == e.before;
    assert Next(e.before, e.after);
    assert Run(ss + [e.after]) && (ss + [e.after])[|ss|] == e.after;
  }

  lemma {:induction false} TraceReachable(es: seq<Event>)
    requires Trace(es)
    ensures Reachable(Traces.Last(es).before) && Reachable(Traces.Last(es).after)
  {
    if |es| > 1 {
      TraceReachable(Traces.Init(es));
      assert Traces.Last(Traces.Init(es)) == es[|es| - 2];
      assert es[|es| - 2].after == es[|es| - 2 + 1].before;
    }
    StepReachable(Traces.Last(es));
  }

  /** Thread t makes a call with the i-th event and no other since. */
  ghost predicate InCall(es: seq<Event>, i: nat, t: Tid) {
    Trace(es) && i < |es| && es[i].who == t && Calls(es[i]) && !Traces.Took(es, i, t, Calls)
  }

  lemma InCallBefore(es: seq<Event>, i: nat, t: Tid)
    requires InCall(es, i, t) && i < |es| - 1
    ensures InCall(Traces.Init(es), i, t) && Traces.Last(Traces.Init(es)).after == Traces.Last(es).before
    ensures Traces.Last(es).who == t ==> !Calls(Traces.Last(es))
  {
    Traces.TookNext(es, i, t, Calls);
    assert es[|es| - 2].after == es[|es| - 2 + 1].before;
  }

  /** Where a thread can be that has made this call as its last one; `writer` is what it held then,
      and `gaveUp` whether it has given up a wait since. */
  predicate During(call: Act, writer: bool, gaveUp: bool, p: Pc) {
    match call
    case CallRdLock => p.RdWantE? || TakesReadLock(p) || p.Reading?
    case CallTryRdLock => TakesReadLock(p) || p.Reading? || p.Idle?
    case CallWrLock =>
      if gaveUp then p == WrWoken(false) || p == WrCheck(false) || p.DropC? || p.DropE? || p.Idle?
      else || p.WrWantE? || p.WrWantC? || p.WrEntry? || p.WrAsleep? || p == WrWoken(true) || p == WrCheck(true)
           || p.WrClear? || p.WrCount? || p.Writing?
    case CallTryWrLock => p.TryC? || p.TryEntry? || p.Writing? || p.DropC? || p.DropE? || p.Idle?
    case CallUnlock =>
      || p == Unlock(writer) || p.Idle?
      || (if writer then p.WrOut? || p.DropC? || p.DropE?
          else p.OutWantC? || p.OutCount? || p.OutSignal? || p.OutDropC?)
    case _ => false
  }

  predicate TakesReadLock(p: Pc) { p.RdCount? || p.RdWantC? || p.RdNormalise? || p.RdDropC? || p.RdDropE? }

  lemma CallBegins(sh: Shared, t: Tid, p: Pc, a: Act)
    requires CanMove(sh, p, a) && Starts(a)
    ensures During(a, p.Writing?, false, Move(sh, t, p, a).1) && (a.CallWrLock? ==> !p.Writing?)
  {
  }

  lemma WriterCallGoesOn(sh: Shared, t: Tid, p: Pc, a: Act, gaveUp: bool)
    requires CanMove(sh, p, a) && !Starts(a) && During(CallWrLock, false, gaveUp, p)
    ensures During(CallWrLock, false, gaveUp || a.GiveUpLock? || a.GiveUpWait?, Move(sh, t, p, a).1)
  {
  }

  lemma OtherCallGoesOn(sh: Shared, t: Tid, p: Pc, a: Act, call: Act, writer: bool, gaveUp: bool)
    requires CanMove(sh, p, a) && ReadsRight(sh, p) && !Starts(a) && call != CallWrLock
    requires During(call, writer, gaveUp, p)
    ensures During(call, writer, gaveUp || a.GiveUpLock? || a.GiveUpWait?, Move(sh, t, p, a).1)
  {
  }

  /** The steps of the others do not move t, except that a signal may reach it asleep. */
  lemma OthersDoNot(s: State, u: Tid, a: Act, t: Tid)
    requires Enabled(s, u, a) && t in s.pc && t != u
    ensures var s' := Apply(s, u, a);
            t in s'.pc && (s'.pc[t] == s.pc[t] || (s.pc[t].WrAsleep? && s'.pc[t] == WrAsleep(true)))
  {
  }

  lemma StepFollowed(e: Event, t: Tid, call: Act, writer: bool, gaveUp: bool)
    requires Reachable(e.before) && Happens(e) && t in e.before.pc && (e.who == t ==> !Calls(e))
    requires During(call, writer, gaveUp, e.before.pc[t]) && (call.CallWrLock? ==> !writer)
    ensures t in e.after.pc && During(call, writer, gaveUp || (e.who == t && GivesUp(e)), e.after.pc[t])
  {
    var s := e.before;
    if e.who == t {
      ReachableInvariant(s);
      ThreadFits(s, t);
      if call.CallWrLock? { WriterCallGoesOn(s.sh, t, s.pc[t], e.act, gaveUp); }
      else { OtherCallGoesOn(s.sh, t, s.pc[t], e.act, call, writer, gaveUp); }
      hide During, Move;
    } else {
      OthersDoNot(s, e.who, e.act, t);
    }
  }

  lemma {:induction false} CallFollowed(es: seq<Event>, i: nat, t: Tid)
    requires InCall(es, i, t)
    ensures var p, s := es[i].before.pc, Traces.Last(es).after;
            && t in p && t in s.pc && (es[i].act.CallWrLock? ==> !p[t].Writing?)
            && During(es[i].act, p[t].Writing?, Traces.Took(es, i, t, GivesUp), s.pc[t])
  {
    hide During, Apply, Reachable;
    if i == |es| - 1 {
      CallBegins(es[i].before.sh, t, es[i].before.pc[t], es[i].act);
      Traces.TookNothing(es, t, GivesUp);
      Moved(es[i]);
    } else {
      InCallBefore(es, i, t);
      Traces.TookNext(es, i, t, GivesUp);
      CallFollowed(Traces.Init(es), i, t);
      TraceReachable(es);
      var writer := es[i].before.pc[t].Writing?;
      StepFollowed(Traces.Last(es), t, es[i].act, writer, Traces.Took(Traces.Init(es), i, t, GivesUp));
    }
  }

  lemma Moved(e: Event)
    requires Happens(e)
    ensures e.who in e.before.pc && e.who in e.after.pc
    ensures e.after.pc[e.who] == Move(e.before.sh, e.who, e.before.pc[e.who], e.act).1
  {
  }

  /** pthread_rwlock_wrlock comes back without the lock if and only if its thread has given up a wait;
      pthread_rwlock_rdlock does not come back without it, and the tries do not wait for the lock. */
  lemma CallsKeepTheirWord(es: seq<Event>, i: nat, t: Tid)
    requires InCall(es, i, t)
    ensures t in Traces.Last(es).after.pc
    ensures var call, p := es[i].act, Traces.Last(es).after.pc[t];
            && (call.CallWrLock? && p.Idle? ==> Traces.Took(es, i, t, GivesUp))
            && (call.CallWrLock? && p.Writing? ==> !Traces.Took(es, i, t, GivesUp))
            && (call.CallRdLock? ==> !p.Idle?)
            && (call.CallRdLock? || call.CallTryRdLock? ==> !HasWriteLock(p))
            && (call.CallWrLock? || call.CallTryWrLock? ==> !p.Reading?)
            && (call.CallTryRdLock? || call.CallTryWrLock? ==>
                  !p.RdWantE? && !p.WrWantE? && !p.WrWantC? && !p.WrAsleep?)
            && (call.CallUnlock? ==> !p.Reading? && !p.Writing?)
  {
    CallFollowed(es, i, t);
  }

  /** A try fails if and only if it finds a mutex locked or, for a writer, readers inside. */
  lemma TriesFailForAReason(s: State, t: Tid, a: Act)
    requires Reachable(s) && Enabled(s, t, a)
    ensures var p' := Apply(s, t, a).pc[t];
            && (a.CallTryRdLock? ==> if s.sh.mtxE.Some? then p'.Idle? else p'.RdCount?)
            && (a.CallTryWrLock? ==> if s.sh.mtxE.Some? then p'.Idle? else p'.TryC?)
            && (a.TryLockC? ==> if s.sh.mtxC.Some? then p'.DropE? else p'.TryEntry?)
            && (a.TryEnterWriter? ==> if ActiveReaders(s) > 0 then p'.DropC? else p'.Writing?)
  {
    ReachableInvariant(s);
    ThreadFits(s, t);
    if a.TryEnterWriter? { WriterEntersEmpty(s, t, a); }
  }

  /** A waiting writer that wakes when nobody is inside gets the lock by its own next steps. */
  lemma WokenWriterGetsIn(s: State, t: Tid)
    requires Reachable(s) && t in s.pc && s.pc[t].WrAsleep? && ActiveReaders(s) == 0 && s.sh.mtxC.None?
    ensures Enabled(s, t, WakeUp)
    ensures var s1 := Apply(s, t, WakeUp);
            && Enabled(s1, t, LockC)
            && var s2 := Apply(s1, t, LockC);
            && Enabled(s2, t, Check)
            && var s3 := Apply(s2, t, Check);
            && Enabled(s3, t, ClearShared)
            && var s4 := Apply(s3, t, ClearShared);
            && Enabled(s4, t, CountWriter)
            && Apply(s4, t, CountWriter).pc[t] == Writing
  {
    CountersTell(s);
    ReachableInvariant(s);
    assert OwnsWhatItShould(s.sh, t, s.pc[t]);
  }
}
