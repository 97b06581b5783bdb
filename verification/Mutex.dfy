/** Non-robust mutexes: the first halves of pthread_mutex_lock.c, pthread_mutex_timedlock.c,
    pthread_mutex_trylock.c and pthread_mutex_unlock.c.

    lock_idx is 0 (free), 1 (locked) or -1 (locked, and somebody may be asleep on the event). Every
    interlocked instruction, every access to the other fields and every OS call is one atomic step
    of a machine with any number of threads, for all three kinds of mutex. Class Mutex holds the
    code of the calls; it is proved to be what the machine does when nobody interferes. */
module Mutex {
  import opened Common
  import Tally

  type Tid = nat

  datatype Kind = Normal | Recursive | ErrorCheck

  datatype Result = Ok | EBUSY | EDEADLK | EPERM | ETIMEDOUT

  // ----- the machine ---------------------------------------------------------------------------

  datatype Pc =
    | Idle
    // pthread_mutex_lock and pthread_mutex_timedlock
    | LExchange(timed: bool)    // about to exchange lock_idx with 1 (80)
    | LCas(timed: bool)         // about to compare-exchange lock_idx (100)
    | LOwner(timed: bool)       // about to compare ownerThread with itself (110)
    | Mark(timed: bool)         // about to exchange lock_idx with -1 (84, 123)
    | Sleep(timed: bool)        // waits for the event (88, 127)
    // pthread_mutex_trylock
    | TCas                      // 72
    | TOwner                    // 86
    // what they have in common
    | SetCount                  // about to set recursive_count to 1 (105, 136)
    | SetOwner                  // about to set ownerThread (106, 137)
    | AddCount                  // about to increment recursive_count (114)
    // pthread_mutex_unlock
    | UOwner                    // about to compare ownerThread with itself (87)
    | SubCount                  // about to decrement recursive_count (90)
    | ClearOwner                // about to clear ownerThread.p (92)
    | UExchange                 // about to exchange lock_idx with 0 (69, 94)
    | Signal                    // about to set the event (78, 98)

  /** A thread: where it is, how many locks it has taken and not given back, and what its last call
      returned. */
  datatype Thread = Thread(p: Pc, depth: int, last: Result)

  /** The fields of pthread_mutex_t_, and the state of its event. */
  datatype Shared = Shared(kind: Kind, lockIdx: int, count: int, owner: Option<Tid>, event: bool)

  datatype State = State(sh: Shared, threads: map<Tid, Thread>)

  datatype Act = CallLock(timed: bool) | CallTryLock | CallUnlock | Go | TimeOut

  /** May a thread take this step now? Only a thread that holds a normal mutex may unlock it (see
      MutexLaws.StrayUnlock for one that does not); the other kinds check. */
  predicate CanMove(sh: Shared, th: Thread, a: Act) {
    match a
    case CallLock(_) => th.p.Idle?
    case CallTryLock => th.p.Idle?
    case CallUnlock => th.p.Idle? && (sh.kind.Normal? ==> th.depth > 0)
    case Go => !th.p.Idle? && (th.p.Sleep? ==> sh.event)
    case TimeOut => th.p.Sleep? && th.p.timed
  }

  function Return(th: Thread, r: Result): Thread { Thread(Idle, th.depth, r) }

  /** Where a thread goes once it has changed lock_idx from 0. */
  function Acquired(kind: Kind, th: Thread): Thread {
    if kind.Normal? then Thread(Idle, th.depth + 1, Ok) else th.(p := SetCount)
  }

  function Move(sh: Shared, t: Tid, th: Thread, a: Act): (Shared, Thread)
    requires CanMove(sh, th, a)
  {
    match a
    case CallLock(timed) => (sh, th.(p := if sh.kind.Normal? then LExchange(timed) else LCas(timed)))
    case CallTryLock => (sh, th.(p := TCas))
    case CallUnlock => (sh, th.(p := if sh.kind.Normal? then UExchange else UOwner))
    case TimeOut => (sh, Return(th, ETIMEDOUT))
    case Go => Step(sh, t, th)
  }

  function Step(sh: Shared, t: Tid, th: Thread): (Shared, Thread)
    requires CanMove(sh, th, Go)
  {
    match th.p
    case LExchange(timed) =>
      (sh.(lockIdx := 1), if sh.lockIdx == 0 then Acquired(sh.kind, th) else th.(p := Mark(timed)))
    case LCas(timed) =>
      if sh.lockIdx == 0 then (sh.(lockIdx := 1), Acquired(sh.kind, th)) else (sh, th.(p := LOwner(timed)))
    case LOwner(timed) =>
      (sh, if sh.owner != Some(t) then th.(p := Mark(timed))
           else if sh.kind.Recursive? then th.(p := AddCount) else Return(th, EDEADLK))
    case Mark(timed) =>
      (sh.(lockIdx := -1), if sh.lockIdx == 0 then Acquired(sh.kind, th) else th.(p := Sleep(timed)))
    case Sleep(timed) => (sh.(event := false), th.(p := Mark(timed)))
    case TCas =>
      if sh.lockIdx == 0 then (sh.(lockIdx := 1), Acquired(sh.kind, th))
      else (sh, if sh.kind.Recursive? then th.(p := TOwner) else Return(th, EBUSY))
    case TOwner => (sh, if sh.owner == Some(t) then th.(p := AddCount) else Return(th, EBUSY))
    case SetCount => (sh.(count := 1), th.(p := SetOwner))
    case SetOwner => (sh.(owner := Some(t)), Thread(Idle, th.depth + 1, Ok))
    case AddCount => (sh.(count := sh.count + 1), Thread(Idle, th.depth + 1, Ok))
    case UOwner =>
      (sh, if sh.owner != Some(t) then Return(th, EPERM)
           else if sh.kind.Recursive? then th.(p := SubCount)
           else Thread(ClearOwner, th.depth - 1, th.last))
    case SubCount =>
      (sh.(count := sh.count - 1),
       if sh.count - 1 == 0 then Thread(ClearOwner, th.depth - 1, th.last) else Thread(Idle, th.depth - 1, Ok))
    case ClearOwner => (sh.(owner := None), th.(p := UExchange))
    case UExchange =>
      var depth := if sh.kind.Normal? then th.depth - 1 else th.depth;
      (sh.(lockIdx := 0), Thread(if sh.lockIdx < 0 then Signal else Idle, depth, Ok))
    case Signal => (sh.(event := true), Return(th, Ok))
  }

  predicate Enabled(s: State, t: Tid, a: Act) { t in s.threads && CanMove(s.sh, s.threads[t], a) }

  function Apply(s: State, t: Tid, a: Act): State
    requires Enabled(s, t, a)
  {
    var (sh, th) := Move(s.sh, t, s.threads[t], a);
    State(sh, s.threads[t := th])
  }

  predicate Init(s: State) {
    && s.sh.lockIdx == 0 && s.sh.owner.None? && !s.sh.event
    && forall t :: t in s.threads ==> s.threads[t] == Thread(Idle, 0, Ok)
  }

  ghost predicate Next(s: State, s': State) {
    exists t, a :: Enabled(s, t, a) && s' == Apply(s, t, a)
  }

  ghost predicate Run(ss: seq<State>) {
    && |ss| > 0 && Init(ss[0])
    && forall i :: 0 <= i < |ss| - 1 ==> Next(ss[i], ss[i + 1])
  }

  // ----- the code, and what it does when nobody interferes --------------------------------------

  /** How far a thread is from the end of its call or from its next sleep. */
  function Distance(p: Pc): nat {
    match p
    case Idle => 0
    case Signal | SetOwner | AddCount => 1
    case UExchange | SetCount => 2
    case ClearOwner | Sleep(_) => 3
    case SubCount | Mark(_) => 4
    case UOwner | LOwner(_) | TOwner => 5
    case LCas(_) | LExchange(_) | TCas => 6
  }

  predicate Taking(p: Pc) {
    p.LExchange? || p.LCas? || p.LOwner? || p.Mark? || p.Sleep? || p.TCas? || p.TOwner? || p.SetCount? || p.SetOwner?
    || p.AddCount?
  }

  /** Thread t goes on alone until its call returns or it has to sleep. */
  function Alone(sh: Shared, t: Tid, th: Thread): (r: (Shared, Thread))
    ensures r.1.p.Idle? || (r.1.p.Sleep? && !r.0.event)
    decreases Taking(th.p), Taking(th.p) && sh.event, Distance(th.p)
  {
    if CanMove(sh, th, Go) then var (sh', th') := Step(sh, t, th); Alone(sh', t, th') else (sh, th)
  }

  lemma Finished(sh: Shared, t: Tid, th: Thread)
    requires th.p.Idle?
    ensures Alone(sh, t, th) == (sh, th)
  {
  }

  lemma FinishTaking(sh: Shared, t: Tid, th: Thread)
    requires th.p.SetCount?
    ensures Alone(sh, t, th) == (sh.(count := 1, owner := Some(t)), Thread(Idle, th.depth + 1, Ok))
  {
    var (sh', th') := Step(sh, t, th);
    var (sh'', th'') := Step(sh', t, th');
    assert Alone(sh', t, th') == Alone(sh'', t, th'');
  }

  lemma FinishAdding(sh: Shared, t: Tid, th: Thread)
    requires th.p.AddCount?
    ensures Alone(sh, t, th) == (sh.(count := sh.count + 1), Thread(Idle, th.depth + 1, Ok))
  {
  }

  lemma FinishExchange(sh: Shared, t: Tid, th: Thread)
    requires th.p.UExchange?
    ensures var (sh', th') := Alone(sh, t, th);
            sh' == sh.(lockIdx := 0, event := sh.event || sh.lockIdx < 0) && th'.p.Idle? && th'.last == Ok
  {
    var (sh', th') := Step(sh, t, th);
    assert Alone(sh, t, th) == Alone(sh', t, th');
    if th'.p.Signal? { var (sh'', th'') := Step(sh', t, th'); assert Alone(sh', t, th') == Alone(sh'', t, th''); }
  }

  lemma FinishGiving(sh: Shared, t: Tid, th: Thread)
    requires th.p.ClearOwner?
    ensures var (sh', th') := Alone(sh, t, th);
            && sh' == sh.(owner := None, lockIdx := 0, event := sh.event || sh.lockIdx < 0)
            && th'.p.Idle? && th'.last == Ok
  {
    var (sh', th') := Step(sh, t, th);
    assert Alone(sh, t, th) == Alone(sh', t, th');
    FinishExchange(sh', t, th');
  }

  class Mutex {
    const kind: Kind
    var lockIdx: int
    var recursiveCount: int
    var ownerThread: Option<Tid>
    var event: bool

    constructor (kind: Kind)
      ensures this.kind == kind && lockIdx == 0 && ownerThread == None && !event
    {
      this.kind := kind;
      lockIdx, recursiveCount, ownerThread, event := 0, 0, None, false;
    }

    function View(): Shared
      reads this
    {
      Shared(kind, lockIdx, recursiveCount, ownerThread, event)
    }

    /** The lock has been taken from its free state. */
    predicate TakenBy(self: Tid)
      reads this
    {
      lockIdx == 1 && (!kind.Normal? ==> recursiveCount == 1 && ownerThread == Some(self))
    }

    /** The owner has locked a recursive mutex once more, and is not allowed to lock another one. */
    twostate predicate Nested(result: Option<Result>)
      reads this
    {
      && lockIdx == old(lockIdx) && ownerThread == old(ownerThread) && event == old(event)
      && (if kind.Recursive? then result == Some(Ok) && recursiveCount == old(recursiveCount) + 1
          else result == Some(EDEADLK) && recursiveCount == old(recursiveCount))
    }

    twostate predicate MarkedOnly()
      reads this
    {
      ownerThread == old(ownerThread) && recursiveCount == old(recursiveCount)
    }

    /** pthread_mutex_lock.c:75-142 and, with timed, pthread_mutex_timedlock.c:137-198. The result
        None stands for a thread that sleeps. */
    method Lock(self: Tid, depth: int) returns (result: Option<Result>)
      modifies this
      ensures var start := Thread(if kind.Normal? then LExchange(false) else LCas(false), depth, Ok);
              var (sh, th) := Alone(old(View()), self, start);
              View() == sh && result == if th.p.Idle? then Some(th.last) else None
      // a free mutex is taken, its owner nests or is told, and everybody else marks it and sleeps
      ensures old(lockIdx) == 0 ==> result == Some(Ok) && TakenBy(self) && event == old(event)
      ensures old(lockIdx) != 0 ==>
                if !kind.Normal? && ownerThread == Some(self) then Nested(result)
                else result == None && MarkedOnly() && lockIdx == -1 && !event
    {
      ghost var start := Thread(if kind.Normal? then LExchange(false) else LCas(false), depth, Ok);
      ghost var (next, after) := Step(View(), self, start);
      if kind.Normal? {
        var was := lockIdx;
        lockIdx := 1;
        if was == 0 { return Some(Ok); }
      } else if lockIdx == 0 {
        FinishTaking(next, self, after);
        lockIdx := 1;
        recursiveCount := 1;
        ownerThread := Some(self);
        return Some(Ok);
      } else if ownerThread == Some(self) {
        if kind.Recursive? {
          FinishAdding(next, self, Step(next, self, after).1);
          recursiveCount := recursiveCount + 1;
          return Some(Ok);
        }
        Finished(next, self, Step(next, self, after).1);
        return Some(EDEADLK);
      }
      var asleep := MarkAndSleep(self, depth);
      return if asleep then None else Some(Ok);
    }

    /** The wait loop of pthread_mutex_lock.c:84-93 and 123-138. */
    method MarkAndSleep(self: Tid, depth: int) returns (asleep: bool)
      modifies this
      ensures var (sh, th) := Alone(old(View()), self, Thread(Mark(false), depth, Ok));
              View() == sh && (asleep <==> th.p.Sleep?) && th.last == Ok
      ensures old(lockIdx) != 0 ==> asleep && MarkedOnly() && lockIdx == -1 && !event
    {
      ghost var marking := Thread(Mark(false), depth, Ok);
      while true
        invariant Alone(old(View()), self, marking) == Alone(View(), self, marking)
        invariant old(lockIdx) != 0 ==> lockIdx != 0 && MarkedOnly()
        decreases event
      {
        ghost var (next, after) := Step(View(), self, marking);
        var was := lockIdx;
        lockIdx := -1;
        if was == 0 {
          if !kind.Normal? {
            FinishTaking(next, self, after);
            recursiveCount := 1;
            ownerThread := Some(self);
          }
          return false;
        }
        if !event { return true; }
        event := false;
        assert Alone(next, self, after) == Alone(View(), self, marking);
      }
    }

    /** pthread_mutex_trylock.c:69-95. */
    method TryLock(self: Tid, depth: int) returns (result: Result)
      modifies this
      ensures Alone(old(View()), self, Thread(TCas, depth, Ok)).0 == View()
      ensures Alone(old(View()), self, Thread(TCas, depth, Ok)).1.last == result
      ensures event == old(event)
      ensures if old(lockIdx) == 0 then result == Ok && TakenBy(self)
              else if kind.Recursive? && ownerThread == Some(self) then Nested(Some(result))
              else result == EBUSY && View() == old(View())
    {
      ghost var (next, after) := Step(View(), self, Thread(TCas, depth, Ok));
      result := Ok;
      if lockIdx == 0 {
        lockIdx := 1;
        if !kind.Normal? {
          FinishTaking(next, self, after);
          recursiveCount := 1;
          ownerThread := Some(self);
        }
      } else if kind.Recursive? && ownerThread == Some(self) {
        FinishAdding(next, self, Step(next, self, after).1);
        recursiveCount := recursiveCount + 1;
      } else {
        if kind.Recursive? { Finished(next, self, Step(next, self, after).1); }
        result := EBUSY;
      }
    }

    /** pthread_mutex_unlock.c:63-110. */
    method Unlock(self: Tid, depth: int) returns (result: Result)
      modifies this
      ensures var (sh, th) := Alone(old(View()), self, Thread(if kind.Normal? then UExchange else UOwner, depth, Ok));
              View() == sh && th.last == result
      // the last of its locks undone, the mutex is free, and whoever waits for it is woken
      ensures kind.Normal? || old(ownerThread) == Some(self) ==>
                && result == Ok
                && if kind.Recursive? && old(recursiveCount) != 1 then
                     View() == old(View()).(count := old(recursiveCount) - 1)
                   else
                     && lockIdx == 0 && event == (old(event) || old(lockIdx) < 0)
                     && (kind.Normal? || ownerThread == None)
      ensures !kind.Normal? && old(ownerThread) != Some(self) ==> result == EPERM && View() == old(View())
    {
      ghost var (next, after) := Step(View(), self, Thread(if kind.Normal? then UExchange else UOwner, depth, Ok));
      result := Ok;
      if kind.Normal? {
        FinishExchange(View(), self, Thread(UExchange, depth, Ok));
        var idx := lockIdx;
        lockIdx := 0;
        if idx < 0 { event := true; }
      } else if ownerThread == Some(self) {
        if kind.Recursive? {
          recursiveCount := recursiveCount - 1;
          assert Alone(next, self, after) == Alone(View(), self, Step(next, self, after).1);
        }
        if !kind.Recursive? || recursiveCount == 0 {
          FinishGiving(View(), self, Thread(ClearOwner, depth - 1, Ok));
          ownerThread := None;
          var idx := lockIdx;
          lockIdx := 0;
          if idx < 0 { event := true; }
        }
      } else {
        result := EPERM;
      }
    }
  }

  // ----- invariant -----------------------------------------------------------------------------

  /** In possession of the lock: the caller has it, or a call is about to hand it to the caller or
      about to give it up. */
  predicate Holds(th: Thread) {
    th.depth > 0 || th.p.SetCount? || th.p.SetOwner? || th.p.ClearOwner? || th.p.UExchange?
  }

  function HolderW(th: Thread): nat { if Holds(th) then 1 else 0 }
  function SleeperW(th: Thread): nat { if th.p.Sleep? then 1 else 0 }

  /** About to write -1, or to set the event. */
  function WakerW(th: Thread): nat { if th.p.Mark? || th.p.Signal? then 1 else 0 }

  ghost function Holders(s: State): nat { Tally.Total(s.threads, HolderW) }
  ghost function Sleepers(s: State): nat { Tally.Total(s.threads, SleeperW) }
  ghost function Wakers(s: State): nat { Tally.Total(s.threads, WakerW) }

  /** Nobody records the owner of a normal mutex. */
  predicate NormalOk(th: Thread) {
    && 0 <= th.depth <= 1
    && (th.p.Idle? || th.p.LExchange? || th.p.Mark? || th.p.Sleep? || th.p.TCas? || th.p.UExchange? || th.p.Signal?)
    && (th.p.UExchange? ==> th.depth == 1)
  }

  /** For the other kinds, ownerThread and recursive_count tell the truth about t. */
  predicate OwnedOk(sh: Shared, t: Tid, th: Thread) {
    && th.depth >= 0 && !th.p.LExchange?
    && (sh.owner == Some(t) <==> th.depth > 0 || th.p.ClearOwner?)
    && (th.depth > 0 ==> sh.count == th.depth && !th.p.Mark? && !th.p.Sleep? && !th.p.SetCount? && !th.p.SetOwner?
                         && !th.p.ClearOwner? && !th.p.UExchange? && !th.p.Signal?)
    && (th.p.SetOwner? ==> sh.count == 1)
    && (th.p.AddCount? || th.p.SubCount? ==> th.depth > 0 && sh.kind.Recursive?)
    && (th.p.TOwner? ==> sh.kind.Recursive?)
    && (sh.kind.ErrorCheck? ==> th.depth <= 1)
  }

  predicate ThreadOk(sh: Shared, t: Tid, th: Thread) {
    if sh.kind.Normal? then NormalOk(th) else OwnedOk(sh, t, th)
  }

  predicate Laws(sh: Shared, holders: int, sleepers: int, wakers: int) {
    && (sh.lockIdx == 0 || sh.lockIdx == 1 || sh.lockIdx == -1)
    && holders == (if sh.lockIdx == 0 then 0 else 1)
    && (sleepers > 0 ==> sh.event || sh.lockIdx == -1 || wakers > 0)
  }

  ghost predicate Invariant(s: State) {
    && (forall t :: t in s.threads ==> ThreadOk(s.sh, t, s.threads[t]))
    && Laws(s.sh, Holders(s), Sleepers(s), Wakers(s))
  }

  // ----- every step keeps the invariant --------------------------------------------------------

  lemma MoveKeepsThreadOk(sh: Shared, t: Tid, th: Thread, a: Act)
    requires CanMove(sh, th, a) && ThreadOk(sh, t, th) && (sh.lockIdx == 0 ==> !Holds(th))
    ensures var (sh', th') := Move(sh, t, th, a); ThreadOk(sh', t, th') && sh'.kind == sh.kind
  {
  }

  /** Only the thread in possession writes the owner and the count. */
  lemma OnlyHolderWrites(sh: Shared, t: Tid, th: Thread, a: Act)
    requires CanMove(sh, th, a) && ThreadOk(sh, t, th)
    ensures var sh' := Move(sh, t, th, a).0;
            (sh'.owner == sh.owner && sh'.count == sh.count)
            || (Holds(th) && (sh'.owner == sh.owner || sh'.owner == Some(t) || sh'.owner == None))
  {
  }

  lemma OthersStayOk(sh: Shared, sh': Shared, t: Tid, u: Tid, th: Thread)
    requires t != u && ThreadOk(sh, u, th) && sh'.kind == sh.kind
    requires (sh'.owner == sh.owner && sh'.count == sh.count)
             || (!Holds(th) && (sh'.owner == sh.owner || sh'.owner == Some(t) || sh'.owner == None))
    ensures ThreadOk(sh', u, th)
  {
  }

  lemma MoveKeepsLaws(sh: Shared, t: Tid, th: Thread, a: Act, holders: int, sleepers: int, wakers: int)
    requires CanMove(sh, th, a) && ThreadOk(sh, t, th) && Laws(sh, holders, sleepers, wakers)
    requires HolderW(th) <= holders && SleeperW(th) <= sleepers && WakerW(th) <= wakers
    ensures var (sh', th') := Move(sh, t, th, a);
            Laws(sh', holders - HolderW(th) + HolderW(th'), sleepers - SleeperW(th) + SleeperW(th'),
                 wakers - WakerW(th) + WakerW(th'))
  {
  }

  lemma HolderUnique(s: State, t: Tid, u: Tid)
    requires Invariant(s) && t in s.threads && u in s.threads && t != u && Holds(s.threads[t])
    ensures !Holds(s.threads[u])
  {
    Tally.AtLeastTwo(s.threads, HolderW, t, u);
  }

  lemma StepKeepsInvariant(s: State, t: Tid, a: Act)
    requires Invariant(s) && Enabled(s, t, a)
    ensures Invariant(Apply(s, t, a))
  {
    var th, s' := s.threads[t], Apply(s, t, a);
    assert ThreadOk(s.sh, t, th);
    Tally.AtLeast(s.threads, HolderW, t);
    MoveKeepsThreadOk(s.sh, t, th, a);
    OnlyHolderWrites(s.sh, t, th, a);
    forall u | u in s'.threads ensures ThreadOk(s'.sh, u, s'.threads[u]) {
      if u != t {
        if Holds(th) { HolderUnique(s, t, u); }
        OthersStayOk(s.sh, s'.sh, t, u, s.threads[u]);
      }
    }
    Tally.Update(s.threads, HolderW, t, s'.threads[t]);
    Tally.Update(s.threads, SleeperW, t, s'.threads[t]);
    Tally.Update(s.threads, WakerW, t, s'.threads[t]);
    Tally.AtLeast(s.threads, SleeperW, t);
    Tally.AtLeast(s.threads, WakerW, t);
    MoveKeepsLaws(s.sh, t, th, a, Holders(s), Sleepers(s), Wakers(s));
  }

  lemma {:induction false} RunKeepsInvariant(ss: seq<State>)
    requires Run(ss)
    ensures Invariant(ss[|ss| - 1])
  {
    if |ss| == 1 {
      Tally.Nobody(ss[0].threads, HolderW);
      Tally.Nobody(ss[0].threads, SleeperW);
    } else {
      var k := |ss| - 1;
      assert Next(ss[k - 1], ss[k - 1 + 1]);
      RunKeepsInvariant(ss[..k]);
      var t, a :| Enabled(ss[k - 1], t, a) && ss[k] == Apply(ss[k - 1], t, a);
      StepKeepsInvariant(ss[k - 1], t, a);
    }
  }
}
