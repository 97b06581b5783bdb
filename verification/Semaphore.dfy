/** POSIX semaphores on top of an operating-system semaphore: sem_post.c, sem_post_multiple.c,
    sem_timedwait.c, sem_trywait.c and ptw32_semwait.c.

    The field value counts free units and, below zero, threads that wait; a unit for a thread that
    waits is a token of the OS semaphore. The code under the semaphore's lock is class Sem; the
    machine around it has any number of threads, and a wait may time out or be cancelled at any
    moment. */
module Semaphore {
  import opened Common
  import Tally

  type Tid = nat

  const SEM_VALUE_MAX := 0x7fff_ffff

  datatype Result = Ok | ETIMEDOUT | EAGAIN | ERANGE | EINVAL

  // ----- the sections under the lock -----------------------------------------------------------

  /** How many tokens a post of count units has to release. */
  function TokensFor(value: int, count: int): int {
    if value >= 0 then 0 else if -value <= count then -value else count
  }

  /** The field after a post, if the OS semaphore takes the tokens. */
  function Posted(value: int, count: int): (int, Result) {
    if value <= SEM_VALUE_MAX - count then (value + count, Ok) else (value, ERANGE)
  }

  class Sem {
    var value: int

    constructor (initial: nat)
      requires initial <= SEM_VALUE_MAX
      ensures value == initial
    {
      value := initial;
    }

    /** sem_timedwait.c:175 and ptw32_semwait.c:91. */
    method WaitSection() returns (mustWait: bool)
      modifies this
      ensures value == old(value) - 1
      ensures mustWait <==> old(value) <= 0
    {
      value := value - 1;
      mustWait := value < 0;
    }

    /** sem_trywait.c:97-104. */
    method TryWaitSection() returns (result: Result)
      modifies this
      ensures if old(value) > 0 then value == old(value) - 1 && result == Ok
              else value == old(value) && result == EAGAIN
    {
      result := Ok;
      if value > 0 {
        value := value - 1;
      } else {
        result := EAGAIN;
      }
    }

    /** sem_post.c:94-115; `accepts` is what ReleaseSemaphore answers. */
    method PostSection(accepts: bool) returns (released: int, result: Result)
      modifies this
      ensures released == if accepts && Posted(old(value), 1).1.Ok? then TokensFor(old(value), 1) else 0
      ensures (value, result) == if TokensFor(old(value), 1) > 0 && !accepts then (old(value), EINVAL)
                                 else Posted(old(value), 1)
    {
      result, released := Ok, 0;
      if value < SEM_VALUE_MAX {
        value := value + 1;
        if value <= 0 {
          if accepts {
            released := 1;
          } else {
            value := value - 1;
            result := EINVAL;
          }
        }
      } else {
        result := ERANGE;
      }
    }

    /** sem_post_multiple.c:98-130. */
    method PostMultipleSection(count: int, accepts: bool) returns (released: int, result: Result)
      requires count > 0
      modifies this
      ensures released == if accepts && Posted(old(value), count).1.Ok? then TokensFor(old(value), count) else 0
      ensures (value, result) == if TokensFor(old(value), count) > 0 && !accepts && Posted(old(value), count).1.Ok?
                                 then (old(value), EINVAL) else Posted(old(value), count)
    {
      result, released := Ok, 0;
      if value <= SEM_VALUE_MAX - count {
        var waiters := -value;
        value := value + count;
        if waiters > 0 {
          if accepts {
            released := if waiters <= count then waiters else count;
          } else {
            value := value - count;
            result := EINVAL;
          }
        }
      } else {
        result := ERANGE;
      }
    }

    /** sem_timedwait.c:71-91; `token` is what the second, immediate wait finds. */
    method CleanupSection(token: bool) returns (result: Result)
      modifies this
      ensures if token then value == old(value) && result == Ok else value == old(value) + 1 && result == ETIMEDOUT
    {
      if token {
        result := Ok;
      } else {
        value := value + 1;
        result := ETIMEDOUT;
      }
    }
  }

  // ----- the machine ---------------------------------------------------------------------------

  datatype Op = Wait | TryWait | Post(count: int) | CleanUp

  /** `timed` says that the waiter is in sem_timedwait, which may give up. */
  datatype Pc =
    | Idle
    | WantLock(op: Op, timed: bool)     // about to lock s->lock
    | In(op: Op, timed: bool)           // holds it, about to look at the field
    | Releasing(count: int, n: int)     // holds it, about to call ReleaseSemaphore
    | Out(waits: bool, timed: bool)     // holds it, about to unlock
    | Asleep(timed: bool)               // in WaitForSingleObject

  /** value and tokens are the semaphore, mtx the owner of its lock. The rest is history: the
      initial value, how many waits have succeeded and how many units have been posted. */
  datatype Shared = Shared(value: int, tokens: int, mtx: Option<Tid>, initial: int, taken: int, posted: int)

  datatype State = State(sh: Shared, pc: map<Tid, Pc>)

  datatype Act =
    | CallWait(timed: bool) | CallTryWait | CallPost(n: int)
    | Lock | DoWait | DoTryWait | DoPost | Release | DoCleanUp | Unlock | TakeToken | GiveUp

  /** May a thread at p take this step now? Waiting for the lock or for a token is being disabled. */
  predicate CanMove(sh: Shared, p: Pc, a: Act) {
    match a
    case CallWait(_) => p.Idle?
    case CallTryWait => p.Idle?
    case CallPost(_) => p.Idle?
    case Lock => p.WantLock? && sh.mtx.None?
    case DoWait => p.In? && p.op.Wait?
    case DoTryWait => p.In? && p.op.TryWait?
    case DoPost => p.In? && p.op.Post?
    case DoCleanUp => p.In? && p.op.CleanUp?
    case Release => p.Releasing?
    case Unlock => p.Out?
    case TakeToken => p.Asleep? && sh.tokens > 0
    case GiveUp => p.Asleep? && p.timed
  }

  /** What the step of thread t at p does to the shared variables, and where t goes. */
  function Move(sh: Shared, t: Tid, p: Pc, a: Act): (Shared, Pc)
    requires CanMove(sh, p, a)
  {
    match a
    case CallWait(timed) => (sh, WantLock(Wait, timed))
    case CallTryWait => (sh, WantLock(TryWait, false))
    case CallPost(n) => (sh, if n <= 0 then Idle else WantLock(Post(n), false))
    case Lock => (sh.(mtx := Some(t)), In(p.op, p.timed))
    case DoWait =>
      if sh.value - 1 < 0 then (sh.(value := sh.value - 1), Out(true, p.timed))
      else (sh.(value := sh.value - 1, taken := sh.taken + 1), Out(false, false))
    case DoTryWait =>
      if sh.value > 0 then (sh.(value := sh.value - 1, taken := sh.taken + 1), Out(false, false))
      else (sh, Out(false, false))
    case DoPost =>
      var n := TokensFor(sh.value, p.op.count);
      if Posted(sh.value, p.op.count).1.Ok? then
        (sh.(value := Posted(sh.value, p.op.count).0, posted := sh.posted + p.op.count),
         if n > 0 then Releasing(p.op.count, n) else Out(false, false))
      else (sh, Out(false, false))
    case Release =>
      if sh.tokens + p.n <= SEM_VALUE_MAX then (sh.(tokens := sh.tokens + p.n), Out(false, false))
      else (sh.(value := sh.value - p.count, posted := sh.posted - p.count), Out(false, false))
    case DoCleanUp =>
      if sh.tokens > 0 then (sh.(tokens := sh.tokens - 1, taken := sh.taken + 1), Out(false, false))
      else (sh.(value := sh.value + 1), Out(false, false))
    case Unlock => (sh.(mtx := None), if p.waits then Asleep(p.timed) else Idle)
    case TakeToken => (sh.(tokens := sh.tokens - 1, taken := sh.taken + 1), Idle)
    case GiveUp => (sh, WantLock(CleanUp, false))
  }

  predicate Enabled(s: State, t: Tid, a: Act) { t in s.pc && CanMove(s.sh, s.pc[t], a) }

  function Apply(s: State, t: Tid, a: Act): State
    requires Enabled(s, t, a)
  {
    var (sh, p) := Move(s.sh, t, s.pc[t], a);
    State(sh, s.pc[t := p])
  }

  predicate Init(s: State) {
    && 0 <= s.sh.initial <= SEM_VALUE_MAX && s.sh.value == s.sh.initial
    && s.sh.tokens == 0 && s.sh.mtx.None? && s.sh.taken == 0 && s.sh.posted == 0
    && forall t :: t in s.pc ==> s.pc[t] == Idle
  }

  ghost predicate Next(s: State, s': State) {
    exists t, a :: Enabled(s, t, a) && s' == Apply(s, t, a)
  }

  ghost predicate Run(ss: seq<State>) {
    && |ss| > 0 && Init(ss[0])
    && forall i :: 0 <= i < |ss| - 1 ==> Next(ss[i], ss[i + 1])
  }

  // ----- invariant -----------------------------------------------------------------------------

  function Pos(x: int): int { if x > 0 then x else 0 }

  predicate HoldsMtx(p: Pc) { p.In? || p.Releasing? || p.Out? }

  /** Threads that have counted themselves as waiting and have no unit yet. */
  function WaitsW(p: Pc): nat {
    match p
    case WantLock(op, _) => if op.CleanUp? then 1 else 0
    case In(op, _) => if op.CleanUp? then 1 else 0
    case Out(waits, _) => if waits then 1 else 0
    case Asleep(_) => 1
    case _ => 0
  }

  /** Tokens on their way to the OS semaphore. */
  function ComingW(p: Pc): nat { if p.Releasing? && p.n > 0 then p.n else 0 }

  ghost function Waiters(s: State): nat { Tally.Total(s.pc, WaitsW) }
  ghost function Coming(s: State): nat { Tally.Total(s.pc, ComingW) }

  /** Units that have been posted and not yet been taken. */
  ghost function Available(s: State): int { Pos(s.sh.value) + s.sh.tokens + Coming(s) }

  /** What holds of one thread. */
  predicate ThreadOk(sh: Shared, t: Tid, p: Pc) {
    && (HoldsMtx(p) <==> sh.mtx == Some(t))
    && (p.Releasing? ==> p.count > 0 && sh.value < p.count && p.n > 0 && p.n == TokensFor(sh.value - p.count, p.count))
    && ((p.WantLock? || p.In?) && p.op.Post? ==> p.op.count > 0)
  }

  predicate Laws(sh: Shared, waiters: int, coming: int) {
    && sh.taken + Pos(sh.value) + sh.tokens + coming == sh.initial + sh.posted
    && waiters == sh.tokens + coming + Pos(-sh.value)
    && sh.tokens >= 0 && sh.value <= SEM_VALUE_MAX
  }

  ghost predicate Invariant(s: State) {
    && (forall t :: t in s.pc ==> ThreadOk(s.sh, t, s.pc[t]))
    && (s.sh.mtx.Some? ==> s.sh.mtx.value in s.pc)
    && Laws(s.sh, Waiters(s), Coming(s))
  }

  // ----- every step keeps the invariant --------------------------------------------------------

  lemma MoveKeepsThreadOk(sh: Shared, t: Tid, p: Pc, a: Act)
    requires CanMove(sh, p, a) && ThreadOk(sh, t, p)
    ensures var (sh', p') := Move(sh, t, p, a);
            && ThreadOk(sh', t, p') && OnlyOwn(sh.mtx, sh'.mtx, t)
            && (sh'.value == sh.value || sh.mtx == Some(t))
  {
  }

  lemma OthersStayOk(sh: Shared, sh': Shared, t: Tid, u: Tid, p: Pc)
    requires t != u && ThreadOk(sh, u, p) && OnlyOwn(sh.mtx, sh'.mtx, t)
    requires sh'.value == sh.value || sh.mtx == Some(t)
    ensures ThreadOk(sh', u, p)
  {
  }

  lemma WaitingKeepsLaws(sh: Shared, t: Tid, p: Pc, a: Act, waiters: int, coming: int)
    requires CanMove(sh, p, a) && ThreadOk(sh, t, p) && Laws(sh, waiters, coming)
    requires coming >= 0 && WaitsW(p) <= waiters && (a.DoCleanUp? ==> coming == 0)
    requires !a.DoPost? && !a.Release?
    ensures var (sh', p') := Move(sh, t, p, a); Laws(sh', waiters - WaitsW(p) + WaitsW(p'), coming)
    ensures ComingW(Move(sh, t, p, a).1) == ComingW(p)
  {
  }

  lemma PostKeepsLaws(sh: Shared, t: Tid, p: Pc, waiters: int, coming: int)
    requires CanMove(sh, p, DoPost) && ThreadOk(sh, t, p) && Laws(sh, waiters, coming)
    ensures var (sh', p') := Move(sh, t, p, DoPost);
            Laws(sh', waiters - WaitsW(p) + WaitsW(p'), coming - ComingW(p) + ComingW(p'))
  {
  }

  lemma ReleaseKeepsLaws(sh: Shared, t: Tid, p: Pc, waiters: int, coming: int)
    requires CanMove(sh, p, Release) && ThreadOk(sh, t, p) && Laws(sh, waiters, coming) && coming == p.n
    ensures var (sh', p') := Move(sh, t, p, Release);
            Laws(sh', waiters - WaitsW(p) + WaitsW(p'), coming - ComingW(p) + ComingW(p'))
  {
  }

  /** Only the owner of the lock can have tokens on their way. */
  lemma ComingFromOwner(s: State, t: Tid)
    requires Invariant(s) && t in s.pc && s.sh.mtx == Some(t)
    ensures Coming(s) == ComingW(s.pc[t])
  {
    Tally.Split(s.pc, ComingW, t);
    forall u | u in s.pc - {t} ensures ComingW((s.pc - {t})[u]) == 0 {
      assert ThreadOk(s.sh, u, s.pc[u]);
    }
    Tally.Nobody(s.pc - {t}, ComingW);
  }

  lemma StepKeepsInvariant(s: State, t: Tid, a: Act)
    requires Invariant(s) && Enabled(s, t, a)
    ensures Invariant(Apply(s, t, a))
  {
    var p, s' := s.pc[t], Apply(s, t, a);
    assert ThreadOk(s.sh, t, p);
    MoveKeepsThreadOk(s.sh, t, p, a);
    forall u | u in s'.pc ensures ThreadOk(s'.sh, u, s'.pc[u]) {
      if u != t { OthersStayOk(s.sh, s'.sh, t, u, s.pc[u]); }
    }
    Tally.Update(s.pc, WaitsW, t, s'.pc[t]);
    Tally.Update(s.pc, ComingW, t, s'.pc[t]);
    Tally.AtLeast(s.pc, WaitsW, t);
    if HoldsMtx(p) { ComingFromOwner(s, t); }
    if a.DoPost? { PostKeepsLaws(s.sh, t, p, Waiters(s), Coming(s)); }
    else if a.Release? { ReleaseKeepsLaws(s.sh, t, p, Waiters(s), Coming(s)); }
    else { WaitingKeepsLaws(s.sh, t, p, a, Waiters(s), Coming(s)); }
  }

  lemma {:induction false} RunKeepsInvariant(ss: seq<State>)
    requires Run(ss)
    ensures Invariant(ss[|ss| - 1])
  {
    if |ss| == 1 {
      Tally.Nobody(ss[0].pc, WaitsW);
      Tally.Nobody(ss[0].pc, ComingW);
    } else {
      var k := |ss| - 1;
      assert Next(ss[k - 1], ss[k - 1 + 1]);
      RunKeepsInvariant(ss[..k]);
      var t, a :| Enabled(ss[k - 1], t, a) && ss[k] == Apply(ss[k - 1], t, a);
      StepKeepsInvariant(ss[k - 1], t, a);
    }
  }
}
