/** Barriers: pthread_barrier_wait.c and pthread_barrier_init.c.

    The lock is a queue lock whose ownership can be moved to a node of the barrier itself (see
    module McsLock), the place to wait is a counting semaphore (see module Semaphore). The height
    falls under the lock and rises without it; the last thread in moves the lock to the proxy node,
    the last thread out releases it. Any number of threads may use the barrier any number of times. */
module Barrier {
  import Tally

  type Tid = nat

  // ----- the fields ----------------------------------------------------------------------------

  datatype Result = Ok | EINVAL | ENOMEM

  /** A thread comes in: the height falls, and is it the last one? */
  function Lowered(height: int): (int, bool) { (height - 1, height - 1 == 0) }

  /** A thread goes out: the height rises, and is it the last one? */
  function Raised(height: int, n: int): (int, bool) { (height + 1, height + 1 == n) }

  class BarrierHeight {
    const nInitialBarrierHeight: nat
    var nCurrentBarrierHeight: int

    constructor (count: nat)
      ensures nInitialBarrierHeight == nCurrentBarrierHeight == count
    {
      nInitialBarrierHeight, nCurrentBarrierHeight := count, count;
    }

    /** pthread_barrier_init.c:47-69; `memory` and `semaphore` are whether calloc and sem_init succeed. */
    static method Create(count: nat, memory: bool, semaphore: bool) returns (result: Result, b: BarrierHeight?)
      ensures result == if count == 0 then EINVAL else if memory && semaphore then Ok else ENOMEM
      ensures if result.Ok? then b != null && fresh(b) && b.nInitialBarrierHeight == b.nCurrentBarrierHeight == count
              else b == null
    {
      if count == 0 { return EINVAL, null; }
      if memory {
        b := new BarrierHeight(count);
        if semaphore { return Ok, b; }
      }
      return ENOMEM, null;
    }

    /** pthread_barrier_wait.c:57, under the lock. */
    method Arrive() returns (last: bool)
      modifies this
      ensures (nCurrentBarrierHeight, last) == Lowered(old(nCurrentBarrierHeight))
    {
      nCurrentBarrierHeight := nCurrentBarrierHeight - 1;
      last := nCurrentBarrierHeight == 0;
    }

    /** pthread_barrier_wait.c:90, one interlocked instruction. */
    method Cross() returns (last: bool)
      modifies this
      ensures (nCurrentBarrierHeight, last) == Raised(old(nCurrentBarrierHeight), nInitialBarrierHeight)
    {
      nCurrentBarrierHeight := nCurrentBarrierHeight + 1;
      last := nCurrentBarrierHeight == nInitialBarrierHeight;
    }
  }

  // ----- the machine ---------------------------------------------------------------------------

  datatype Pc =
    | Outside                  // not in a call, or about to acquire the lock (54)
    | Arriving                 // has the lock, about to decrement the height (57)
    | Moving                   // the last one in, about to transfer the lock (64)
    | Posting                  // about to post the semaphore n - 1 times (72)
    | Leaving                  // not the last one in, about to release the lock (77)
    | Waiting                  // in ptw32_semwait (87)
    | Crossing                 // about to increment the height (90)
    | Closing                  // the last one out, about to release the proxy node (96)

  /** Who holds the queue lock. */
  datatype Lock = Free | By(t: Tid) | Proxy

  /** A round that is over: who came in, who went out, and who was told PTHREAD_BARRIER_SERIAL_THREAD. */
  datatype Round = Round(came: set<Tid>, left: set<Tid>, serial: set<Tid>)

  /** n, height, sem and lock are the barrier. The rest is history: who has come into and gone out
      of the round that is on, and the rounds that are over. */
  datatype Shared = Shared(
    n: nat, height: int, sem: int, lock: Lock, came: set<Tid>, left: set<Tid>, rounds: seq<Round>)

  datatype State = State(sh: Shared, pc: map<Tid, Pc>)

  /** May a thread at p take its next step? Waiting for the lock or the semaphore is being disabled. */
  predicate CanMove(sh: Shared, p: Pc) {
    match p
    case Outside => sh.lock.Free?
    case Waiting => sh.sem > 0
    case _ => true
  }

  function Move(sh: Shared, t: Tid, p: Pc): (Shared, Pc)
    requires CanMove(sh, p)
  {
    match p
    case Outside => (sh.(lock := By(t)), Arriving)
    case Arriving =>
      var (height, last) := Lowered(sh.height);
      (sh.(height := height, came := sh.came + {t}), if last then Moving else Leaving)
    case Moving => (sh.(lock := Proxy), if sh.n > 1 then Posting else Crossing)
    case Posting => (sh.(sem := sh.sem + sh.n - 1), Crossing)
    case Leaving => (sh.(lock := Free), Waiting)
    case Waiting => (sh.(sem := sh.sem - 1), Crossing)
    case Crossing =>
      var (height, last) := Raised(sh.height, sh.n);
      (sh.(height := height, left := sh.left + {t}), if last then Closing else Outside)
    case Closing =>
      (sh.(lock := Free, came := {}, left := {}, rounds := sh.rounds + [Round(sh.came, sh.left, {t})]), Outside)
  }

  predicate Enabled(s: State, t: Tid) { t in s.pc && CanMove(s.sh, s.pc[t]) }

  function Apply(s: State, t: Tid): State
    requires Enabled(s, t)
  {
    var (sh, p) := Move(s.sh, t, s.pc[t]);
    State(sh, s.pc[t := p])
  }

  predicate Init(s: State) {
    && s.sh.n > 0 && s.sh.height == s.sh.n && s.sh.sem == 0 && s.sh.lock == Free
    && s.sh.came == {} && s.sh.left == {} && s.sh.rounds == []
    && forall t :: t in s.pc ==> s.pc[t] == Outside
  }

  ghost predicate Next(s: State, s': State) {
    exists t :: Enabled(s, t) && s' == Apply(s, t)
  }

  ghost predicate Run(ss: seq<State>) {
    && |ss| > 0 && Init(ss[0])
    && forall i :: 0 <= i < |ss| - 1 ==> Next(ss[i], ss[i + 1])
  }

  // ----- invariant -----------------------------------------------------------------------------

  predicate HasLock(p: Pc) { p.Arriving? || p.Moving? || p.Leaving? }

  /** Has come into the round and not gone out yet. */
  predicate Inside(p: Pc) { p.Moving? || p.Posting? || p.Leaving? || p.Waiting? || p.Crossing? }

  function WaitsW(p: Pc): nat { if p.Leaving? || p.Waiting? then 1 else 0 }
  function CrossesW(p: Pc): nat { if p.Crossing? then 1 else 0 }
  function OpensW(p: Pc): nat { if p.Posting? then 1 else 0 }
  function MovesW(p: Pc): nat { if p.Moving? then 1 else 0 }
  function ClosesW(p: Pc): nat { if p.Closing? then 1 else 0 }

  /** Who is where, and how many that makes. */
  datatype Census = Census(pc: map<Tid, Pc>, waits: int, crosses: int, opens: int, moves: int, closes: int)

  ghost function Count(s: State): Census {
    Census(s.pc, Tally.Total(s.pc, WaitsW), Tally.Total(s.pc, CrossesW), Tally.Total(s.pc, OpensW),
           Tally.Total(s.pc, MovesW), Tally.Total(s.pc, ClosesW))
  }

  function Moved(c: Census, t: Tid, p: Pc, p': Pc): Census {
    Census(c.pc[t := p'], c.waits - WaitsW(p) + WaitsW(p'), c.crosses - CrossesW(p) + CrossesW(p'),
           c.opens - OpensW(p) + OpensW(p'), c.moves - MovesW(p) + MovesW(p'), c.closes - ClosesW(p) + ClosesW(p'))
  }

  predicate Covers(c: Census, p: Pc) {
    && 0 <= WaitsW(p) <= c.waits && 0 <= CrossesW(p) <= c.crosses && 0 <= OpensW(p) <= c.opens
    && 0 <= MovesW(p) <= c.moves && 0 <= ClosesW(p) <= c.closes
  }

  /** While the barrier fills up, the height counts the missing threads and the semaphore is empty;
      the thread that brings it to zero moves the lock. */
  predicate Filling(sh: Shared, c: Census) {
    && sh.sem == 0 && c.crosses == 0 && c.opens == 0 && c.closes == 0
    && sh.height + c.waits + c.moves == sh.n
    && (if sh.height > 0 then c.moves == 0 else sh.height == 0 && c.moves == 1)
    && |sh.came| == sh.n - sh.height && sh.left == {}
  }

  /** While it empties, the height counts the threads that have crossed, and once the semaphore has
      been posted it holds a unit for everybody still waiting. */
  predicate Draining(sh: Shared, c: Census) {
    && c.moves == 0 && sh.height + c.waits + c.crosses + c.opens == sh.n
    && (if c.opens > 0 then c.opens == 1 && sh.sem == 0 && sh.height == 0 && c.crosses == 0 else sh.sem == c.waits)
    && c.closes == (if sh.height == sh.n then 1 else 0)
    && |sh.came| == sh.n && |sh.left| == sh.height
  }

  predicate Laws(sh: Shared, c: Census) {
    if sh.lock.Proxy? then Draining(sh, c) else Filling(sh, c)
  }

  predicate ThreadOk(sh: Shared, t: Tid, p: Pc) {
    && (HasLock(p) <==> sh.lock == By(t))
    && (Inside(p) <==> t in sh.came && t !in sh.left)
    && (p.Closing? ==> t in sh.left)
  }

  /** A round is complete when the same n threads went in and out and one of them was the last. */
  predicate Complete(r: Round, n: nat) {
    |r.came| == n && r.left == r.came && |r.serial| == 1 && r.serial <= r.came
  }

  ghost predicate Invariant(s: State) {
    && s.sh.n > 0
    && (forall t :: t in s.pc ==> ThreadOk(s.sh, t, s.pc[t]))
    && (s.sh.lock.By? ==> s.sh.lock.t in s.pc)
    && Laws(s.sh, Count(s)) && s.sh.left <= s.sh.came
    && (forall i :: 0 <= i < |s.sh.rounds| ==> Complete(s.sh.rounds[i], s.sh.n))
  }

  // ----- every step keeps the invariant --------------------------------------------------------

  lemma FillingStep(sh: Shared, t: Tid, p: Pc, c: Census)
    requires CanMove(sh, p) && ThreadOk(sh, t, p) && Covers(c, p) && sh.n > 0 && sh.left <= sh.came
    requires !sh.lock.Proxy? && Filling(sh, c) && (c.moves > 0 && sh.lock == By(t) ==> p.Moving?)
    ensures var (sh', p') := Move(sh, t, p); Laws(sh', Moved(c, t, p, p'))
  {
  }

  lemma DrainingStep(sh: Shared, t: Tid, p: Pc, c: Census)
    requires CanMove(sh, p) && ThreadOk(sh, t, p) && Covers(c, p) && sh.n > 0 && sh.left <= sh.came
    requires sh.lock.Proxy? && Draining(sh, c)
    ensures var (sh', p') := Move(sh, t, p); Laws(sh', Moved(c, t, p, p'))
  {
  }

  lemma SameSize(part: set<Tid>, whole: set<Tid>)
    requires part <= whole && |part| == |whole|
    ensures part == whole
  {
    assert whole == part + (whole - part);
    assert |whole - part| == 0;
  }

  /** Everything the whole round depends on is over when the last thread goes out. */
  lemma ClosingStep(sh: Shared, t: Tid, p: Pc, c: Census)
    requires ThreadOk(sh, t, p) && Covers(c, p) && p.Closing? && Laws(sh, c) && sh.left <= sh.came
    ensures Complete(Round(sh.came, sh.left, {t}), sh.n)
    ensures sh.lock.Proxy? && c.waits == 0 && c.crosses == 0 && c.opens == 0 && c.moves == 0 && c.closes == 1
  {
    SameSize(sh.left, sh.came);
  }

  lemma MoverStaysOk(sh: Shared, t: Tid, p: Pc)
    requires CanMove(sh, p) && ThreadOk(sh, t, p) && (p.Arriving? ==> sh.left == {})
    requires p.Crossing? || p.Closing? || p.Posting? ==> sh.lock.Proxy?
    ensures var (sh', p') := Move(sh, t, p); ThreadOk(sh', t, p')
  {
  }

  lemma OthersStayOk(sh: Shared, t: Tid, p: Pc, u: Tid, q: Pc)
    requires CanMove(sh, p) && ThreadOk(sh, t, p) && ThreadOk(sh, u, q) && t != u
    requires p.Closing? ==> !Inside(q) && !q.Closing? && sh.lock.Proxy?
    ensures ThreadOk(Move(sh, t, p).0, u, q)
  {
  }

  /** Only the owner of the lock can be about to move it. */
  lemma MoverHasLock(s: State)
    requires Invariant(s) && Count(s).moves > 0
    ensures s.sh.lock.By? && s.pc[s.sh.lock.t].Moving?
  {
    var u := Tally.Witness(s.pc, MovesW);
    assert ThreadOk(s.sh, u, s.pc[u]);
  }

  lemma Counted(s: State, t: Tid, p: Pc)
    requires t in s.pc
    ensures Covers(Count(s), s.pc[t])
    ensures Count(State(s.sh, s.pc[t := p])) == Moved(Count(s), t, s.pc[t], p)
  {
    CountedOne(s.pc, WaitsW, t, p);
    CountedOne(s.pc, CrossesW, t, p);
    CountedOne(s.pc, OpensW, t, p);
    CountedOne(s.pc, MovesW, t, p);
    CountedOne(s.pc, ClosesW, t, p);
  }

  lemma CountedOne(pc: map<Tid, Pc>, weight: Pc -> nat, t: Tid, p: Pc)
    requires t in pc
    ensures 0 <= weight(pc[t]) <= Tally.Total(pc, weight)
    ensures Tally.Total(pc[t := p], weight) == Tally.Total(pc, weight) - weight(pc[t]) + weight(p)
  {
    Tally.AtLeast(pc, weight, t);
    Tally.Update(pc, weight, t, p);
  }

  lemma StepKeepsThreads(s: State, t: Tid, u: Tid)
    requires Invariant(s) && Enabled(s, t) && u in s.pc
    ensures ThreadOk(Apply(s, t).sh, u, Apply(s, t).pc[u])
  {
    var p := s.pc[t];
    assert ThreadOk(s.sh, t, p) && ThreadOk(s.sh, u, s.pc[u]);
    Counted(s, t, p);
    Counted(s, u, p);
    if u == t {
      MoverStaysOk(s.sh, t, p);
    } else {
      if s.pc[u].Closing? && p.Closing? { Tally.AtLeastTwo(s.pc, ClosesW, t, u); }
      if p.Closing? { ClosingStep(s.sh, t, p, Count(s)); }
      OthersStayOk(s.sh, t, p, u, s.pc[u]);
    }
  }

  lemma StepKeepsLaws(s: State, t: Tid)
    requires Invariant(s) && Enabled(s, t)
    ensures Laws(Apply(s, t).sh, Count(Apply(s, t))) && Apply(s, t).sh.left <= Apply(s, t).sh.came
  {
    var p := s.pc[t];
    assert ThreadOk(s.sh, t, p);
    Counted(s, t, Apply(s, t).pc[t]);
    if Count(s).moves > 0 { MoverHasLock(s); }
    if s.sh.lock.Proxy? { DrainingStep(s.sh, t, p, Count(s)); } else { FillingStep(s.sh, t, p, Count(s)); }
  }

  lemma StepKeepsRounds(s: State, t: Tid)
    requires Invariant(s) && Enabled(s, t)
    ensures var sh' := Apply(s, t).sh; forall i :: 0 <= i < |sh'.rounds| ==> Complete(sh'.rounds[i], sh'.n)
  {
    assert ThreadOk(s.sh, t, s.pc[t]);
    Counted(s, t, s.pc[t]);
    if s.pc[t].Closing? { ClosingStep(s.sh, t, s.pc[t], Count(s)); }
  }

  lemma StepKeepsInvariant(s: State, t: Tid)
    requires Invariant(s) && Enabled(s, t)
    ensures Invariant(Apply(s, t))
  {
    StepKeepsLaws(s, t);
    StepKeepsRounds(s, t);
    forall u | u in s.pc ensures ThreadOk(Apply(s, t).sh, u, Apply(s, t).pc[u]) {
      StepKeepsThreads(s, t, u);
    }
  }

  lemma {:induction false} RunKeepsInvariant(ss: seq<State>)
    requires Run(ss)
    ensures Invariant(ss[|ss| - 1])
  {
    if |ss| == 1 {
      var s := ss[0];
      Tally.Nobody(s.pc, WaitsW);
      Tally.Nobody(s.pc, CrossesW);
      Tally.Nobody(s.pc, OpensW);
      Tally.Nobody(s.pc, MovesW);
      Tally.Nobody(s.pc, ClosesW);
    } else {
      var k := |ss| - 1;
      assert Next(ss[k - 1], ss[k - 1 + 1]);
      RunKeepsInvariant(ss[..k]);
      var t :| Enabled(ss[k - 1], t) && ss[k] == Apply(ss[k - 1], t);
      StepKeepsInvariant(ss[k - 1], t);
    }
  }
}
