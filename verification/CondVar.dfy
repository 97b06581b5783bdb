/** Condition variables: algorithm 9 of pthread_cond_wait.c and pthread_cond_signal.c.

    The three counters of pthread_cond_t are the fields of class Cond, whose methods are the code
    between two synchronisation calls. The protocol around them is a machine over any number of
    threads: semBlockLock ("the gate") and semBlockQueue are counting semaphores, mtxUnblockLock is
    a mutex, and a time-out or a cancellation is a step a waiter may take at any moment. */
module CondVar {
  import opened Common
  import Tally

  type Tid = nat

  const INT_MAX := 0x7fff_ffff
  const GONE_LIMIT := INT_MAX / 2

  // ----- the counters --------------------------------------------------------------------------

  datatype Counters = Counters(blocked: int, gone: int, toUnblock: int)

  datatype Decision = Issue(n: int) | CloseGate

  /** A waiter leaves: returns the counters and the value toUnblock had. */
  function Leave(c: Counters): (Counters, int) {
    (if c.toUnblock != 0 then c.(toUnblock := c.toUnblock - 1) else c.(gone := c.gone + 1), c.toUnblock)
  }

  /** What a signal or broadcast does before it needs the gate. */
  function Decide(c: Counters, all: bool): (Counters, Decision) {
    if c.toUnblock != 0 then
      if c.blocked == 0 then (c, Issue(0))
      else if all then (Counters(0, c.gone, c.toUnblock + c.blocked), Issue(c.blocked))
      else (Counters(c.blocked - 1, c.gone, c.toUnblock + 1), Issue(1))
    else if c.blocked > c.gone then (c, CloseGate)
    else (c, Issue(0))
  }

  /** What it does once it has closed the gate. */
  function Close(c: Counters, all: bool): (Counters, int) {
    var waiting := c.blocked - c.gone;
    if all then (Counters(0, 0, waiting), waiting) else (Counters(waiting - 1, 0, 1), 1)
  }

  /** A waiter counts itself in. */
  function Joined(c: Counters): Counters { c.(blocked := c.blocked + 1) }

  /** The overflow fold takes the waiters that have gone off the count, in two steps. */
  function Folded(c: Counters): Counters { c.(blocked := c.blocked - c.gone) }

  function Cleared(c: Counters): Counters { c.(gone := 0) }

  class Cond {
    var nWaitersBlocked: int
    var nWaitersGone: int
    var nWaitersToUnblock: int

    function View(): Counters
      reads this
    {
      Counters(nWaitersBlocked, nWaitersGone, nWaitersToUnblock)
    }

    constructor ()
      ensures View() == Counters(0, 0, 0)
    {
      nWaitersBlocked, nWaitersGone, nWaitersToUnblock := 0, 0, 0;
    }

    /** pthread_cond_wait.c:390, under semBlockLock. */
    method Register()
      modifies this`nWaitersBlocked
      ensures View() == Joined(old(View()))
    {
      nWaitersBlocked := nWaitersBlocked + 1;
    }

    /** pthread_cond_wait.c:297-301, under mtxUnblockLock. */
    method LeaveSection() returns (nSignalsWasLeft: int, mustFold: bool)
      modifies this`nWaitersGone, this`nWaitersToUnblock
      ensures (View(), nSignalsWasLeft) == Leave(old(View()))
      ensures mustFold <==> nSignalsWasLeft == 0 && View().gone == GONE_LIMIT
    {
      mustFold := false;
      nSignalsWasLeft := nWaitersToUnblock;
      if 0 != nSignalsWasLeft {
        nWaitersToUnblock := nWaitersToUnblock - 1;
      } else {
        nWaitersGone := nWaitersGone + 1;
        if GONE_LIMIT == nWaitersGone {
          mustFold := true;
        }
      }
    }

    /** pthread_cond_wait.c:314, under both locks. */
    method FoldSubtract()
      modifies this`nWaitersBlocked
      ensures View() == Folded(old(View()))
    {
      nWaitersBlocked := nWaitersBlocked - nWaitersGone;
    }

    /** pthread_cond_wait.c:325, after the post at line 315. */
    method FoldClear()
      modifies this`nWaitersGone
      ensures View() == Cleared(old(View()))
    {
      nWaitersGone := 0;
    }

    /** pthread_cond_signal.c:92-110, under mtxUnblockLock. nSignalsToIssue is 0 on the two paths
        that return without posting. */
    method DecideSection(unblockAll: bool) returns (closeGate: bool, nSignalsToIssue: int)
      modifies this`nWaitersBlocked, this`nWaitersToUnblock
      ensures View() == Decide(old(View()), unblockAll).0
      ensures Decide(old(View()), unblockAll).1 == if closeGate then CloseGate else Issue(nSignalsToIssue)
    {
      closeGate, nSignalsToIssue := false, 0;
      if 0 != nWaitersToUnblock {
        if 0 == nWaitersBlocked {
          return;
        }
        if unblockAll {
          nSignalsToIssue := nWaitersBlocked;
          nWaitersToUnblock := nWaitersToUnblock + nSignalsToIssue;
          nWaitersBlocked := 0;
        } else {
          nSignalsToIssue := 1;
          nWaitersToUnblock := nWaitersToUnblock + 1;
          nWaitersBlocked := nWaitersBlocked - 1;
        }
      } else if nWaitersBlocked > nWaitersGone {
        closeGate := true;
      }
    }

    /** pthread_cond_signal.c:119-133, under mtxUnblockLock and with the gate closed. */
    method CloseSection(unblockAll: bool) returns (nSignalsToIssue: int)
      modifies this
      ensures (View(), nSignalsToIssue) == Close(old(View()), unblockAll)
    {
      if 0 != nWaitersGone {
        nWaitersBlocked := nWaitersBlocked - nWaitersGone;
        nWaitersGone := 0;
      }
      if unblockAll {
        nWaitersToUnblock := nWaitersBlocked;
        nSignalsToIssue := nWaitersToUnblock;
        nWaitersBlocked := 0;
      } else {
        nWaitersToUnblock := 1;
        nSignalsToIssue := nWaitersToUnblock;
        nWaitersBlocked := nWaitersBlocked - 1;
      }
    }
  }

  // ----- the machine ---------------------------------------------------------------------------

  /** Program counters. `token` records whether the waiter took a unit of semBlockQueue; the code
      itself does not look at it. */
  datatype Pc =
    | Idle
    // ptw32_cond_timedwait
    | Entering                  // has the gate, about to count itself (line 390)
    | Registered                // counted, about to post the gate (392)
    | Queued                    // in sem_timedwait on semBlockQueue (431)
    // ptw32_cond_wait_cleanup
    | Leaving(token: bool)      // about to lock mtxUnblockLock (291)
    | LeaveIn(token: bool)      // holds it (297)
    | FoldGate                  // waits for the gate, holding mtxUnblockLock (304)
    | FoldIn                    // has both (314)
    | FoldPost                  // about to post the gate (315)
    | FoldZero                  // about to clear nWaitersGone (325)
    | LeaveOut(left: int)       // about to unlock (328)
    | Opening                   // the last unblocked waiter, about to post the gate (336)
    // ptw32_cond_unblock
    | Signalling(all: bool)     // about to lock mtxUnblockLock (87)
    | SignalIn(all: bool)       // holds it (92)
    | SignalGate(all: bool)     // waits for the gate, holding mtxUnblockLock (113)
    | SignalClose(all: bool)    // has both (119)
    | SignalOut(n: int)         // about to unlock (140, and 96 and 137 with n = 0)
    | Posting(n: int)           // about to post semBlockQueue n times (142)

  /** gate is the value of semBlockLock, queue that of semBlockQueue, mtx the owner of mtxUnblockLock.
      The rest is history: how often the gate has been closed by a signaller, and how often it has
      been opened by a last unblocked waiter. */
  datatype Shared = Shared(c: Counters, gate: int, queue: int, mtx: Option<Tid>, closings: int, openings: int)

  datatype State = State(sh: Shared, pc: map<Tid, Pc>)

  datatype Act =
    | CallWait | Count | PostGate | TakeToken | GiveUp
    | LeaveLock | LeaveCount | TakeFoldGate | FoldSub | FoldOpen | FoldClear | LeaveUnlock | OpenGate
    | CallSignal(all: bool) | SignalLock | SignalDecide | SignalTakeGate | SignalCount | SignalUnlock | Post

  /** May a thread at p take this step now? Waiting for a mutex or a semaphore is being disabled. */
  predicate CanMove(sh: Shared, p: Pc, a: Act) {
    match a
    case CallWait => p.Idle? && sh.gate > 0
    case Count => p.Entering?
    case PostGate => p.Registered?
    case TakeToken => p.Queued? && sh.queue > 0
    case GiveUp => p.Queued?
    case LeaveLock => p.Leaving? && sh.mtx.None?
    case LeaveCount => p.LeaveIn?
    case TakeFoldGate => p.FoldGate? && sh.gate > 0
    case FoldSub => p.FoldIn?
    case FoldOpen => p.FoldPost?
    case FoldClear => p.FoldZero?
    case LeaveUnlock => p.LeaveOut?
    case OpenGate => p.Opening?
    case CallSignal(_) => p.Idle?
    case SignalLock => p.Signalling? && sh.mtx.None?
    case SignalDecide => p.SignalIn?
    case SignalTakeGate => p.SignalGate? && sh.gate > 0
    case SignalCount => p.SignalClose?
    case SignalUnlock => p.SignalOut?
    case Post => p.Posting?
  }

  /** What the step of thread t at p does to the shared variables, and where t goes. */
  function Move(sh: Shared, t: Tid, p: Pc, a: Act): (Shared, Pc)
    requires CanMove(sh, p, a)
  {
    match a
    case CallWait => (sh.(gate := sh.gate - 1), Entering)
    case Count => (sh.(c := Joined(sh.c)), Registered)
    case PostGate => (sh.(gate := sh.gate + 1), Queued)
    case TakeToken => (sh.(queue := sh.queue - 1), Leaving(true))
    case GiveUp => (sh, Leaving(false))
    case LeaveLock => (sh.(mtx := Some(t)), LeaveIn(p.token))
    case LeaveCount =>
      var (c, left) := Leave(sh.c);
      (sh.(c := c), if left == 0 && c.gone == GONE_LIMIT then FoldGate else LeaveOut(left))
    case TakeFoldGate => (sh.(gate := sh.gate - 1), FoldIn)
    case FoldSub => (sh.(c := Folded(sh.c)), FoldPost)
    case FoldOpen => (sh.(gate := sh.gate + 1), FoldZero)
    case FoldClear => (sh.(c := Cleared(sh.c)), LeaveOut(0))
    case LeaveUnlock => (sh.(mtx := None), if p.left == 1 then Opening else Idle)
    case OpenGate => (sh.(gate := sh.gate + 1, openings := sh.openings + 1), Idle)
    case CallSignal(all) => (sh, Signalling(all))
    case SignalLock => (sh.(mtx := Some(t)), SignalIn(p.all))
    case SignalDecide =>
      var (c, d) := Decide(sh.c, p.all);
      (sh.(c := c), if d.CloseGate? then SignalGate(p.all) else SignalOut(d.n))
    case SignalTakeGate => (sh.(gate := sh.gate - 1, closings := sh.closings + 1), SignalClose(p.all))
    case SignalCount =>
      var (c, n) := Close(sh.c, p.all);
      (sh.(c := c), SignalOut(n))
    case SignalUnlock => (sh.(mtx := None), if p.n == 0 then Idle else Posting(p.n))
    case Post => (sh.(queue := sh.queue + p.n), Idle)
  }

  predicate Enabled(s: State, t: Tid, a: Act) { t in s.pc && CanMove(s.sh, s.pc[t], a) }

  function Apply(s: State, t: Tid, a: Act): State
    requires Enabled(s, t, a)
  {
    var (sh, p) := Move(s.sh, t, s.pc[t], a);
    State(sh, s.pc[t := p])
  }

  predicate Init(s: State) {
    && s.sh.c.blocked == 0 && s.sh.c.gone == 0 && s.sh.c.toUnblock == 0
    && s.sh.gate == 1 && s.sh.queue == 0 && s.sh.mtx.None? && s.sh.closings == s.sh.openings == 0
    && forall t :: t in s.pc ==> s.pc[t] == Idle
  }

  ghost predicate Next(s: State, s': State) {
    exists t, a :: Enabled(s, t, a) && s' == Apply(s, t, a)
  }

  ghost predicate Run(ss: seq<State>) {
    && |ss| > 0 && Init(ss[0])
    && forall i :: 0 <= i < |ss| - 1 ==> Next(ss[i], ss[i + 1])
  }

  // ----- what is counted -----------------------------------------------------------------------

  /** Waiters that have counted themselves in and not yet run the cleanup section. */
  function RegisteredW(p: Pc): nat { if p.Registered? || p.Queued? || p.Leaving? || p.LeaveIn? then 1 else 0 }

  /** Threads that answer for the gate being closed. */
  function GateW(p: Pc): nat {
    if p.Entering? || p.Registered? || p.FoldIn? || p.FoldPost? || p.SignalClose? || GoingToOpenW(p) == 1 then 1 else 0
  }

  function GoingToOpenW(p: Pc): nat { if p.Opening? || p == LeaveOut(1) then 1 else 0 }

  function ClosingW(p: Pc): nat { if p.SignalClose? || GoingToOpenW(p) == 1 then 1 else 0 }

  function TokenW(p: Pc): nat { if p == Leaving(true) || p == LeaveIn(true) then 1 else 0 }

  function ToPostW(p: Pc): nat { if (p.SignalOut? || p.Posting?) && p.n > 0 then p.n else 0 }

  /** The overflow fold has subtracted nWaitersGone but not yet cleared it. */
  function FoldTailW(p: Pc): nat { if p.FoldPost? || p.FoldZero? then 1 else 0 }

  function FoldingW(p: Pc): nat { if p.FoldGate? || p.FoldIn? || FoldTailW(p) == 1 then 1 else 0 }

  predicate HoldsMtx(p: Pc) {
    p.LeaveIn? || p.FoldGate? || p.FoldIn? || p.FoldPost? || p.FoldZero? || p.LeaveOut? ||
    p.SignalIn? || p.SignalGate? || p.SignalClose? || p.SignalOut?
  }

  ghost function RegisteredWaiters(s: State): nat { Tally.Total(s.pc, RegisteredW) }
  ghost function TokensHeld(s: State): nat { Tally.Total(s.pc, TokenW) }
  ghost function ToPost(s: State): nat { Tally.Total(s.pc, ToPostW) }

  /** Who is where, and how many that makes. */
  datatype Census = Census(
    pc: map<Tid, Pc>, registered: int, gate: int, closing: int, tokens: int, toPost: int, tail: int, folding: int)

  ghost function CensusOf(s: State): Census {
    Census(s.pc, RegisteredWaiters(s), Tally.Total(s.pc, GateW), Tally.Total(s.pc, ClosingW), TokensHeld(s), ToPost(s),
           Tally.Total(s.pc, FoldTailW), Tally.Total(s.pc, FoldingW))
  }

  function Moved(n: Census, t: Tid, p: Pc, p': Pc): Census {
    Census(n.pc[t := p'], n.registered - RegisteredW(p) + RegisteredW(p'), n.gate - GateW(p) + GateW(p'),
           n.closing - ClosingW(p) + ClosingW(p'), n.tokens - TokenW(p) + TokenW(p'),
           n.toPost - ToPostW(p) + ToPostW(p'), n.tail - FoldTailW(p) + FoldTailW(p'),
           n.folding - FoldingW(p) + FoldingW(p'))
  }

  /** Thread t at p is among those counted. */
  predicate Covers(n: Census, p: Pc) {
    && RegisteredW(p) <= n.registered && GateW(p) <= n.gate && ClosingW(p) <= n.closing && TokenW(p) <= n.tokens
    && ToPostW(p) <= n.toPost && FoldTailW(p) <= n.tail && FoldingW(p) <= n.folding && n.tail <= n.folding
  }

  function One(b: bool): nat { if b then 1 else 0 }

  predicate GateLaw(sh: Shared, n: Census) {
    && sh.gate >= 0 && sh.gate + n.gate + One(sh.c.toUnblock > 0) == 1
    && sh.closings == sh.openings + One(sh.c.toUnblock > 0) + n.closing
  }

  predicate CountLaw(sh: Shared, n: Census) {
    && n.registered == sh.c.blocked - (if n.tail > 0 then 0 else sh.c.gone) + sh.c.toUnblock
    && sh.c.blocked >= 0 && sh.c.gone >= 0 && sh.c.toUnblock >= 0
    && (sh.c.toUnblock > 0 ==> sh.c.gone == 0)
    && (if n.folding > 0 then sh.c.gone == GONE_LIMIT else sh.c.gone < GONE_LIMIT)
  }

  predicate WakeLaw(sh: Shared, n: Census) {
    sh.queue >= 0 && sh.queue + n.tokens + n.toPost >= sh.c.toUnblock
  }

  /** What holds of one thread. */
  predicate ThreadOk(sh: Shared, t: Tid, p: Pc) {
    && (HoldsMtx(p) <==> sh.mtx == Some(t))
    && (p.SignalGate? || p.SignalClose? ==> sh.c.toUnblock == 0 && sh.c.blocked > sh.c.gone)
    && (p.SignalOut? ==> p.n >= 0) && (p.Posting? ==> p.n > 0)
  }

  ghost predicate Invariant(s: State) {
    && (forall t :: t in s.pc ==> ThreadOk(s.sh, t, s.pc[t]))
    && (s.sh.mtx.Some? ==> s.sh.mtx.value in s.pc)
    && GateLaw(s.sh, CensusOf(s)) && CountLaw(s.sh, CensusOf(s)) && WakeLaw(s.sh, CensusOf(s))
  }

  // ----- every step keeps the invariant --------------------------------------------------------

  /** What a step may rely on, beside the laws: who holds the mutex tells whether a fold is on. */
  predicate Fits(sh: Shared, t: Tid, p: Pc, n: Census) {
    && ThreadOk(sh, t, p) && Covers(n, p) && CountLaw(sh, n)
    && (sh.mtx.None? ==> n.folding == 0)
    && (sh.mtx == Some(t) ==> n.folding == FoldingW(p) && n.tail == FoldTailW(p))
  }

  lemma GateKeptByWaiter(sh: Shared, t: Tid, p: Pc, a: Act, n: Census)
    requires CanMove(sh, p, a) && Fits(sh, t, p, n) && GateLaw(sh, n) && !Signals(a)
    ensures var (sh', p') := Move(sh, t, p, a); GateLaw(sh', Moved(n, t, p, p'))
  {
  }

  lemma GateKeptBySignaller(sh: Shared, t: Tid, p: Pc, a: Act, n: Census)
    requires CanMove(sh, p, a) && Fits(sh, t, p, n) && GateLaw(sh, n) && Signals(a)
    ensures var (sh', p') := Move(sh, t, p, a); GateLaw(sh', Moved(n, t, p, p'))
  {
  }

  lemma CountKeptByWaiter(sh: Shared, t: Tid, p: Pc, a: Act, n: Census)
    requires CanMove(sh, p, a) && Fits(sh, t, p, n) && GateLaw(sh, n) && !Signals(a)
    ensures var (sh', p') := Move(sh, t, p, a); CountLaw(sh', Moved(n, t, p, p'))
  {
  }

  lemma CountKeptBySignaller(sh: Shared, t: Tid, p: Pc, a: Act, n: Census)
    requires CanMove(sh, p, a) && Fits(sh, t, p, n) && Signals(a)
    ensures var (sh', p') := Move(sh, t, p, a); CountLaw(sh', Moved(n, t, p, p'))
  {
  }

  predicate Signals(a: Act) {
    a.CallSignal? || a.SignalLock? || a.SignalDecide? || a.SignalTakeGate? || a.SignalCount?
    || a.SignalUnlock? || a.Post?
  }

  lemma WakeKept(sh: Shared, t: Tid, p: Pc, a: Act, n: Census)
    requires CanMove(sh, p, a) && Fits(sh, t, p, n) && WakeLaw(sh, n)
    ensures var (sh', p') := Move(sh, t, p, a); WakeLaw(sh', Moved(n, t, p, p'))
  {
  }

  /** The counters change under the mutex, but for a waiter that counts itself in. */
  predicate CountersGuarded(sh: Shared, sh': Shared, t: Tid) {
    sh.mtx == Some(t) || (sh'.c.toUnblock == sh.c.toUnblock && sh'.c.gone == sh.c.gone && sh'.c.blocked >= sh.c.blocked)
  }

  lemma MoverOkByWaiter(sh: Shared, t: Tid, p: Pc, a: Act, n: Census)
    requires CanMove(sh, p, a) && Fits(sh, t, p, n) && !Signals(a)
    ensures var (sh', p') := Move(sh, t, p, a);
            ThreadOk(sh', t, p') && OnlyOwn(sh.mtx, sh'.mtx, t) && CountersGuarded(sh, sh', t)
  {
  }

  lemma MoverOkBySignaller(sh: Shared, t: Tid, p: Pc, a: Act, n: Census)
    requires CanMove(sh, p, a) && Fits(sh, t, p, n) && Signals(a)
    ensures var (sh', p') := Move(sh, t, p, a);
            ThreadOk(sh', t, p') && OnlyOwn(sh.mtx, sh'.mtx, t) && CountersGuarded(sh, sh', t)
  {
  }

  lemma OthersStayOk(sh: Shared, sh': Shared, t: Tid, u: Tid, p: Pc)
    requires t != u && ThreadOk(sh, u, p) && OnlyOwn(sh.mtx, sh'.mtx, t) && CountersGuarded(sh, sh', t)
    ensures ThreadOk(sh', u, p)
  {
  }

  /** How the totals change when thread t moves on, and what t contributed to them before. */
  lemma Counted(s: State, t: Tid, p: Pc)
    requires t in s.pc
    ensures CensusOf(State(s.sh, s.pc[t := p])) == Moved(CensusOf(s), t, s.pc[t], p) && Covers(CensusOf(s), s.pc[t])
  {
    CountedOne(s.pc, RegisteredW, t, p);
    CountedOne(s.pc, GateW, t, p);
    CountedOne(s.pc, ClosingW, t, p);
    CountedOne(s.pc, TokenW, t, p);
    CountedOne(s.pc, ToPostW, t, p);
    CountedOne(s.pc, FoldTailW, t, p);
    CountedOne(s.pc, FoldingW, t, p);
    Tally.Compare(s.pc, FoldTailW, FoldingW);
  }

  lemma CountedOne(pc: map<Tid, Pc>, weight: Pc -> nat, t: Tid, p: Pc)
    requires t in pc
    ensures weight(pc[t]) <= Tally.Total(pc, weight)
    ensures Tally.Total(pc[t := p], weight) == Tally.Total(pc, weight) - weight(pc[t]) + weight(p)
  {
    Tally.AtLeast(pc, weight, t);
    Tally.Update(pc, weight, t, p);
  }

  /** Only the owner of the mutex folds. */
  lemma OnlyOwnerFolds(s: State)
    requires Invariant(s)
    ensures s.sh.mtx.None? ==> CensusOf(s).folding == 0 && CensusOf(s).tail == 0
    ensures s.sh.mtx.Some? ==>
              && CensusOf(s).folding == FoldingW(s.pc[s.sh.mtx.value])
              && CensusOf(s).tail == FoldTailW(s.pc[s.sh.mtx.value])
  {
    if s.sh.mtx.None? {
      forall u | u in s.pc ensures FoldingW(s.pc[u]) == 0 { assert ThreadOk(s.sh, u, s.pc[u]); }
      Tally.Nobody(s.pc, FoldingW);
      Tally.Nobody(s.pc, FoldTailW);
    } else {
      var t := s.sh.mtx.value;
      forall u | u in s.pc && u != t ensures FoldingW(s.pc[u]) == 0 { assert ThreadOk(s.sh, u, s.pc[u]); }
      Tally.Split(s.pc, FoldingW, t);
      Tally.Split(s.pc, FoldTailW, t);
      Tally.Nobody(s.pc - {t}, FoldingW);
      Tally.Nobody(s.pc - {t}, FoldTailW);
    }
  }

  lemma ThreadFits(s: State, t: Tid)
    requires Invariant(s) && t in s.pc
    ensures Fits(s.sh, t, s.pc[t], CensusOf(s))
  {
    assert ThreadOk(s.sh, t, s.pc[t]);
    Counted(s, t, s.pc[t]);
    OnlyOwnerFolds(s);
  }

  lemma InitInvariant(s: State)
    requires Init(s)
    ensures Invariant(s)
  {
    Tally.Nobody(s.pc, RegisteredW);
    Tally.Nobody(s.pc, GateW);
    Tally.Nobody(s.pc, ClosingW);
    Tally.Nobody(s.pc, FoldTailW);
    Tally.Nobody(s.pc, FoldingW);
  }

  lemma LawsKept(sh: Shared, t: Tid, p: Pc, a: Act, n: Census)
    requires CanMove(sh, p, a) && Fits(sh, t, p, n) && GateLaw(sh, n) && WakeLaw(sh, n)
    ensures var (sh', p') := Move(sh, t, p, a);
            var n' := Moved(n, t, p, p');
            && GateLaw(sh', n') && CountLaw(sh', n') && WakeLaw(sh', n')
            && ThreadOk(sh', t, p') && OnlyOwn(sh.mtx, sh'.mtx, t) && CountersGuarded(sh, sh', t)
  {
    if Signals(a) {
      GateKeptBySignaller(sh, t, p, a, n);
      CountKeptBySignaller(sh, t, p, a, n);
      MoverOkBySignaller(sh, t, p, a, n);
    } else {
      GateKeptByWaiter(sh, t, p, a, n);
      CountKeptByWaiter(sh, t, p, a, n);
      MoverOkByWaiter(sh, t, p, a, n);
    }
    WakeKept(sh, t, p, a, n);
  }

  lemma StepKeepsInvariant(s: State, t: Tid, a: Act)
    requires Invariant(s) && Enabled(s, t, a)
    ensures Invariant(Apply(s, t, a))
  {
    var s' := Apply(s, t, a);
    ThreadFits(s, t);
    Counted(s, t, s'.pc[t]);
    LawsKept(s.sh, t, s.pc[t], a, CensusOf(s));
    forall u | u in s'.pc ensures ThreadOk(s'.sh, u, s'.pc[u]) {
      if u != t { OthersStayOk(s.sh, s'.sh, t, u, s.pc[u]); }
    }
  }

  lemma {:induction false} RunKeepsInvariant(ss: seq<State>)
    requires Run(ss)
    ensures Invariant(ss[|ss| - 1])
  {
    if |ss| == 1 {
      InitInvariant(ss[0]);
    } else {
      var k := |ss| - 1;
      assert Next(ss[k - 1], ss[k - 1 + 1]);
      RunKeepsInvariant(ss[..k]);
      var t, a :| Enabled(ss[k - 1], t, a) && ss[k] == Apply(ss[k - 1], t, a);
      StepKeepsInvariant(ss[k - 1], t, a);
    }
  }
}
