/** Read/write locks: pthread_rwlock_{rd,wr,tryrd,trywr,timedwr}lock.c, pthread_rwlock_unlock.c and
    ptw32_rwlock_cancelwrwait.c.

    Readers are counted in under mtxExclusiveAccess and counted out under mtxSharedAccessCompleted;
    while a writer waits, the completed count runs from minus the readers inside up to zero. The
    three counters are the fields of class RwLockCounts, whose methods are the code between two
    synchronisation calls; the machine around them has any number of threads, two mutexes and a
    condition variable that may wake its waiter for no reason. */
module RwLock {
  import opened Common
  import Tally

  type Tid = nat

  const INT_MAX := 0x7fff_ffff

  // ----- the counters --------------------------------------------------------------------------

  datatype Counts = Counts(shared: int, exclusive: int, completed: int)

  /** Forget the readers that have come and gone. */
  function Normalise(c: Counts): Counts { c.(shared := c.shared - c.completed, completed := 0) }

  /** A writer that holds both mutexes looks at the counters: does it have to wait? */
  function WriterEntry(c: Counts): (Counts, bool) {
    if c.exclusive != 0 then (c, false)
    else
      var c1 := if c.completed > 0 then Normalise(c) else c;
      if c1.shared > 0 then (c1.(completed := -c1.shared), true) else (c1, false)
  }

  /** The same for pthread_rwlock_trywrlock: may it enter? */
  function TryWriterEntry(c: Counts): (Counts, bool) {
    if c.exclusive != 0 then (c, false)
    else
      var c1 := if c.completed > 0 then Normalise(c) else c;
      if c1.shared > 0 then (c1, false) else (c1.(exclusive := 1), true)
  }

  function RollBack(c: Counts): Counts { c.(shared := -c.completed, completed := 0) }

  class RwLockCounts {
    var nSharedAccessCount: int
    var nExclusiveAccessCount: int
    var nCompletedSharedAccessCount: int

    function View(): Counts
      reads this
    {
      Counts(nSharedAccessCount, nExclusiveAccessCount, nCompletedSharedAccessCount)
    }

    constructor ()
      ensures View() == Counts(0, 0, 0)
    {
      nSharedAccessCount, nExclusiveAccessCount, nCompletedSharedAccessCount := 0, 0, 0;
    }

    /** pthread_rwlock_rdlock.c:81, under mtxExclusiveAccess. */
    method CountReader() returns (mustNormalise: bool)
      modifies this`nSharedAccessCount
      ensures View() == old(View()).(shared := old(View()).shared + 1)
      ensures mustNormalise <==> View().shared == INT_MAX
    {
      nSharedAccessCount := nSharedAccessCount + 1;
      mustNormalise := nSharedAccessCount == INT_MAX;
    }

    /** pthread_rwlock_rdlock.c:90-91, under both mutexes. */
    method NormaliseSection()
      modifies this`nSharedAccessCount, this`nCompletedSharedAccessCount
      ensures View() == Normalise(old(View()))
    {
      nSharedAccessCount := nSharedAccessCount - nCompletedSharedAccessCount;
      nCompletedSharedAccessCount := 0;
    }

    /** pthread_rwlock_wrlock.c:87-97 and pthread_rwlock_timedwrlock.c:91-101, under both mutexes. */
    method WriterSection() returns (mustWait: bool)
      modifies this`nSharedAccessCount, this`nCompletedSharedAccessCount
      ensures (View(), mustWait) == WriterEntry(old(View()))
    {
      mustWait := false;
      if nExclusiveAccessCount == 0 {
        if nCompletedSharedAccessCount > 0 {
          nSharedAccessCount := nSharedAccessCount - nCompletedSharedAccessCount;
          nCompletedSharedAccessCount := 0;
        }
        if nSharedAccessCount > 0 {
          nCompletedSharedAccessCount := -nSharedAccessCount;
          mustWait := true;
        }
      }
    }

    /** pthread_rwlock_trywrlock.c:88-119, under both mutexes; false is EBUSY. */
    method TryWriterSection() returns (entered: bool)
      modifies this
      ensures (View(), entered) == TryWriterEntry(old(View()))
    {
      entered := false;
      if nExclusiveAccessCount == 0 {
        if nCompletedSharedAccessCount > 0 {
          nSharedAccessCount := nSharedAccessCount - nCompletedSharedAccessCount;
          nCompletedSharedAccessCount := 0;
        }
        if nSharedAccessCount <= 0 {
          nExclusiveAccessCount := 1;
          entered := true;
        }
      }
    }

    /** ptw32_rwlock_cancelwrwait.c:45-46, under both mutexes. */
    method CancelSection()
      modifies this`nSharedAccessCount, this`nCompletedSharedAccessCount
      ensures View() == RollBack(old(View()))
    {
      nSharedAccessCount := -nCompletedSharedAccessCount;
      nCompletedSharedAccessCount := 0;
    }

    /** pthread_rwlock_unlock.c:76, under mtxSharedAccessCompleted. */
    method CountReaderOut() returns (mustSignal: bool)
      modifies this`nCompletedSharedAccessCount
      ensures View() == old(View()).(completed := old(View()).completed + 1)
      ensures mustSignal <==> View().completed == 0
    {
      nCompletedSharedAccessCount := nCompletedSharedAccessCount + 1;
      mustSignal := nCompletedSharedAccessCount == 0;
    }
  }

  // ----- the machine ---------------------------------------------------------------------------

  /** E is mtxExclusiveAccess, C is mtxSharedAccessCompleted. */
  datatype Pc =
    | Idle
    // pthread_rwlock_rdlock, pthread_rwlock_tryrdlock
    | RdWantE                   // about to lock E (76)
    | RdCount                   // holds E (81)
    | RdWantC                   // holds E, about to lock C (84)
    | RdNormalise               // holds both (90)
    | RdDropC                   // about to unlock C (94)
    | RdDropE                   // about to unlock E (101)
    | Reading
    // pthread_rwlock_unlock; the flag says what the caller holds, which the code does not know
    | Unlock(writer: bool)      // about to read nExclusiveAccessCount (68)
    | OutWantC                  // about to lock C (71)
    | OutCount                  // holds C (76)
    | OutSignal                 // holds C, about to signal (78)
    | OutDropC                  // about to unlock C (81)
    | WrOut                     // about to decrement nExclusiveAccessCount (85)
    // pthread_rwlock_wrlock, pthread_rwlock_timedwrlock
    | WrWantE                   // about to lock E (76)
    | WrWantC                   // holds E, about to lock C (81)
    | WrEntry                   // holds both (87)
    | WrAsleep(signalled: bool) // holds E, in pthread_cond_wait (110)
    | WrWoken(ok: bool)         // holds E, about to lock C again; ok is false after a time-out or cancellation
    | WrCheck(ok: bool)         // holds both (113)
    | WrClear                   // holds both, about to set nSharedAccessCount to 0 (122)
    | WrCount                   // holds both (129)
    | Writing                   // holds both
    // pthread_rwlock_trywrlock
    | TryC                      // holds E, about to try C (82)
    | TryEntry                  // holds both (88)
    // leaving with both, or with E only, still locked
    | DropC
    | DropE

  datatype Shared = Shared(c: Counts, mtxE: Option<Tid>, mtxC: Option<Tid>)

  datatype State = State(sh: Shared, pc: map<Tid, Pc>)

  datatype Act =
    | CallRdLock | CallTryRdLock | CallWrLock | CallTryWrLock | CallUnlock
    | LockE | LockC | TryLockC | GiveUpLock | UnlockC | UnlockE
    | CountIn | DoNormalise | ReadExclusive | CountOut | DoSignal | CountWriterOut
    | EnterWriter | WakeUp | GiveUpWait | Check | ClearShared | CountWriter | TryEnterWriter

  predicate WantsE(p: Pc) { p.RdWantE? || p.WrWantE? }
  predicate WantsC(p: Pc) { p.RdWantC? || p.OutWantC? || p.WrWantC? || p.WrWoken? }

  function WithE(p: Pc): Pc { if p.RdWantE? then RdCount else WrWantC }

  function WithC(p: Pc): Pc {
    match p
    case RdWantC => RdNormalise
    case OutWantC => OutCount
    case WrWoken(ok) => WrCheck(ok)
    case _ => WrEntry
  }

  /** May a thread at p take this step now? Waiting for a mutex is being disabled. A waiting writer
      may wake up at any time (WakeUp), signalled or not, or give up; only pthread_rwlock_timedwrlock
      gives up on a mutex. */
  predicate CanMove(sh: Shared, p: Pc, a: Act) {
    match a
    case CallRdLock => p.Idle?
    case CallTryRdLock => p.Idle?
    case CallWrLock => p.Idle?
    case CallTryWrLock => p.Idle?
    case CallUnlock => p.Reading? || p.Writing?
    case LockE => WantsE(p) && sh.mtxE.None?
    case LockC => WantsC(p) && sh.mtxC.None?
    case TryLockC => p.TryC?
    case GiveUpLock => p.WrWantE? || p.WrWantC?
    case UnlockC => p.RdDropC? || p.OutDropC? || p.DropC?
    case UnlockE => p.RdDropE? || p.DropE?
    case CountIn => p.RdCount?
    case DoNormalise => p.RdNormalise?
    case ReadExclusive => p.Unlock?
    case CountOut => p.OutCount?
    case DoSignal => p.OutSignal?
    case CountWriterOut => p.WrOut?
    case EnterWriter => p.WrEntry?
    case WakeUp => p.WrAsleep?
    case GiveUpWait => p.WrAsleep?
    case Check => p.WrCheck?
    case ClearShared => p.WrClear?
    case CountWriter => p.WrCount?
    case TryEnterWriter => p.TryEntry?
  }

  /** What the step of thread t at p does to the shared variables, and where t goes. */
  function Move(sh: Shared, t: Tid, p: Pc, a: Act): (Shared, Pc)
    requires CanMove(sh, p, a)
  {
    match a
    case CallRdLock => (sh, RdWantE)
    case CallTryRdLock => if sh.mtxE.None? then (sh.(mtxE := Some(t)), RdCount) else (sh, Idle)
    case CallWrLock => (sh, WrWantE)
    case CallTryWrLock => if sh.mtxE.None? then (sh.(mtxE := Some(t)), TryC) else (sh, Idle)
    case CallUnlock => (sh, Unlock(p.Writing?))
    case LockE => (sh.(mtxE := Some(t)), WithE(p))
    case LockC => (sh.(mtxC := Some(t)), WithC(p))
    case TryLockC => if sh.mtxC.None? then (sh.(mtxC := Some(t)), TryEntry) else (sh, DropE)
    case GiveUpLock => (sh, if p.WrWantE? then Idle else DropE)
    case UnlockC => (sh.(mtxC := None), if p.RdDropC? then RdDropE else if p.OutDropC? then Idle else DropE)
    case UnlockE => (sh.(mtxE := None), if p.RdDropE? then Reading else Idle)
    case CountIn =>
      var c := sh.c.(shared := sh.c.shared + 1);
      (sh.(c := c), if c.shared == INT_MAX then RdWantC else RdDropE)
    case DoNormalise => (sh.(c := Normalise(sh.c)), RdDropC)
    case ReadExclusive => (sh, if sh.c.exclusive == 0 then OutWantC else WrOut)
    case CountOut =>
      var c := sh.c.(completed := sh.c.completed + 1);
      (sh.(c := c), if c.completed == 0 then OutSignal else OutDropC)
    case DoSignal => (sh, OutDropC)
    case CountWriterOut => (sh.(c := sh.c.(exclusive := sh.c.exclusive - 1)), DropC)
    case EnterWriter =>
      var (c, wait) := WriterEntry(sh.c);
      if wait then (sh.(c := c, mtxC := None), WrAsleep(false)) else (sh.(c := c), WrCount)
    case WakeUp => (sh, WrWoken(true))
    case GiveUpWait => (sh, WrWoken(false))
    case Check =>
      if !p.ok then (sh.(c := RollBack(sh.c)), DropC)
      else if sh.c.completed < 0 then (sh.(mtxC := None), WrAsleep(false))
      else (sh, WrClear)
    case ClearShared => (sh.(c := sh.c.(shared := 0)), WrCount)
    case CountWriter => (sh.(c := sh.c.(exclusive := sh.c.exclusive + 1)), Writing)
    case TryEnterWriter =>
      var (c, entered) := TryWriterEntry(sh.c);
      // with a writer in, it would return with both mutexes locked
      (sh.(c := c), if entered then Writing else if c.exclusive != 0 then Idle else DropC)
  }

  /** pthread_cond_signal wakes the writer asleep on the condition variable, if there is one. E
      belongs to the only thread that can be. */
  function WakeWriter(s: State): map<Tid, Pc> {
    if s.sh.mtxE.Some? && s.sh.mtxE.value in s.pc && s.pc[s.sh.mtxE.value].WrAsleep?
    then s.pc[s.sh.mtxE.value := WrAsleep(true)] else s.pc
  }

  predicate Enabled(s: State, t: Tid, a: Act) { t in s.pc && CanMove(s.sh, s.pc[t], a) }

  function Apply(s: State, t: Tid, a: Act): State
    requires Enabled(s, t, a)
  {
    var (sh, p) := Move(s.sh, t, s.pc[t], a);
    State(sh, (if a.DoSignal? then WakeWriter(s) else s.pc)[t := p])
  }

  predicate Init(s: State) {
    && s.sh.c.shared == 0 && s.sh.c.exclusive == 0 && s.sh.c.completed == 0 && s.sh.mtxE.None? && s.sh.mtxC.None?
    && forall t :: t in s.pc ==> s.pc[t] == Idle
  }

  /** A step after which fewer than INT_MAX readers are active. */
  ghost predicate Next(s: State, s': State) {
    (exists t, a :: Enabled(s, t, a) && s' == Apply(s, t, a)) && ActiveReaders(s') < INT_MAX
  }

  ghost predicate Run(ss: seq<State>) {
    && |ss| > 0 && Init(ss[0])
    && forall i :: 0 <= i < |ss| - 1 ==> Next(ss[i], ss[i + 1])
  }

  // ----- invariant -----------------------------------------------------------------------------

  predicate HoldsE(p: Pc) {
    match p
    case Idle | RdWantE | Reading | OutWantC | OutCount | OutSignal | OutDropC | WrWantE => false
    case Unlock(writer) => writer
    case _ => true
  }

  predicate HoldsC(p: Pc) {
    match p
    case RdNormalise | RdDropC | OutCount | OutSignal | OutDropC | WrOut | WrEntry | WrCheck(_) | WrClear
      | WrCount | Writing | TryEntry | DropC => true
    case Unlock(writer) => writer
    case _ => false
  }

  /** Readers that are counted in and not yet counted out. */
  function ActiveW(p: Pc): nat {
    match p
    case RdWantC | RdNormalise | RdDropC | RdDropE | Reading | OutWantC | OutCount => 1
    case Unlock(writer) => if writer then 0 else 1
    case _ => 0
  }

  ghost function ActiveReaders(s: State): nat { Tally.Total(s.pc, ActiveW) }

  /** What the thread that holds E is up to, as far as the counters are concerned. */
  datatype Phase =
    | Plain      // nobody holds it, or nothing in particular
    | Full       // a reader has brought nSharedAccessCount to INT_MAX
    | Waits      // a writer waits for the readers inside
    | Drained    // the last of them has left
    | Entering   // a writer is about to take possession
    | Writes     // a writer has the lock

  function PhaseOf(p: Pc): Phase {
    match p
    case RdWantC | RdNormalise => Full
    case WrAsleep(_) | WrWoken(_) | WrCheck(_) => Waits
    case WrClear => Drained
    case WrCount => Entering
    case Writing | WrOut => Writes
    case Unlock(writer) => if writer then Writes else Plain
    case _ => Plain
  }

  predicate OwnsWhatItShould(sh: Shared, t: Tid, p: Pc) {
    (HoldsE(p) <==> sh.mtxE == Some(t)) && (HoldsC(p) <==> sh.mtxC == Some(t))
  }

  /** What the counters say, given the phase of the thread that holds E and the number of active
      readers. */
  predicate CountsFit(sh: Shared, phase: Phase, active: int) {
    var c := sh.c;
    match phase
    case Plain => c.exclusive == 0 && c.completed >= 0 && active == c.shared - c.completed && 0 <= c.shared < INT_MAX
    case Full => c.exclusive == 0 && c.completed >= 0 && active == c.shared - c.completed && c.shared == INT_MAX
    case Waits => c.exclusive == 0 && c.completed <= 0 && active == -c.completed && 0 <= c.shared < INT_MAX
    case Drained => c.exclusive == 0 && c.completed == 0 && active == 0 && 0 <= c.shared < INT_MAX
    case Entering => c.shared == 0 && c.exclusive == 0 && c.completed == 0 && active == 0
    case Writes => c.shared == 0 && c.exclusive == 1 && c.completed == 0 && active == 0
  }

  function HolderE(s: State): Pc {
    if s.sh.mtxE.Some? && s.sh.mtxE.value in s.pc then s.pc[s.sh.mtxE.value] else Idle
  }

  function HolderC(s: State): Pc {
    if s.sh.mtxC.Some? && s.sh.mtxC.value in s.pc then s.pc[s.sh.mtxC.value] else Idle
  }

  ghost predicate Invariant(s: State) {
    && (forall t :: t in s.pc ==> OwnsWhatItShould(s.sh, t, s.pc[t]))
    && (s.sh.mtxE.Some? ==> s.sh.mtxE.value in s.pc)
    && (s.sh.mtxC.Some? ==> s.sh.mtxC.value in s.pc)
    && CountsFit(s.sh, PhaseOf(HolderE(s)), ActiveReaders(s))
    // a writer that sleeps unsignalled has readers to wait for, or is about to be signalled
    && (HolderE(s) == WrAsleep(false) ==> s.sh.c.completed < 0 || HolderC(s).OutSignal?)
  }

  // ----- every step keeps the invariant --------------------------------------------------------

  /** The unlocked read of nExclusiveAccessCount tells the caller what it holds, and who has both
      mutexes finds no writer in. */
  predicate ReadsRight(sh: Shared, p: Pc) {
    (p.Unlock? ==> (sh.c.exclusive == 0 <==> !p.writer)) && (p.TryEntry? ==> sh.c.exclusive == 0)
  }

  predicate IsCall(a: Act) {
    a.CallRdLock? || a.CallTryRdLock? || a.CallWrLock? || a.CallTryWrLock? || a.CallUnlock? || a.GiveUpLock?
  }

  predicate IsMutex(a: Act) { a.LockE? || a.LockC? || a.TryLockC? || a.UnlockC? || a.UnlockE? }

  /** A step of t changes the mutexes as its own program counter says. */
  predicate KeepsOwnership(sh: Shared, sh': Shared, t: Tid, p': Pc) {
    OwnsWhatItShould(sh', t, p') && OnlyOwn(sh.mtxE, sh'.mtxE, t) && OnlyOwn(sh.mtxC, sh'.mtxC, t)
  }

  lemma MutexesKeepOwnership(sh: Shared, t: Tid, p: Pc, a: Act)
    requires CanMove(sh, p, a) && OwnsWhatItShould(sh, t, p) && (IsMutex(a) || IsCall(a))
    ensures var (sh', p') := Move(sh, t, p, a); KeepsOwnership(sh, sh', t, p')
  {
  }

  lemma OthersKeepOwnership(sh: Shared, t: Tid, p: Pc, a: Act)
    requires CanMove(sh, p, a) && OwnsWhatItShould(sh, t, p) && ReadsRight(sh, p) && !IsMutex(a) && !IsCall(a)
    ensures var (sh', p') := Move(sh, t, p, a); KeepsOwnership(sh, sh', t, p')
  {
  }

  lemma MoveKeepsOwnership(sh: Shared, t: Tid, p: Pc, a: Act)
    requires CanMove(sh, p, a) && OwnsWhatItShould(sh, t, p) && ReadsRight(sh, p)
    ensures var (sh', p') := Move(sh, t, p, a); KeepsOwnership(sh, sh', t, p')
  {
    if IsMutex(a) || IsCall(a) { MutexesKeepOwnership(sh, t, p, a); } else { OthersKeepOwnership(sh, t, p, a); }
  }

  predicate Fits(sh: Shared, t: Tid, p: Pc, phase: Phase, active: int) {
    && OwnsWhatItShould(sh, t, p) && CountsFit(sh, phase, active) && ActiveW(p) <= active
    && (sh.mtxE == Some(t) ==> phase == PhaseOf(p)) && (sh.mtxE.None? ==> phase == Plain)
  }

  /** The phase after thread t has moved to p'. */
  function PhaseAfter(sh: Shared, sh': Shared, t: Tid, p': Pc, phase: Phase): Phase {
    if sh'.mtxE == Some(t) then PhaseOf(p') else if sh.mtxE == Some(t) then Plain else phase
  }

  /** Thread t has moved from p to p' and changed the shared variables: do the counters still fit? */
  predicate StillFits(sh: Shared, sh': Shared, t: Tid, p: Pc, p': Pc, phase: Phase, active: int) {
    CountsFit(sh', PhaseAfter(sh, sh', t, p', phase), active - ActiveW(p) + ActiveW(p'))
  }

  predicate IsCounting(a: Act) {
    a.CountIn? || a.DoNormalise? || a.CountOut? || a.CountWriterOut? || a.EnterWriter? || a.Check? || a.ClearShared?
    || a.CountWriter? || a.TryEnterWriter?
  }

  predicate KeepsPhase(sh: Shared, sh': Shared, t: Tid, p: Pc, p': Pc, phase: Phase) {
    sh'.c == sh.c && ActiveW(p') == ActiveW(p) && PhaseAfter(sh, sh', t, p', phase) == phase
  }

  lemma CallsKeepPhase(sh: Shared, t: Tid, p: Pc, a: Act, phase: Phase)
    requires CanMove(sh, p, a) && OwnsWhatItShould(sh, t, p) && IsCall(a)
    requires (sh.mtxE == Some(t) ==> phase == PhaseOf(p)) && (sh.mtxE.None? ==> phase == Plain)
    ensures var (sh', p') := Move(sh, t, p, a); KeepsPhase(sh, sh', t, p, p', phase)
  {
  }

  lemma MutexesKeepPhase(sh: Shared, t: Tid, p: Pc, a: Act, phase: Phase)
    requires CanMove(sh, p, a) && OwnsWhatItShould(sh, t, p) && IsMutex(a)
    requires (sh.mtxE == Some(t) ==> phase == PhaseOf(p)) && (sh.mtxE.None? ==> phase == Plain)
    ensures var (sh', p') := Move(sh, t, p, a); KeepsPhase(sh, sh', t, p, p', phase)
  {
  }

  lemma OthersKeepPhase(sh: Shared, t: Tid, p: Pc, a: Act, phase: Phase)
    requires CanMove(sh, p, a) && OwnsWhatItShould(sh, t, p) && ReadsRight(sh, p)
    requires !IsCounting(a) && !IsMutex(a) && !IsCall(a)
    requires (sh.mtxE == Some(t) ==> phase == PhaseOf(p)) && (sh.mtxE.None? ==> phase == Plain)
    ensures var (sh', p') := Move(sh, t, p, a); KeepsPhase(sh, sh', t, p, p', phase)
  {
  }

  /** Steps that do not touch the counters change neither the phase nor who is active. */
  lemma QuietKeepsPhase(sh: Shared, t: Tid, p: Pc, a: Act, phase: Phase)
    requires CanMove(sh, p, a) && OwnsWhatItShould(sh, t, p) && ReadsRight(sh, p) && !IsCounting(a)
    requires (sh.mtxE == Some(t) ==> phase == PhaseOf(p)) && (sh.mtxE.None? ==> phase == Plain)
    ensures var (sh', p') := Move(sh, t, p, a); KeepsPhase(sh, sh', t, p, p', phase)
  {
    hide *;
    if IsMutex(a) { MutexesKeepPhase(sh, t, p, a, phase); }
    else if IsCall(a) { CallsKeepPhase(sh, t, p, a, phase); }
    else { OthersKeepPhase(sh, t, p, a, phase); }
  }

  /** A reader counts itself in. */
  lemma CountInFits(sh: Shared, active: int)
    requires CountsFit(sh, Plain, active) && 0 <= active && active + 1 < INT_MAX
    ensures CountsFit(sh.(c := sh.c.(shared := sh.c.shared + 1)),
                      if sh.c.shared + 1 == INT_MAX then Full else Plain, active + 1)
  {
  }

  /** Normalising makes room: there were not INT_MAX readers inside. */
  lemma NormaliseFits(sh: Shared, active: int)
    requires CountsFit(sh, Full, active) && 0 <= active < INT_MAX
    ensures CountsFit(sh.(c := Normalise(sh.c)), Plain, active)
  {
  }

  /** A reader counts itself out, whoever waits. */
  lemma CountOutFits(sh: Shared, phase: Phase, active: int)
    requires CountsFit(sh, phase, active) && active > 0
    ensures CountsFit(sh.(c := sh.c.(completed := sh.c.completed + 1)), phase, active - 1)
  {
  }

  /** A writer that holds both mutexes waits if and only if there are readers inside. */
  lemma WriterEntryFits(sh: Shared, active: int)
    requires CountsFit(sh, Plain, active) && 0 <= active < INT_MAX
    ensures WriterEntry(sh.c).1 <==> active > 0
    ensures WriterEntry(sh.c).0.shared == active
    ensures CountsFit(sh.(c := WriterEntry(sh.c).0), if active > 0 then Waits else Entering, active)
  {
  }

  lemma TryWriterEntryFits(sh: Shared, active: int)
    requires CountsFit(sh, Plain, active) && 0 <= active < INT_MAX
    ensures TryWriterEntry(sh.c).1 <==> active == 0
    ensures TryWriterEntry(sh.c).0.shared == active && TryWriterEntry(sh.c).0.completed == 0
    ensures CountsFit(sh.(c := TryWriterEntry(sh.c).0), if active > 0 then Plain else Writes, active)
  {
  }

  /** A writer that gives up leaves the counters as if it had never waited. */
  lemma RollBackFits(sh: Shared, active: int)
    requires CountsFit(sh, Waits, active) && 0 <= active < INT_MAX
    ensures CountsFit(sh.(c := RollBack(sh.c)), Plain, active)
  {
  }

  lemma AllGone(sh: Shared, active: int)
    requires CountsFit(sh, Waits, active) && sh.c.completed >= 0
    ensures CountsFit(sh, Drained, active)
  {
  }

  /** A writer at its entry section holds E, so the counters are in their plain state. */
  lemma AtEntry(sh: Shared, t: Tid, p: Pc, phase: Phase, active: int)
    requires Fits(sh, t, p, phase, active) && (p.WrEntry? || p.TryEntry?)
    ensures sh.mtxE == Some(t) && CountsFit(sh, Plain, active)
  {
  }

  /** For a holder of E that goes on holding it, only its own phase counts. */
  lemma HolderStillFits(sh: Shared, sh': Shared, t: Tid, p: Pc, p': Pc, phase: Phase, active: int)
    requires sh.mtxE == Some(t) && sh'.mtxE == Some(t) && ActiveW(p) == ActiveW(p') == 0
    requires CountsFit(sh', PhaseOf(p'), active)
    ensures StillFits(sh, sh', t, p, p', phase, active)
  {
  }

  lemma EntryKeepsCounts(sh: Shared, t: Tid, phase: Phase, active: int)
    requires Fits(sh, t, WrEntry, phase, active) && active < INT_MAX
    ensures var (sh', p') := Move(sh, t, WrEntry, EnterWriter); StillFits(sh, sh', t, WrEntry, p', phase, active)
  {
    AtEntry(sh, t, WrEntry, phase, active);
    WriterEntryFits(sh, active);
    var (sh', p') := Move(sh, t, WrEntry, EnterWriter);
    HolderStillFits(sh, sh', t, WrEntry, p', phase, active);
  }

  lemma TryEntryKeepsCounts(sh: Shared, t: Tid, phase: Phase, active: int)
    requires Fits(sh, t, TryEntry, phase, active) && active < INT_MAX
    ensures var (sh', p') := Move(sh, t, TryEntry, TryEnterWriter); StillFits(sh, sh', t, TryEntry, p', phase, active)
  {
    AtEntry(sh, t, TryEntry, phase, active);
    TryWriterEntryFits(sh, active);
    var (sh', p') := Move(sh, t, TryEntry, TryEnterWriter);
    HolderStillFits(sh, sh', t, TryEntry, p', phase, active);
  }

  lemma CountInKeepsCounts(sh: Shared, t: Tid, phase: Phase, active: int)
    requires Fits(sh, t, RdCount, phase, active) && active + 1 < INT_MAX
    ensures var (sh', p') := Move(sh, t, RdCount, CountIn); StillFits(sh, sh', t, RdCount, p', phase, active)
  {
    CountInFits(sh, active);
  }

  lemma CountOutKeepsCounts(sh: Shared, t: Tid, phase: Phase, active: int)
    requires Fits(sh, t, OutCount, phase, active)
    ensures var (sh', p') := Move(sh, t, OutCount, CountOut); StillFits(sh, sh', t, OutCount, p', phase, active)
  {
    CountOutFits(sh, phase, active);
  }

  lemma CheckKeepsCounts(sh: Shared, t: Tid, ok: bool, phase: Phase, active: int)
    requires Fits(sh, t, WrCheck(ok), phase, active) && active < INT_MAX
    ensures var (sh', p') := Move(sh, t, WrCheck(ok), Check); StillFits(sh, sh', t, WrCheck(ok), p', phase, active)
  {
    if !ok { RollBackFits(sh, active); }
    else if sh.c.completed >= 0 { AllGone(sh, active); }
    var (sh', p') := Move(sh, t, WrCheck(ok), Check);
    HolderStillFits(sh, sh', t, WrCheck(ok), p', phase, active);
  }

  lemma NormaliseKeepsCounts(sh: Shared, t: Tid, phase: Phase, active: int)
    requires Fits(sh, t, RdNormalise, phase, active) && active < INT_MAX
    ensures var (sh', p') := Move(sh, t, RdNormalise, DoNormalise);
            StillFits(sh, sh', t, RdNormalise, p', phase, active)
  {
    NormaliseFits(sh, active);
  }

  lemma ClearKeepsCounts(sh: Shared, t: Tid, phase: Phase, active: int)
    requires Fits(sh, t, WrClear, phase, active)
    ensures var (sh', p') := Move(sh, t, WrClear, ClearShared); StillFits(sh, sh', t, WrClear, p', phase, active)
  {
  }

  lemma CountWriterKeepsCounts(sh: Shared, t: Tid, phase: Phase, active: int)
    requires Fits(sh, t, WrCount, phase, active)
    ensures var (sh', p') := Move(sh, t, WrCount, CountWriter); StillFits(sh, sh', t, WrCount, p', phase, active)
  {
  }

  lemma WriterOutKeepsCounts(sh: Shared, t: Tid, phase: Phase, active: int)
    requires Fits(sh, t, WrOut, phase, active)
    ensures var (sh', p') := Move(sh, t, WrOut, CountWriterOut); StillFits(sh, sh', t, WrOut, p', phase, active)
  {
  }

  lemma QuietKeepsCounts(sh: Shared, t: Tid, p: Pc, a: Act, phase: Phase, active: int)
    requires CanMove(sh, p, a) && Fits(sh, t, p, phase, active) && ReadsRight(sh, p) && !IsCounting(a)
    ensures var (sh', p') := Move(sh, t, p, a); StillFits(sh, sh', t, p, p', phase, active)
  {
    QuietKeepsPhase(sh, t, p, a, phase);
    var (sh', p') := Move(sh, t, p, a);
    SameCounts(sh, sh', phase, active);
  }

  lemma SameCounts(sh: Shared, sh': Shared, phase: Phase, active: int)
    requires CountsFit(sh, phase, active) && sh'.c == sh.c
    ensures CountsFit(sh', phase, active)
  {
  }

  lemma MovesKeepCounts(sh: Shared, t: Tid, p: Pc, a: Act, phase: Phase, active: int)
    requires CanMove(sh, p, a) && Fits(sh, t, p, phase, active) && active < INT_MAX && ReadsRight(sh, p)
    requires a.CountIn? ==> active + 1 < INT_MAX
    ensures var (sh', p') := Move(sh, t, p, a); StillFits(sh, sh', t, p, p', phase, active)
  {
    hide Move, Fits, StillFits, ReadsRight;
    match a
    case CountIn => CountInKeepsCounts(sh, t, phase, active);
    case DoNormalise => NormaliseKeepsCounts(sh, t, phase, active);
    case CountOut => CountOutKeepsCounts(sh, t, phase, active);
    case EnterWriter => EntryKeepsCounts(sh, t, phase, active);
    case TryEnterWriter => TryEntryKeepsCounts(sh, t, phase, active);
    case Check => CheckKeepsCounts(sh, t, p.ok, phase, active);
    case ClearShared => ClearKeepsCounts(sh, t, phase, active);
    case CountWriter => CountWriterKeepsCounts(sh, t, phase, active);
    case CountWriterOut => WriterOutKeepsCounts(sh, t, phase, active);
    case _ => QuietKeepsCounts(sh, t, p, a, phase, active);
  }

  /** A thread that holds the lock is told so by nExclusiveAccessCount. */
  lemma UnlockReadsRight(sh: Shared, t: Tid, p: Pc, phase: Phase, active: int)
    requires Fits(sh, t, p, phase, active)
    ensures ReadsRight(sh, p)
  {
  }

  lemma ThreadFits(s: State, t: Tid)
    requires Invariant(s) && t in s.pc
    ensures Fits(s.sh, t, s.pc[t], PhaseOf(HolderE(s)), ActiveReaders(s)) && ReadsRight(s.sh, s.pc[t])
  {
    assert OwnsWhatItShould(s.sh, t, s.pc[t]);
    Tally.AtLeast(s.pc, ActiveW, t);
    UnlockReadsRight(s.sh, t, s.pc[t], PhaseOf(HolderE(s)), ActiveReaders(s));
  }

  /** The writer goes to sleep only while there are readers inside, and the last of them goes on to
      signal it. */
  lemma SleeperHasReason(sh: Shared, t: Tid, p: Pc, a: Act)
    requires CanMove(sh, p, a) && OwnsWhatItShould(sh, t, p) && ReadsRight(sh, p)
    ensures SleeperMinded(sh, Move(sh, t, p, a).0, t, Move(sh, t, p, a).1)
  {
  }

  predicate SleeperMinded(sh: Shared, sh': Shared, t: Tid, p': Pc) {
    && (p' == WrAsleep(false) ==> sh'.c.completed < 0)
    && (sh.mtxE != Some(t) && sh.c.completed < 0 ==> sh'.c.completed < 0 || (p'.OutSignal? && sh'.mtxC == Some(t)))
  }

  /** Everything one thread's step has to take care of. */
  predicate Sound(sh: Shared, sh': Shared, t: Tid, p: Pc, p': Pc, phase: Phase, active: int) {
    && KeepsOwnership(sh, sh', t, p')
    && StillFits(sh, sh', t, p, p', phase, active) && SleeperMinded(sh, sh', t, p')
  }

  lemma MoveIsSound(sh: Shared, t: Tid, p: Pc, a: Act, phase: Phase, active: int)
    requires CanMove(sh, p, a) && Fits(sh, t, p, phase, active) && active < INT_MAX
    requires active - ActiveW(p) + ActiveW(Move(sh, t, p, a).1) < INT_MAX
    ensures Sound(sh, Move(sh, t, p, a).0, t, p, Move(sh, t, p, a).1, phase, active)
  {
    UnlockReadsRight(sh, t, p, phase, active);
    MovesKeepCounts(sh, t, p, a, phase, active);
    MoveKeepsOwnership(sh, t, p, a);
    SleeperHasReason(sh, t, p, a);
  }

  /** From one thread's step to the whole state. */
  lemma Install(s: State, t: Tid, sh': Shared, p': Pc)
    requires Invariant(s) && t in s.pc
    requires Sound(s.sh, sh', t, s.pc[t], p', PhaseOf(HolderE(s)), ActiveReaders(s))
    requires s.pc[t].OutSignal? ==> HolderE(s) != WrAsleep(false)
    ensures Invariant(State(sh', s.pc[t := p']))
  {
    var s' := State(sh', s.pc[t := p']);
    assert OwnsWhatItShould(s.sh, t, s.pc[t]);
    Tally.Update(s.pc, ActiveW, t, p');
    forall u | u in s'.pc ensures OwnsWhatItShould(s'.sh, u, s'.pc[u]) {
      assert OwnsWhatItShould(s.sh, u, s.pc[u]);
    }
    SleeperAfter(s, t, sh', p');
  }

  lemma SleeperAfter(s: State, t: Tid, sh': Shared, p': Pc)
    requires Invariant(s) && t in s.pc
    requires OwnsWhatItShould(sh', t, p') && OnlyOwn(s.sh.mtxE, sh'.mtxE, t) && OnlyOwn(s.sh.mtxC, sh'.mtxC, t)
    requires SleeperMinded(s.sh, sh', t, p')
    requires s.pc[t].OutSignal? ==> HolderE(s) != WrAsleep(false)
    ensures var s' := State(sh', s.pc[t := p']);
            HolderE(s') == WrAsleep(false) ==> sh'.c.completed < 0 || HolderC(s').OutSignal?
  {
    assert OwnsWhatItShould(s.sh, t, s.pc[t]);
    var s' := State(sh', s.pc[t := p']);
    if HolderE(s') == WrAsleep(false) && sh'.mtxE != Some(t) {
      assert HolderE(s) == WrAsleep(false);
      if s.sh.c.completed >= 0 {
        assert OwnsWhatItShould(s.sh, s.sh.mtxC.value, HolderC(s));
      }
    }
  }

  /** Waking the writer changes nothing that is counted. */
  lemma WakingHarmless(s: State)
    requires Invariant(s)
    ensures var w := State(s.sh, WakeWriter(s));
            && Invariant(w) && w.pc.Keys == s.pc.Keys && ActiveReaders(w) == ActiveReaders(s)
            && HolderE(w) != WrAsleep(false)
    ensures forall t :: t in s.pc && !s.pc[t].WrAsleep? ==> WakeWriter(s)[t] == s.pc[t]
  {
    if WakeWriter(s) != s.pc {
      Tally.Update(s.pc, ActiveW, s.sh.mtxE.value, WrAsleep(true));
    }
  }

  /** The step of t alone, without the effect of a signal on the writer. */
  lemma GoKeepsInvariant(s: State, t: Tid, a: Act, sh': Shared, p': Pc)
    requires Invariant(s) && Enabled(s, t, a) && Move(s.sh, t, s.pc[t], a) == (sh', p')
    requires a.DoSignal? ==> HolderE(s) != WrAsleep(false)
    requires ActiveReaders(s) < INT_MAX && ActiveReaders(State(sh', s.pc[t := p'])) < INT_MAX
    ensures Invariant(State(sh', s.pc[t := p']))
  {
    ThreadFits(s, t);
    Tally.Update(s.pc, ActiveW, t, p');
    MoveIsSound(s.sh, t, s.pc[t], a, PhaseOf(HolderE(s)), ActiveReaders(s));
    Install(s, t, sh', p');
  }

  lemma StepKeepsInvariant(s: State, t: Tid, a: Act)
    requires Invariant(s) && Enabled(s, t, a) && ActiveReaders(s) < INT_MAX && ActiveReaders(Apply(s, t, a)) < INT_MAX
    ensures Invariant(Apply(s, t, a))
  {
    var (sh', p') := Move(s.sh, t, s.pc[t], a);
    if a.DoSignal? {
      WakingHarmless(s);
      GoKeepsInvariant(State(s.sh, WakeWriter(s)), t, a, sh', p');
    } else {
      GoKeepsInvariant(s, t, a, sh', p');
    }
  }

  lemma {:induction false} RunKeepsInvariant(ss: seq<State>)
    requires Run(ss)
    ensures Invariant(ss[|ss| - 1]) && ActiveReaders(ss[|ss| - 1]) < INT_MAX
  {
    if |ss| == 1 {
      Tally.Nobody(ss[0].pc, ActiveW);
    } else {
      var k := |ss| - 1;
      assert Next(ss[k - 1], ss[k - 1 + 1]);
      RunKeepsInvariant(ss[..k]);
      var t, a :| Enabled(ss[k - 1], t, a) && ss[k] == Apply(ss[k - 1], t, a);
      StepKeepsInvariant(ss[k - 1], t, a);
    }
  }
}
