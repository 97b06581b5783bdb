/** What barriers promise, over whole runs of the machine of module Barrier: nobody leaves early, rounds
    are complete and do not overlap, and what a stuck barrier waits for. */
module BarrierLaws {
  import opened Barrier
  import Tally

  // ----- what holds in every reachable state ---------------------------------------------------

  ghost predicate Reachable(s: State) {
    exists ss :: Run(ss) && ss[|ss| - 1] == s
  }

  lemma ReachableInvariant(s: State)
    requires Reachable(s)
    ensures Invariant(s)
  {
    var ss :| Run(ss) && ss[|ss| - 1] == s;
    RunKeepsInvariant(ss);
  }

  /** Nobody gets past the semaphore, and so out of the barrier, before n threads have come in. */
  lemma NobodyLeavesEarly(s: State, t: Tid)
    requires Reachable(s) && t in s.pc && (s.pc[t].Crossing? || s.pc[t].Closing?)
    ensures |s.sh.came| == s.sh.n && t in s.sh.came
  {
    ReachableInvariant(s);
    assert ThreadOk(s.sh, t, s.pc[t]);
    Counted(s, t, s.pc[t]);
  }

  /** In every round that is over, n threads came in, the same n went out, and exactly one of them
      was told to be the serial thread. */
  lemma RoundsComplete(s: State, i: nat)
    requires Reachable(s) && i < |s.sh.rounds|
    ensures var r := s.sh.rounds[i];
            |r.came| == s.sh.n && r.left == r.came && exists t :: t in r.came && r.serial == {t}
  {
    ReachableInvariant(s);
    var r := s.sh.rounds[i];
    assert Complete(r, s.sh.n);
    var t :| t in r.serial;
    assert |r.serial - {t}| == 0;
    assert r.serial == {t};
  }

  /** Nobody comes into a round before everybody has gone out of the one before, and every round
      starts at full height with an empty semaphore. */
  lemma RoundsDoNotOverlap(s: State, t: Tid)
    requires Reachable(s) && t in s.pc && s.pc[t].Arriving?
    ensures s.sh.left == {} && t !in s.sh.came && |s.sh.came| < s.sh.n && s.sh.sem == 0
    ensures forall u :: u in s.pc ==> (u in s.sh.came <==> Inside(s.pc[u])) && !s.pc[u].Crossing? && !s.pc[u].Closing?
    ensures s.sh.came == {} ==> s.sh.height == s.sh.n
  {
    ReachableInvariant(s);
    assert ThreadOk(s.sh, t, s.pc[t]);
    Counted(s, t, s.pc[t]);
    forall u | u in s.pc ensures (u in s.sh.came <==> Inside(s.pc[u])) && !s.pc[u].Crossing? && !s.pc[u].Closing? {
      assert ThreadOk(s.sh, u, s.pc[u]);
      Counted(s, u, s.pc[u]);
    }
    if Count(s).moves > 0 { MoverHasLock(s); }
  }

  /** The lock is released exactly once for each time it is taken, by the right node: by its taker
      or, for the last one in, by the last one out. The height never leaves 0..n. */
  lemma HeightInRange(s: State, t: Tid)
    requires Reachable(s) && t in s.pc
    ensures 0 <= s.sh.height <= s.sh.n && s.sh.sem >= 0
    ensures s.pc[t].Closing? ==> s.sh.lock.Proxy? && forall u :: u in s.pc && s.pc[u].Closing? ==> u == t
    ensures s.pc[t].Moving? ==> s.sh.lock == By(t)
  {
    ReachableInvariant(s);
    assert ThreadOk(s.sh, t, s.pc[t]);
    Counted(s, t, s.pc[t]);
    forall u | u in s.pc && s.pc[u].Closing? && s.pc[t].Closing? ensures u == t {
      if u != t { Tally.AtLeastTwo(s.pc, ClosesW, t, u); }
    }
  }

  lemma OwnerGoesOn(s: State)
    requires Invariant(s) && s.sh.lock.By?
    ensures Enabled(s, s.sh.lock.t) && !s.pc[s.sh.lock.t].Outside?
  {
    assert ThreadOk(s.sh, s.sh.lock.t, s.pc[s.sh.lock.t]);
  }

  /** If nobody can go on, then the barrier waits for threads that have not come yet: the lock is
      free, and the fewer than n threads that have come all wait. */
  lemma NoDeadlock(s: State)
    requires Reachable(s) && forall t :: t in s.pc && !s.pc[t].Outside? ==> !Enabled(s, t)
    ensures s.sh.lock.Free? && |s.sh.came| < s.sh.n
    ensures forall t :: t in s.pc ==> s.pc[t].Outside? || s.pc[t].Waiting?
  {
    ReachableInvariant(s);
    if s.sh.lock.By? { OwnerGoesOn(s); }
    forall t | t in s.pc ensures s.pc[t].Outside? || (s.pc[t].Waiting? && s.sh.sem <= 0) {
      if !s.pc[t].Outside? { assert !Enabled(s, t); }
    }
    Tally.Nobody(s.pc, CrossesW);
    Tally.Nobody(s.pc, OpensW);
    Tally.Nobody(s.pc, MovesW);
    Tally.Nobody(s.pc, ClosesW);
    if Count(s).waits > 0 { var u := Tally.Witness(s.pc, WaitsW); }
  }
}
