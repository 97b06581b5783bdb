/** The list of the robust mutexes a thread holds: ptw32_robust_mutex_add and
    ptw32_robust_mutex_remove of pthread_mutex_consistent.c, and the loop of
    pthread_win32_thread_detach_np.

    A mutex is linked through its robust node; a thread unlocks its mutexes in any order. */
module RobustList {

  /** stateInconsistent after the owner's death. */
  const OWNER_DIED := -1

  function At(s: seq<RobustMutex>, i: int): RobustMutex? { if 0 <= i < |s| then s[i] else null }

  function RemoveAt(s: seq<RobustMutex>, i: nat): seq<RobustMutex>
    requires i < |s|
  {
    s[..i] + s[i + 1..]
  }

  /** The mutex and its robust node. */
  class RobustMutex {
    var ownerThread: HolderThread?
    var stateInconsistent: int
    var event: bool
    var prev: RobustMutex?
    var next: RobustMutex?

    constructor ()
      ensures ownerThread == null && stateInconsistent == 0 && !event
    {
      ownerThread, stateInconsistent, event, prev, next := null, 0, false, null, null;
    }
  }

  /** The i-th mutex on thread t's list s is linked to its neighbours and owned by t. */
  ghost predicate Links(s: seq<RobustMutex>, t: HolderThread, i: int)
    reads s`ownerThread, s`next, s`prev
  {
    0 <= i < |s| ==> s[i].ownerThread == t && s[i].next == At(s, i + 1) && s[i].prev == At(s, i - 1)
  }

  predicate Apart(s: seq<RobustMutex>, i: int, j: int) { 0 <= i < j < |s| ==> s[i] != s[j] }

  class HolderThread {
    var robustMxList: RobustMutex?
    ghost var chain: seq<RobustMutex>

    constructor ()
      ensures Ok() && chain == []
    {
      robustMxList, chain := null, [];
    }

    ghost predicate Ok()
      reads this, chain`ownerThread, chain`next, chain`prev
    {
      robustMxList == At(chain, 0) && (forall i :: Links(chain, this, i)) && (forall i, j :: Apart(chain, i, j))
    }

    /** ptw32_robust_mutex_add, pthread_mutex_consistent.c:116-138. */
    method Add(mx: RobustMutex)
      requires Ok() && mx !in chain
      modifies this, mx`ownerThread, mx`prev, mx`next, chain`prev
      ensures Ok() && chain == [mx] + old(chain)
    {
      ghost var was := chain;
      assert Links(was, this, 0);
      mx.ownerThread := this;
      if robustMxList == null {
        mx.prev := null;
        mx.next := null;
        robustMxList := mx;
      } else {
        mx.prev := null;
        mx.next := robustMxList;
        robustMxList.prev := mx;
        robustMxList := mx;
      }
      chain := [mx] + chain;
      forall j ensures Links(chain, this, j) {
        assert old(Links(was, this, j - 1));
        assert Apart(was, 0, j - 1);
      }
      forall i, j ensures Apart(chain, i, j) {
        assert Apart(was, i - 1, j - 1);
      }
    }

    /** What is left of the list when the i-th mutex is taken off. */
    lemma LeftApart(i: nat)
      requires Ok() && i < |chain|
      ensures forall a, b :: Apart(RemoveAt(chain, i), a, b)
      ensures chain[i] !in RemoveAt(chain, i)
      ensures forall m :: m in chain && m != chain[i] ==> m in RemoveAt(chain, i)
    {
      var r := RemoveAt(chain, i);
      forall a, b ensures Apart(r, a, b) {
        assert Apart(chain, if a < i then a else a + 1, if b < i then b else b + 1);
      }
      forall j | 0 <= j < |chain| && j != i ensures chain[j] != chain[i] && chain[j] in r {
        assert Apart(chain, i, j) && Apart(chain, j, i);
        assert r[if j < i then j else j - 1] == chain[j];
      }
    }
  }

  /** ptw32_robust_mutex_remove, pthread_mutex_consistent.c:142-162: takes a mutex off the list of
      its owner, wherever it stands there. */
  method Remove(mx: RobustMutex, otp: HolderThread?, ghost i: nat)
    requires mx.ownerThread != null && mx.ownerThread.Ok()
    requires i < |mx.ownerThread.chain| && mx.ownerThread.chain[i] == mx
    modifies mx.ownerThread, mx`ownerThread, mx.ownerThread.chain`prev, mx.ownerThread.chain`next
    ensures old(mx.ownerThread).Ok() && old(mx.ownerThread).chain == RemoveAt(old(mx.ownerThread.chain), i)
    ensures mx.ownerThread == otp
  {
    var owner: HolderThread := mx.ownerThread;
    ghost var was := owner.chain;
    assert Links(was, owner, i) && Apart(was, 0, i);
    owner.LeftApart(i);
    mx.ownerThread := otp;
    if mx.next != null { mx.next.prev := mx.prev; }
    if mx.prev != null { mx.prev.next := mx.next; }
    if owner.robustMxList == mx { owner.robustMxList := mx.next; }
    owner.chain := RemoveAt(was, i);
    forall j ensures Links(owner.chain, owner, j) {
      var o := if j < i then j else j + 1;
      assert old(Links(was, owner, o));
      assert Apart(was, i, o) && Apart(was, o, i);
      assert Apart(was, i - 1, o) && Apart(was, o, i - 1) && Apart(was, i + 1, o) && Apart(was, o, i + 1);
    }
  }

  /** pthread_win32_attach_detach_np.c:224-237: the loop ends, the list is empty, and every mutex
      that was on it is marked and its event set; no other mutex is touched. */
  method GiveUpAll(sp: HolderThread)
    requires sp.Ok()
    modifies sp, sp.chain
    ensures sp.Ok() && sp.chain == [] && sp.robustMxList == null
    ensures forall m :: m in old(sp.chain) ==> m.stateInconsistent == OWNER_DIED && m.event && m.ownerThread == sp
  {
    ghost var was := sp.chain;
    ghost var n := 0;
    while sp.robustMxList != null
      invariant sp.Ok() && 0 <= n <= |was| && sp.chain == was[n..]
      invariant forall j :: 0 <= j < n ==> Marked(was[j], sp)
      decreases |was| - n
    {
      var mx := sp.robustMxList;
      assert Links(sp.chain, sp, 0);
      sp.LeftApart(0);
      Remove(mx, sp, 0);
      mx.stateInconsistent := OWNER_DIED;
      mx.event := true;
      forall j | 0 <= j < n ensures Marked(was[j], sp) { assert Apart(was, j, n); }
      n := n + 1;
    }
  }

  ghost predicate Marked(m: RobustMutex, sp: HolderThread)
    reads m`stateInconsistent, m`event, m`ownerThread
  {
    m.stateInconsistent == OWNER_DIED && m.event && m.ownerThread == sp
  }

  /** All threads and the mutexes they hold; `held` is history. */
  class Holdings {
    var threads: set<HolderThread>
    ghost var held: map<RobustMutex, HolderThread>

    constructor (threads: set<HolderThread>)
      requires forall t :: t in threads ==> t.Ok() && t.chain == []
      ensures this.threads == threads && held == map[] && Valid()
    {
      this.threads, held := threads, map[];
    }

    ghost predicate ListFits(t: HolderThread)
      reads this`held, t, held.Keys
    {
      (forall m :: m in t.chain ==> m in held && held[m] == t) && t.Ok()
    }

    ghost predicate InPlace(m: RobustMutex)
      requires m in held
      reads this, threads
    {
      held[m] in threads && m in held[m].chain
    }

    /** Each thread's list holds exactly the mutexes it holds. */
    ghost predicate Valid()
      reads this, threads, held.Keys
    {
      && (forall t {:trigger ListFits(t)} :: t in threads ==> ListFits(t))
      && (forall m {:trigger InPlace(m)} :: m in held ==> InPlace(m))
    }

    /** Thread t has just acquired a mutex nobody holds. */
    method Acquire(t: HolderThread, m: RobustMutex)
      requires Valid() && t in threads && m !in held
      modifies this`held, t, t.chain, m
      ensures Valid() && held == old(held)[m := t] && t.chain == [m] + old(t.chain)
    {
      assert ListFits(t);
      t.Add(m);
      held := held[m := t];
      forall u | u in threads ensures ListFits(u) {
        if u != t {
          assert old(ListFits(u));
          assert forall n :: n in u.chain ==>
                   n.ownerThread == old(n.ownerThread) && n.next == old(n.next) && n.prev == old(n.prev);
        }
      }
      forall n | n in held ensures InPlace(n) { if n != m { assert old(InPlace(n)); } }
    }

    /** Thread t unlocks any of the mutexes it holds. */
    method Release(t: HolderThread, m: RobustMutex)
      requires Valid() && m in held && held[m] == t
      modifies this`held, t, t.chain
      ensures Valid() && held == old(held) - {m} && m.ownerThread == null
      ensures exists i :: 0 <= i < |old(t.chain)| && old(t.chain)[i] == m && t.chain == RemoveAt(old(t.chain), i)
    {
      assert InPlace(m) && ListFits(t);
      ghost var i :| 0 <= i < |t.chain| && t.chain[i] == m;
      assert Links(t.chain, t, i);
      t.LeftApart(i);
      Remove(m, null, i);
      held := held - {m};
      forall u | u in threads ensures ListFits(u) {
        if u != t {
          assert old(ListFits(u));
          assert forall n :: n in u.chain ==>
                   n.ownerThread == old(n.ownerThread) && n.next == old(n.next) && n.prev == old(n.prev);
        }
      }
      forall n | n in held ensures InPlace(n) { assert old(InPlace(n)); }
    }

    /** Thread t ends. */
    method Die(t: HolderThread)
      requires Valid() && t in threads
      modifies this`held, t, t.chain
      ensures Valid() && t.chain == [] && held == map m | m in old(held) && old(held)[m] != t :: old(held)[m]
      ensures forall m :: m in old(held) && old(held)[m] == t ==> m.stateInconsistent == OWNER_DIED && m.event
    {
      assert ListFits(t);
      forall m | m in held && held[m] == t ensures m in t.chain { assert InPlace(m); }
      GiveUpAll(t);
      held := map m | m in held && held[m] != t :: held[m];
      forall u | u in threads ensures ListFits(u) {
        if u != t {
          assert old(ListFits(u));
          assert forall n :: n in u.chain ==>
                   n.ownerThread == old(n.ownerThread) && n.next == old(n.next) && n.prev == old(n.prev);
        }
      }
      forall n | n in held ensures InPlace(n) { assert old(InPlace(n)); }
    }
  }
}
