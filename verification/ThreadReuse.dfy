/** Recycling of thread handles: ptw32_reuse.c, ptw32_new.c and ptw32_threadDestroy.c.

    A handle is the address of a thread struct and a reuse counter. Structs are never freed; those
    of destroyed threads wait in a queue. A link that is EMPTY or NULL is null here. */
module ThreadReuse {

  const UINT_RANGE: nat := 0x1_0000_0000

  datatype State = Initial | Reuse

  /** pthread_t; null stands for the nil handle's address. */
  datatype Handle = Handle(p: ThreadStruct?, x: nat)

  /** ptw32_thread_t. How often it has been recycled is history. */
  class ThreadStruct {
    var ptHandle: Handle
    var prevReuse: ThreadStruct?
    var seqNumber: nat
    var state: State
    ghost var recycled: nat

    constructor ()
      ensures ptHandle == Handle(null, 0) && recycled == 0
    {
      ptHandle, prevReuse, seqNumber, state, recycled := Handle(null, 0), null, 0, Initial, 0;
    }

    /** The struct's own handle names it, and counts its lives, as far as 32 bits go. */
    ghost predicate HandleOk()
      reads this`ptHandle, this`recycled
    {
      ptHandle == Handle(this, recycled % UINT_RANGE)
    }
  }

  /** A handle given out for the life that struct p began after n recyclings. */
  datatype Issue = Issue(p: ThreadStruct, n: nat)

  function HandleOf(i: Issue): Handle { Handle(i.p, i.n % UINT_RANGE) }

  predicate Apart(s: seq<ThreadStruct>, i: int, j: int) { 0 <= i < j < |s| ==> s[i] != s[j] }

  function At(s: seq<ThreadStruct>, i: int): ThreadStruct? { if 0 <= i < |s| then s[i] else null }

  ghost predicate Linked(s: seq<ThreadStruct>, i: int)
    reads s`prevReuse
  {
    0 <= i < |s| ==> s[i].prevReuse == At(s, i + 1)
  }

  class Threads {
    var threadReuseTop: ThreadStruct?
    var threadReuseBottom: ThreadStruct?
    var threadSeqNumber: nat
    ghost var pool: seq<ThreadStruct>     // the structs that wait, in the order of the queue
    ghost var live: set<ThreadStruct>     // the structs of the threads there are
    ghost var issued: seq<Issue>          // the handles given out so far

    constructor ()
      ensures Valid() && pool == [] && live == {} && issued == []
    {
      threadReuseTop, threadReuseBottom, threadSeqNumber := null, null, 0;
      pool, live, issued := [], {}, [];
    }

    /** The queue is well formed. */
    ghost predicate QueueOk()
      reads this, pool`prevReuse
    {
      && threadReuseTop == At(pool, 0) && threadReuseBottom == At(pool, |pool| - 1)
      && (forall i :: Linked(pool, i)) && (forall i, j :: Apart(pool, i, j))
    }

    /** A handle given out names a struct that lives, waits, or is being made ready, and if the
        struct does not live, the handle is for an earlier life. */
    ghost predicate IssueOk(j: int, ready: set<ThreadStruct>)
      reads this`issued, this`live, this`pool, live`recycled, pool`recycled, ready`recycled
    {
      0 <= j < |issued| ==>
        var i := issued[j];
        && (i.p in pool || i.p in live || i.p in ready)
        && (if i.p in live then i.n <= i.p.recycled else i.n < i.p.recycled)
    }

    /** Each handle for a struct stands for a later life than the one before. */
    ghost predicate Later(i: int, j: int)
      reads this`issued
    {
      0 <= i < j < |issued| && issued[i].p == issued[j].p ==> issued[i].n < issued[j].n
    }

    ghost predicate Valid()
      reads this, pool, live
    {
      ValidWith({})
    }

    /** The same while some structs are neither waiting nor alive. */
    ghost predicate ValidWith(ready: set<ThreadStruct>)
      reads this, pool, live, ready
    {
      && QueueOk()
      && (forall t :: t in live ==> t !in pool && t !in ready && t.HandleOk())
      && (forall t :: t in pool ==> t !in ready && t.HandleOk() && t.state == Reuse)
      && (forall t :: t in ready ==> t.HandleOk())
      && (forall j :: IssueOk(j, ready)) && (forall i, j :: Later(i, j))
    }

    /** ptw32_threadReusePop, ptw32_reuse.c:78-103: the struct that has waited longest. */
    method Pop() returns (t: Handle)
      requires Valid()
      modifies this`threadReuseTop, this`threadReuseBottom, this`pool, pool`prevReuse
      ensures QueueOk()
      ensures if old(pool) == [] then pool == [] && t == Handle(null, 0)
              else pool == old(pool)[1..] && t == old(pool)[0].ptHandle && t.p == old(pool)[0]
    {
      t := Handle(null, 0);
      if threadReuseTop != null {
        ghost var was := pool;
        assert Linked(was, 0) && was[0] in was;
        var tp := threadReuseTop;
        threadReuseTop := tp.prevReuse;
        if threadReuseTop == null { threadReuseBottom := null; }
        tp.prevReuse := null;
        pool := pool[1..];
        t := tp.ptHandle;
        forall i ensures Linked(pool, i) {
          assert old(Linked(was, i + 1));
          assert Apart(was, 0, i + 1);
        }
        forall i, j ensures Apart(pool, i, j) { assert Apart(was, i + 1, j + 1); }
      }
    }

    /** ptw32_threadReusePush, ptw32_reuse.c:116-150. */
    method Push(tp: ThreadStruct)
      requires QueueOk() && tp !in pool && tp.HandleOk()
      modifies this`threadReuseTop, this`threadReuseBottom, this`pool, tp, pool`prevReuse
      ensures QueueOk() && pool == old(pool) + [tp]
      ensures tp.HandleOk() && tp.recycled == old(tp.recycled) + 1 && tp.state == Reuse
      // the counter is bumped, so the struct's handle is no longer the one that copies hold
      ensures tp.ptHandle.p == tp && tp.ptHandle.x != old(tp.ptHandle.x)
    {
      ghost var was := pool;
      var t := tp.ptHandle;
      tp.prevReuse, tp.seqNumber, tp.state := null, 0, Initial;
      tp.ptHandle := t.(x := (t.x + 1) % UINT_RANGE);
      tp.recycled := tp.recycled + 1;
      tp.state := Reuse;
      tp.prevReuse := null;
      if threadReuseBottom != null {
        threadReuseBottom.prevReuse := tp;
      } else {
        threadReuseTop := tp;
      }
      threadReuseBottom := tp;
      pool := pool + [tp];
      forall i ensures Linked(pool, i) {
        assert old(Linked(was, i));
        assert Apart(was, i, |was| - 1);
      }
      forall i, j ensures Apart(pool, i, j) { assert Apart(was, i, j); }
    }

    /** ptw32_new.c:51: a struct from the pool is made ready. */
    method PopReady() returns (t: Handle)
      requires Valid()
      modifies this`threadReuseTop, this`threadReuseBottom, this`pool, pool`prevReuse
      ensures old(pool) == [] ==> Valid() && pool == [] && t.p == null
      ensures old(pool) != [] ==> pool == old(pool)[1..] && t.p == old(pool)[0] && t.p !in live && ValidWith({t.p})
    {
      ghost var was := pool;
      t := Pop();
      if t.p != null {
        assert was == [t.p] + pool && t.p in was;
        forall i | 0 <= i < |pool| ensures pool[i] != t.p { assert Apart(was, 0, i + 1); }
        forall j ensures IssueOk(j, {t.p}) { assert old(IssueOk(j, {})); }
        forall i, j ensures Later(i, j) { assert old(Later(i, j)); }
      }
    }

    /** ptw32_new.c:51-70; `memory` is whether calloc succeeds. */
    method Take(memory: bool) returns (tp: ThreadStruct?)
      requires Valid()
      modifies this`threadReuseTop, this`threadReuseBottom, this`pool, pool`prevReuse
      ensures tp == null <==> !memory && old(pool) == []
      ensures tp == null ==> Valid() && pool == []
      ensures tp != null ==> ValidWith({tp}) && tp !in live
      ensures tp != null ==>
                if old(pool) == [] then fresh(tp) && pool == [] else tp == old(pool)[0] && pool == old(pool)[1..]
    {
      var t := PopReady();
      if t.p != null { return t.p; }
      if !memory { return null; }
      tp := new ThreadStruct();
      tp.ptHandle := Handle(tp, 0);
      forall j ensures IssueOk(j, {tp}) { assert old(IssueOk(j, {})); }
    }

    /** A struct that was made ready goes back to the queue: ptw32_new.c:88. */
    method PutBack(tp: ThreadStruct)
      requires ValidWith({tp})
      modifies this`threadReuseTop, this`threadReuseBottom, this`pool, tp, pool`prevReuse
      ensures Valid() && pool == old(pool) + [tp]
    {
      Push(tp);
      forall j ensures IssueOk(j, {}) { assert old(IssueOk(j, {tp})); }
      forall i, j ensures Later(i, j) { assert old(Later(i, j)); }
    }

    /** ptw32_new, ptw32_new.c:51-92; `memory` and `event` are whether calloc and CreateEvent succeed. */
    method New(memory: bool, event: bool) returns (h: Handle)
      requires Valid()
      modifies this, pool
      ensures Valid()
      // no handle: nobody lives who did not before; the struct of a failed attempt waits in the queue
      ensures h.p == null <==> !event || (!memory && old(pool) == [])
      ensures h.p == null ==> h.x == 0 && live == old(live) && issued == old(issued)
      // a handle for a new life of the struct that has waited longest, or of a new struct
      ensures h.p != null ==>
                && h.p !in old(live) && live == old(live) + {h.p}
                && (if old(pool) == [] then fresh(h.p) && pool == [] else h.p == old(pool)[0] && pool == old(pool)[1..])
                && issued == old(issued) + [Issue(h.p, h.p.recycled)] && h == HandleOf(Issue(h.p, h.p.recycled))
    {
      var nil := Handle(null, 0);
      var tp := Take(memory);
      if tp == null { return nil; }
      h := tp.ptHandle;
      threadSeqNumber := threadSeqNumber + 1;
      tp.seqNumber := threadSeqNumber;
      if !event {
        PutBack(tp);
        return nil;
      }
      Begin(tp);
    }

    /** The handle is given out. */
    ghost method Begin(tp: ThreadStruct)
      requires ValidWith({tp})
      modifies this`live, this`issued
      ensures Valid() && live == old(live) + {tp} && issued == old(issued) + [Issue(tp, tp.recycled)]
    {
      live, issued := live + {tp}, issued + [Issue(tp, tp.recycled)];
      forall j ensures IssueOk(j, {}) { assert old(IssueOk(j, {tp})); }
      forall i, j ensures Later(i, j) { assert old(Later(i, j)) && old(IssueOk(i, {tp})); }
    }

    /** ptw32_threadDestroy, ptw32_threadDestroy.c:43-78, of a thread that lives. */
    method Destroy(tp: ThreadStruct)
      requires Valid() && tp in live
      modifies this`threadReuseTop, this`threadReuseBottom, this`pool, this`live, tp, pool`prevReuse
      ensures Valid() && live == old(live) - {tp} && pool == old(pool) + [tp] && issued == old(issued)
    {
      live := live - {tp};
      Push(tp);
      forall j ensures IssueOk(j, {}) { assert old(IssueOk(j, {})); }
      forall i, j ensures Later(i, j) { assert old(Later(i, j)); }
    }

    /** No handle is given out for two lives until its struct has been recycled 2^32 times in between. */
    lemma HandlesUnique(i: nat, j: nat)
      requires Valid() && i < j < |issued| && HandleOf(issued[i]) == HandleOf(issued[j])
      ensures issued[i].p == issued[j].p && issued[j].n >= issued[i].n + UINT_RANGE
    {
      assert Later(i, j);
      SameRemainder(issued[i].n, issued[j].n);
    }

    /** A copy of a handle tells whether its life is over: it equals the handle in the struct while
        the life lasts, and after it differs until the struct has been recycled 2^32 times. */
    lemma StaleDiffers(j: nat)
      requires Valid() && j < |issued|
      ensures var i := issued[j];
              && i.n <= i.p.recycled && (i.n < i.p.recycled <== i.p !in live)
              && (i.n == i.p.recycled ==> HandleOf(i) == i.p.ptHandle)
              && (i.n < i.p.recycled < i.n + UINT_RANGE ==> HandleOf(i) != i.p.ptHandle)
    {
      assert IssueOk(j, {});
      var i := issued[j];
      if i.n < i.p.recycled && HandleOf(i) == i.p.ptHandle { SameRemainder(i.n, i.p.recycled); }
    }
  }

  lemma SameRemainder(a: nat, b: nat)
    requires a < b && a % UINT_RANGE == b % UINT_RANGE
    ensures b >= a + UINT_RANGE
  {
    assert a == UINT_RANGE * (a / UINT_RANGE) + a % UINT_RANGE;
    assert b == UINT_RANGE * (b / UINT_RANGE) + b % UINT_RANGE;
  }
}
