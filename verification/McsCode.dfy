/** The code of ptw32_MCS_lock.c, and what it does when nobody interferes.

    The nodes are records in a map that the methods reassign. Each method is proved to do what the
    machine of module McsLock does for one operation alone, up to its end or to the point where it
    has to wait for another thread. */
module McsCode {
  import opened Common
  import opened McsLock

  // ----- one operation alone --------------------------------------------------------------------

  /** The step that the operation on a node takes next. */
  function OwnAct(p: Pc): Option<Act> {
    match p
    case Link(_) => Some(DoLink)
    case Set(_, _) => Some(DoSet)
    case Signal(_, _) => Some(DoSignal)
    case Wait(_, at) => Some(match at case Look => DoLook case Store => DoStore case Sleep => Wake)
    case ReadNext => Some(DoReadNext)
    case SwapTail => Some(DoSwapTail)
    case RereadNext => Some(DoRereadNext)
    case XferSwap(_) => Some(DoXferSwap)
    case XferSpin(_) => Some(DoXferSpin)
    case XferCopy(_) => Some(DoXferCopy)
    case _ => None
  }

  predicate CanGo(s: State, n: NodeId) {
    OwnAct(Get(s.nodes, n).pc).Some? && Enabled(s, n, OwnAct(Get(s.nodes, n).pc).value)
  }

  function Go(s: State, n: NodeId): State
    requires CanGo(s, n)
  {
    Apply(s, n, OwnAct(Get(s.nodes, n).pc).value)
  }

  /** How far an operation is from its end. */
  function Distance(p: Pc): nat {
    match p
    case Link(_) => 9
    case Set(_, w) => if w == Next then 8 else 3
    case Signal(_, w) => if w == Next then 7 else 2
    case Wait(w, at) => (if w == Next then 7 else 3) + (match at case Look => 3 case Store => 2 case Sleep => 1)
    case ReadNext => 12
    case SwapTail => 11
    case RereadNext => 7
    case XferSwap(_) => 3
    case XferSpin(_) => 2
    case XferCopy(_) => 1
    case _ => 0
  }

  predicate Transfers(p: Pc) { p.XferSwap? || p.XferSpin? || p.XferCopy? }

  lemma TransferGetsNearer(s: State, n: NodeId)
    requires CanGo(s, n) && Transfers(Get(s.nodes, n).pc)
    ensures Distance(Get(Go(s, n).nodes, n).pc) < Distance(Get(s.nodes, n).pc)
  {
  }

  lemma OthersGetNearer(s: State, n: NodeId)
    requires CanGo(s, n) && !Transfers(Get(s.nodes, n).pc)
    ensures Distance(Get(Go(s, n).nodes, n).pc) < Distance(Get(s.nodes, n).pc)
  {
    hide Rename, Enqueue;
  }

  lemma GoGetsNearer(s: State, n: NodeId)
    requires CanGo(s, n)
    ensures Distance(Get(Go(s, n).nodes, n).pc) < Distance(Get(s.nodes, n).pc)
  {
    hide Go, Distance;
    if Transfers(Get(s.nodes, n).pc) { TransferGetsNearer(s, n); } else { OthersGetNearer(s, n); }
  }

  /** The operation on node n goes on as far as it can without the others. */
  function Alone(s: State, n: NodeId): State
    decreases Distance(Get(s.nodes, n).pc)
  {
    if CanGo(s, n) then
      GoGetsNearer(s, n);
      Alone(Go(s, n), n)
    else s
  }

  lemma OneStep(s: State, n: NodeId, a: Act)
    requires OwnAct(Get(s.nodes, n).pc) == Some(a) && Enabled(s, n, a)
    ensures Alone(s, n) == Alone(Apply(s, n, a), n)
  {
  }

  lemma Stuck(s: State, n: NodeId)
    requires !CanGo(s, n)
    ensures Alone(s, n) == s
  {
  }

  // ----- the code -------------------------------------------------------------------------------

  /** The fields of a node that the code reads and writes. */
  datatype Cell = Cell(next: Option<NodeId>, ready: Flag, nextf: Flag)
  {
    function Flag(w: Which): Flag { if w == Ready then ready else nextf }
    function WithFlag(w: Which, f: Flag): Cell { if w == Ready then this.(ready := f) else this.(nextf := f) }
  }

  function CellOf(r: Node): Cell { Cell(r.next, r.ready, r.nextf) }

  function Read(m: map<NodeId, Cell>, n: NodeId): Cell { if n in m then m[n] else Cell(None, Clear, Clear) }

  /** The lock word and the nodes. The ghost fields say of every node where its operation stands, and
      keep the history. */
  class QueueLock {
    var tail: Option<NodeId>
    var cells: map<NodeId, Cell>
    ghost var nodes: map<NodeId, Node>
    ghost var queue: seq<NodeId>
    ghost var enqueued: nat
    ghost var released: nat
    ghost var passing: Option<NodeId>

    constructor ()
      ensures Valid() && Init(View())
    {
      tail, cells := None, map[];
      nodes, queue, enqueued, released, passing := map[], [], 0, 0, None;
    }

    ghost predicate Valid()
      reads this
    {
      forall k :: Read(cells, k) == CellOf(Get(nodes, k))
    }

    ghost function View(): State
      reads this
    {
      State(tail, nodes, queue, enqueued, released, passing)
    }

    ghost method Goto(n: NodeId, p: Pc)
      requires Valid()
      modifies this`nodes
      ensures Valid() && View() == old(View()).Goto(n, p)
    {
      nodes := Write(nodes, n, Get(nodes, n).(pc := p));
    }

    method SetFlag(x: NodeId, w: Which, f: Flag)
      requires Valid()
      modifies this`cells, this`nodes
      ensures Valid() && View() == old(View()).Put(x, Get(old(nodes), x).WithFlag(w, f))
    {
      cells := cells[x := Read(cells, x).WithFlag(w, f)];
      nodes := Write(nodes, x, Get(nodes, x).WithFlag(w, f));
    }

    method StoreNext(x: NodeId, next: NodeId)
      requires Valid()
      modifies this`cells, this`nodes
      ensures Valid() && View() == old(View()).Put(x, Get(old(nodes), x).(next := Some(next)))
    {
      cells := cells[x := Read(cells, x).(next := Some(next))];
      nodes := Write(nodes, x, Get(nodes, x).(next := Some(next)));
    }

    /** A node fresh on the caller's stack. */
    method Place(n: NodeId, next: Option<NodeId>, ghost p: Pc, ghost ticket: nat, ghost ahead: NodeId)
      requires Valid()
      modifies this`cells, this`nodes
      ensures Valid() && View() == old(View()).Put(n, NewNode(p, ticket, ahead).(next := next))
    {
      cells := cells[n := Cell(next, Clear, Clear)];
      nodes := Write(nodes, n, NewNode(p, ticket, ahead).(next := next));
    }

    /** Raising a readyFlag, or finding an event in it, is the moment the lock changes hands. */
    ghost method PassOn()
      modifies this`queue, this`released
      ensures View() == HandOver(old(View()))
    {
      if |queue| > 0 { queue, released := queue[1..], released + 1; }
    }

    /** Who was first in line is not any more. */
    ghost predicate HandedOn(line: seq<NodeId>, times: nat)
      reads this`queue, this`released
    {
      |line| > 0 ==> queue == line[1..] && released == times + 1
    }

    /** ptw32_mcs_flag_set, 103-114: the operation on n sets a flag of x. */
    method FlagSet(n: NodeId, x: NodeId, w: Which)
      requires Valid() && Get(nodes, n).pc == Set(x, w)
      modifies this`cells, this`nodes, this`queue, this`released, this`passing
      ensures Valid() && Alone(View(), n) == Alone(old(View()), n) && Get(nodes, n).pc == AfterSet(w)
      ensures if w == Ready then HandedOn(old(queue), old(released))
              else queue == old(queue) && released == old(released)
    {
      hide Alone, Rename, Enqueue;
      OneStep(View(), n, DoSet);
      var e := Read(cells, x).Flag(w);
      if w == Ready { PassOn(); }
      if e == Clear {
        SetFlag(x, w, Raised);
        Goto(n, AfterSet(w));
      } else {
        if w == Ready { passing := Some(n); }
        Goto(n, Signal(x, w));
        SignalEvent(n, x, w);
      }
    }

    /** 112: SetEvent. */
    method SignalEvent(n: NodeId, x: NodeId, w: Which)
      requires Valid() && Get(nodes, n).pc == Signal(x, w)
      modifies this`cells, this`nodes, this`passing
      ensures Valid() && Alone(View(), n) == Alone(old(View()), n) && Get(nodes, n).pc == AfterSet(w)
    {
      hide Alone;
      OneStep(View(), n, DoSignal);
      if w == Ready { passing := None; }
      SetFlag(x, w, Event(true));
      Goto(n, AfterSet(w));
    }

    /** ptw32_mcs_flag_wait, 123-144: true if it has to sleep. */
    method FlagWait(n: NodeId, w: Which) returns (asleep: bool)
      requires Valid() && Get(nodes, n).pc == Wait(w, Look)
      modifies this`cells, this`nodes
      ensures Valid() && Alone(View(), n) == Alone(old(View()), n)
      ensures asleep <==> old(Get(nodes, n).Flag(w)) == Clear
      ensures if asleep then Get(nodes, n).pc == Wait(w, Sleep) && Get(nodes, n).Flag(w) == Event(false)
              else Get(nodes, n).pc == AfterWait(w)
    {
      hide Alone;
      OneStep(View(), n, DoLook);
      asleep := Read(cells, n).Flag(w) == Clear;
      if asleep {
        Goto(n, Wait(w, Store));
        asleep := StoreEvent(n, w);
      } else {
        Goto(n, AfterWait(w));
      }
    }

    /** 133-142, whatever has happened to the flag since it was looked at: an event is stored in it, or
        it has been set meanwhile and there is nothing to wait for. */
    method StoreEvent(n: NodeId, w: Which) returns (asleep: bool)
      requires Valid() && Get(nodes, n).pc == Wait(w, Store)
      modifies this`cells, this`nodes
      ensures Valid() && Alone(View(), n) == Alone(old(View()), n)
      ensures asleep <==> old(Get(nodes, n).Flag(w)) == Clear
      ensures if asleep then Get(nodes, n).pc == Wait(w, Sleep) && Get(nodes, n).Flag(w) == Event(false)
              else Get(nodes, n).pc == AfterWait(w) && Get(nodes, n).Flag(w) == old(Get(nodes, n).Flag(w))
    {
      hide Alone;
      OneStep(View(), n, DoStore);
      asleep := Read(cells, n).Flag(w) == Clear;
      if asleep {
        ghost var r := Get(nodes, n).WithFlag(w, Event(false)).(pc := Wait(w, Sleep));
        SetFlag(n, w, Event(false));
        Goto(n, Wait(w, Sleep));
        assert nodes == Write(old(nodes), n, r);
      } else {
        Goto(n, AfterWait(w));
      }
    }

    /** ptw32_mcs_lock_acquire, 158-178: true if it has to sleep. */
    method Acquire(n: NodeId) returns (asleep: bool)
      requires Valid() && n !in nodes
      modifies this
      ensures Valid() && View() == Alone(Apply(old(View()), n, McsLock.Acquire), n)
      ensures asleep <==> Get(nodes, n).pc != Holding
      // it is the last in line, and waits unless it is the first
      ensures queue == old(queue) + [n] && released == old(released) && tail == Some(n)
      ensures old(tail).None? ==> !asleep
      ensures asleep ==> Get(nodes, n).pc == Wait(Ready, Sleep) && Get(nodes, n).ready == Event(false)
    {
      hide Alone, Enqueue, Rename, SetReady, SetNext;
      var pred := SwapTailFor(n);
      if pred.Some? {
        asleep := LinkBehind(n, pred.value);
      } else {
        Stuck(View(), n);
        asleep := false;
      }
    }

    /** 162-169. */
    method SwapTailFor(n: NodeId) returns (pred: Option<NodeId>)
      requires Valid()
      modifies this
      ensures Valid() && View() == Enqueue(old(View()), n) && pred == old(tail)
      ensures Get(nodes, n).pc == if pred.None? then Holding else Link(pred.value)
      ensures queue == old(queue) + [n] && released == old(released) && tail == Some(n)
    {
      pred := tail;
      tail := Some(n);
      if pred.None? {
        Place(n, None, Holding, enqueued, 0);
      } else {
        Place(n, None, Link(pred.value), enqueued, pred.value);
      }
      queue, enqueued := queue + [n], enqueued + 1;
    }

    /** 174-176. */
    method LinkBehind(n: NodeId, pred: NodeId) returns (asleep: bool)
      requires Valid() && Get(nodes, n).pc == Link(pred)
      modifies this`cells, this`nodes, this`queue, this`released, this`passing
      ensures Valid() && View() == Alone(old(View()), n)
      ensures asleep <==> Get(nodes, n).pc != Holding
      ensures queue == old(queue) && released == old(released) && tail == old(tail)
      ensures asleep ==> Get(nodes, n).pc == Wait(Ready, Sleep) && Get(nodes, n).ready == Event(false)
    {
      hide Alone, Apply;
      StoreLink(n, pred);
      FlagSet(n, pred, Next);
      asleep := FlagWait(n, Ready);
      Stuck(View(), n);
    }

    /** 174. */
    method StoreLink(n: NodeId, pred: NodeId)
      requires Valid() && Get(nodes, n).pc == Link(pred)
      modifies this`cells, this`nodes
      ensures Valid() && Alone(View(), n) == Alone(old(View()), n) && Get(nodes, n).pc == Set(pred, Next)
    {
      hide Alone;
      OneStep(View(), n, DoLink);
      StoreNext(pred, n);
      Goto(n, Set(pred, Next));
    }

    /** ptw32_mcs_lock_try_acquire, 229-240: true is EBUSY. */
    method TryAcquire(n: NodeId) returns (busy: bool)
      requires Valid() && n !in nodes
      modifies this
      ensures Valid() && View() == Apply(old(View()), n, McsLock.TryAcquire)
      ensures busy <==> old(tail).Some?
      ensures if busy then View() == old(View())
              else Get(nodes, n).pc == Holding && queue == old(queue) + [n] && released == old(released)
    {
      busy := tail.Some?;
      if !busy {
        tail := Some(n);
        Place(n, None, Holding, enqueued, 0);
        queue, enqueued := queue + [n], enqueued + 1;
      }
    }

    /** ptw32_mcs_lock_release, 192-220: true if it has to sleep. */
    method Release(n: NodeId) returns (asleep: bool)
      requires Valid() && Get(nodes, n).pc == Holding
      modifies this
      ensures Valid() && View() == Alone(Apply(old(View()), n, McsLock.Release), n)
      ensures asleep <==> Get(nodes, n).pc != Done
      // it has handed the lock on, or it has it still and waits for its successor's link
      ensures old(Invariant(View())) ==>
                && old(queue) != [] && old(queue)[0] == n
                && if asleep then WaitsForLink(n) && queue == old(queue) && released == old(released)
                   else queue == old(queue)[1..] && released == old(released) + 1
    {
      hide Alone, Rename, SetReady, SetNext, Enqueue;
      if Invariant(View()) { OwnerIsHead(View(), n); }
      hide Invariant;
      Goto(n, ReadNext);
      OneStep(View(), n, DoReadNext);
      var next := Read(cells, n).next;
      if next.None? {
        Goto(n, SwapTail);
        asleep := LeaveQueue(n);
        return;
      }
      Goto(n, Set(next.value, Ready));
      PassTo(n, next.value);
      return false;
    }

    ghost predicate WaitsForLink(n: NodeId)
      reads this`nodes
    {
      Get(nodes, n).pc == Wait(Next, Sleep) && Get(nodes, n).nextf == Event(false)
    }

    /** 219: the last thing a release does. */
    method PassTo(n: NodeId, x: NodeId)
      requires Valid() && Get(nodes, n).pc == Set(x, Ready)
      modifies this`cells, this`nodes, this`queue, this`released, this`passing
      ensures Valid() && View() == Alone(old(View()), n) && Get(nodes, n).pc == Done
      ensures HandedOn(old(queue), old(released))
    {
      hide Alone;
      FlagSet(n, x, Ready);
      Stuck(View(), n);
    }

    /** 203-219: no known successor. */
    method LeaveQueue(n: NodeId) returns (asleep: bool)
      requires Valid() && Get(nodes, n).pc == SwapTail
      modifies this
      ensures Valid() && View() == Alone(old(View()), n)
      ensures asleep <==> Get(nodes, n).pc != Done
      ensures !asleep && (old(tail) == Some(n) ==> |old(queue)| == 1) ==> HandedOn(old(queue), old(released))
      ensures asleep ==> WaitsForLink(n) && queue == old(queue) && released == old(released)
    {
      hide Alone, Rename, SetReady, SetNext, Enqueue;
      OneStep(View(), n, DoSwapTail);
      if tail == Some(n) {
        tail := None;
        queue, released := [], released + 1;
        Goto(n, Done);
        Stuck(View(), n);
        return false;
      }
      Goto(n, Wait(Next, Look));
      asleep := AwaitNext(n);
    }

    /** 213-219: a successor has started to queue, so wait for its link. */
    method AwaitNext(n: NodeId) returns (asleep: bool)
      requires Valid() && Get(nodes, n).pc == Wait(Next, Look)
      modifies this`cells, this`nodes, this`queue, this`released, this`passing
      ensures Valid() && View() == Alone(old(View()), n)
      ensures asleep <==> Get(nodes, n).pc != Done
      ensures if asleep then WaitsForLink(n) && queue == old(queue) && released == old(released)
              else HandedOn(old(queue), old(released))
    {
      hide Alone, Rename, SetReady, SetNext, Enqueue;
      asleep := FlagWait(n, Next);
      if !asleep {
        OneStep(View(), n, DoRereadNext);
        var next := Read(cells, n).next;
        var x := if next.None? then 0 else next.value;
        Goto(n, Set(x, Ready));
        PassTo(n, x);
        return;
      }
      Stuck(View(), n);
    }

    /** ptw32_mcs_node_transfer, 257-278: true if it has to spin. */
    method Transfer(to: NodeId, n: NodeId) returns (spins: bool)
      requires Valid() && Get(nodes, n).pc == Holding && to !in nodes && to != n
      modifies this
      ensures Valid() && View() == Alone(Apply(old(View()), n, McsLock.Transfer(to)), n)
      ensures spins <==> Get(nodes, n).pc != Done
      // the new node has its place, or it has it still and waits for its successor's link
      ensures released == old(released) && |queue| == |old(queue)|
      ensures if spins then Get(nodes, n).pc == XferSpin(to) && Get(nodes, n).next.None? && queue == old(queue)
              else Get(nodes, to).pc == Holding
                   && (old(queue) != [] ==> queue == old(queue)[0 := to] && Owner(View()) == Some(to))
    {
      hide Alone, Rename, SetReady, SetNext, Enqueue;
      Place(to, None, Embryo, 0, 0);
      Goto(n, XferSwap(to));
      spins := SwapIn(to, n);
    }

    /** 264-276. */
    method SwapIn(to: NodeId, n: NodeId) returns (spins: bool)
      requires Valid() && Get(nodes, n).pc == XferSwap(to) && to != n
      modifies this
      ensures Valid() && View() == Alone(old(View()), n)
      ensures spins <==> Get(nodes, n).pc != Done
      ensures released == old(released) && |queue| == |old(queue)|
      ensures if spins then Get(nodes, n).pc == XferSpin(to) && Get(nodes, n).next.None? && queue == old(queue)
              else Get(nodes, to).pc == Holding && (old(queue) != [] ==> queue == old(queue)[0 := to])
    {
      hide Alone, Rename, SetReady, SetNext, Enqueue;
      OneStep(View(), n, DoXferSwap);
      if tail == Some(n) {
        TakePlace(to, n, None);
        tail := Some(to);
        Stuck(View(), n);
        return false;
      }
      Goto(n, XferSpin(to));
      spins := CopyNext(to, n);
    }

    /** 272-276: a successor has queued, so wait for its link. */
    method CopyNext(to: NodeId, n: NodeId) returns (spins: bool)
      requires Valid() && Get(nodes, n).pc == XferSpin(to) && to != n
      modifies this`cells, this`nodes, this`queue
      ensures Valid() && View() == Alone(old(View()), n)
      ensures spins <==> Get(nodes, n).pc != Done
      ensures released == old(released) && |queue| == |old(queue)|
      ensures if spins then Get(nodes, n).pc == XferSpin(to) && Get(nodes, n).next.None? && queue == old(queue)
              else Get(nodes, to).pc == Holding && (old(queue) != [] ==> queue == old(queue)[0 := to])
    {
      hide Alone, Rename, SetReady, SetNext, Enqueue;
      spins := Read(cells, n).next.None?;
      if !spins {
        OneStep(View(), n, DoXferSpin);
        Goto(n, XferCopy(to));
        OneStep(View(), n, DoXferCopy);
        TakePlace(to, n, Read(cells, n).next);
      }
      Stuck(View(), n);
    }

    /** The new node stands where the old one stood; 276 copies the link. */
    method TakePlace(to: NodeId, n: NodeId, next: Option<NodeId>)
      requires Valid() && to != n
      modifies this`cells, this`nodes, this`queue
      ensures Valid() && View() == Rename(old(View()), n, to, next) && Get(nodes, n).pc == Done
      ensures |queue| == |old(queue)| && (old(queue) != [] ==> queue == old(queue)[0 := to])
      ensures Get(nodes, to).pc == Holding && Get(nodes, to).next == next
    {
      ghost var behind := if |queue| > 1 then Some(queue[1]) else None;
      Place(to, next, Holding, Get(nodes, n).ticket, 0);
      Goto(n, Done);
      if behind.Some? { nodes := Write(nodes, behind.value, Get(nodes, behind.value).(ahead := to)); }
      queue := if |queue| > 0 then queue[0 := to] else [];
    }
  }
}
