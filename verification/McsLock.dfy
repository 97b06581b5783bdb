/** The MCS queue lock of ptw32_MCS_lock.c.

    Every interlocked instruction, every other access to shared memory and every OS call another
    thread can notice is one atomic step. Each acquisition and each transfer uses a node of its own,
    so the operation in progress on a node is its program counter; which thread runs it does not
    matter. Nodes are never reclaimed. */
module McsLock {
  import opened Common

  type NodeId = nat

  // ----- state ---------------------------------------------------------------------------------

  /** readyFlag and nextFlag: 0, -1, or the handle of an event. A handle is stored in one flag only,
      so the state of its event is kept with it; after CloseHandle the flag is Stale. */
  datatype Flag = Clear | Raised | Event(signalled: bool) | Stale

  datatype Which = Ready | Next

  /** Stages of ptw32_mcs_flag_wait: about to read the flag (125), about to store an event in it
      (133, the event is created for this), in WaitForSingleObject (139). */
  datatype WaitPc = Look | Store | Sleep

  datatype Pc =
    | Fresh                               // not in use yet
    // acquire
    | Link(pred: NodeId)                  // about to store pred->next (174)
    | Set(target: NodeId, which: Which)   // about to compare-exchange a flag of target (105)
    | Signal(target: NodeId, which: Which) // about to set the event found there (112)
    | Wait(which: Which, at: WaitPc)      // waiting for a flag of this node
    | Holding
    // release
    | ReadNext                            // 197
    | SwapTail                            // 203
    | RereadNext                          // 215
    // transfer
    | XferSwap(to: NodeId)                // 264
    | XferSpin(to: NodeId)                // 272
    | XferCopy(to: NodeId)                // 276
    | Embryo                              // the new node of a transfer in progress
    | Done

  datatype Node = Node(next: Option<NodeId>, ready: Flag, nextf: Flag, pc: Pc, ticket: nat, ahead: NodeId)
  {
    function Flag(w: Which): Flag { if w == Ready then ready else nextf }
    function WithFlag(w: Which, f: Flag): Node { if w == Ready then this.(ready := f) else this.(nextf := f) }
  }

  function Get(m: map<NodeId, Node>, n: NodeId): Node {
    if n in m then m[n] else Node(None, Clear, Clear, Fresh, 0, 0)
  }

  function Write(m: map<NodeId, Node>, n: NodeId, r: Node): (m': map<NodeId, Node>)
    ensures forall k :: Get(m', k) == if k == n then r else Get(m, k)
  {
    m[n := r]
  }

  /** tail and nodes are the memory of the program. The rest is history: the nodes from the holder
      to the tail in the order they exchanged the tail; how many tail exchanges and how many
      hand-overs there have been (a node's ticket is the number of exchanges before its own); and
      the releaser that still has to signal the new head, if any. */
  datatype State = State(
    tail: Option<NodeId>,
    nodes: map<NodeId, Node>,
    queue: seq<NodeId>,
    enqueued: nat,
    released: nat,
    passing: Option<NodeId>)
  {
    function Put(n: NodeId, r: Node): State { this.(nodes := Write(nodes, n, r)) }
    function Goto(n: NodeId, p: Pc): State { Put(n, Get(nodes, n).(pc := p)) }
  }

  datatype Act =
    | Acquire | TryAcquire | DoLink | DoSet | DoSignal | DoLook | DoStore | Wake
    | Release | DoReadNext | DoSwapTail | DoRereadNext
    | Transfer(to: NodeId) | DoXferSwap | DoXferSpin | DoXferCopy

  predicate Enabled(s: State, n: NodeId, a: Act) {
    var r := Get(s.nodes, n);
    match a
    case Acquire => n !in s.nodes
    case TryAcquire => n !in s.nodes
    case DoLink => r.pc.Link?
    case DoSet => r.pc.Set?
    case DoSignal => r.pc.Signal?
    case DoLook => r.pc.Wait? && r.pc.at.Look?
    case DoStore => r.pc.Wait? && r.pc.at.Store?
    case Wake => r.pc.Wait? && r.pc.at.Sleep? && r.Flag(r.pc.which) == Event(true)
    case Release => r.pc.Holding?
    case DoReadNext => r.pc.ReadNext?
    case DoSwapTail => r.pc.SwapTail?
    case DoRereadNext => r.pc.RereadNext?
    case Transfer(to) => r.pc.Holding? && to !in s.nodes
    case DoXferSwap => r.pc.XferSwap?
    case DoXferSpin => r.pc.XferSpin? && r.next.Some?
    case DoXferCopy => r.pc.XferCopy?
  }

  /** Where a node goes when its wait for a flag is over. */
  function AfterWait(w: Which): Pc { if w == Ready then Holding else RereadNext }

  /** Where a node goes when it has set a flag. Raising the successor's readyFlag is the last thing
      a release does; raising the predecessor's nextFlag precedes the wait for one's own turn. */
  function AfterSet(w: Which): Pc { if w == Next then Wait(Ready, Look) else Done }

  function NewNode(p: Pc, ticket: nat, ahead: NodeId): Node { Node(None, Clear, Clear, p, ticket, ahead) }

  function Enqueue(s: State, n: NodeId): State {
    s.(tail := Some(n), queue := s.queue + [n], enqueued := s.enqueued + 1)
     .Put(n, if s.tail.None? then NewNode(Holding, s.enqueued, 0)
             else NewNode(Link(s.tail.value), s.enqueued, s.tail.value))
  }

  /** Raising a readyFlag is the moment the lock changes hands. */
  function HandOver(s: State): State {
    if |s.queue| > 0 then s.(queue := s.queue[1..], released := s.released + 1) else s
  }

  function RaiseReady(s: State, n: NodeId, x: NodeId): State {
    HandOver(s).Put(x, Get(s.nodes, x).(ready := Raised)).Goto(n, Done)
  }

  function FindReadyEvent(s: State, n: NodeId, x: NodeId): State {
    HandOver(s).(passing := Some(n)).Goto(n, Signal(x, Ready))
  }

  function SetReady(s: State, n: NodeId, x: NodeId): State {
    if Get(s.nodes, x).ready == Clear then RaiseReady(s, n, x) else FindReadyEvent(s, n, x)
  }

  function SetNext(s: State, n: NodeId, m: NodeId): State {
    if Get(s.nodes, m).nextf == Clear
    then s.Put(m, Get(s.nodes, m).(nextf := Raised)).Goto(n, Wait(Ready, Look))
    else s.Goto(n, Signal(m, Next))
  }

  /** Node `to` takes the place of node n at the head of the queue. */
  function Rename(s: State, n: NodeId, to: NodeId, next: Option<NodeId>): State {
    var s1 := s.(queue := if |s.queue| > 0 then s.queue[0 := to] else [])
               .Put(to, NewNode(Holding, Get(s.nodes, n).ticket, 0).(next := next)).Goto(n, Done);
    if |s.queue| > 1 then s1.Put(s.queue[1], Get(s1.nodes, s.queue[1]).(ahead := to)) else s1
  }

  function Apply(s: State, n: NodeId, a: Act): State
    requires Enabled(s, n, a)
  {
    var r := Get(s.nodes, n);
    match a
    case Acquire => Enqueue(s, n)
    case TryAcquire => if s.tail.Some? then s else Enqueue(s, n)
    case DoLink => s.Put(r.pc.pred, Get(s.nodes, r.pc.pred).(next := Some(n))).Goto(n, Set(r.pc.pred, Next))
    case DoSet => if r.pc.which == Ready then SetReady(s, n, r.pc.target) else SetNext(s, n, r.pc.target)
    case DoSignal =>
      var x, w := r.pc.target, r.pc.which;
      s.(passing := if w == Ready then None else s.passing)
       .Put(x, Get(s.nodes, x).WithFlag(w, Event(true))).Goto(n, AfterSet(w))
    case DoLook => s.Goto(n, if r.Flag(r.pc.which) == Clear then Wait(r.pc.which, Store) else AfterWait(r.pc.which))
    case DoStore =>
      var w := r.pc.which;
      if r.Flag(w) == Clear then s.Put(n, r.WithFlag(w, Event(false)).(pc := Wait(w, Sleep)))
      else s.Goto(n, AfterWait(w))
    case Wake => s.Put(n, r.WithFlag(r.pc.which, Stale).(pc := AfterWait(r.pc.which)))
    case Release => s.Goto(n, ReadNext)
    case DoReadNext => s.Goto(n, if r.next.None? then SwapTail else Set(r.next.value, Ready))
    case DoSwapTail =>
      if s.tail == Some(n)
      then s.(tail := None, queue := [], released := s.released + 1).Goto(n, Done)
      else s.Goto(n, Wait(Next, Look))
    case DoRereadNext => s.Goto(n, if r.next.None? then Set(0, Ready) else Set(r.next.value, Ready))
    case Transfer(to) => s.Put(to, NewNode(Embryo, 0, 0)).Goto(n, XferSwap(to))
    case DoXferSwap =>
      if s.tail == Some(n)
      then Rename(s, n, r.pc.to, None).(tail := Some(r.pc.to))
      else s.Goto(n, XferSpin(r.pc.to))
    case DoXferSpin => s.Goto(n, XferCopy(r.pc.to))
    case DoXferCopy => Rename(s, n, r.pc.to, r.next)
  }

  predicate Init(s: State) { s == State(None, map[], [], 0, 0, None) }

  ghost predicate Step(s: State, s': State) {
    exists n, a :: Enabled(s, n, a) && s' == Apply(s, n, a)
  }

  ghost predicate Run(ss: seq<State>) {
    && |ss| > 0 && Init(ss[0])
    && forall i :: 0 <= i < |ss| - 1 ==> Step(ss[i], ss[i + 1])
  }

  // ----- invariant -----------------------------------------------------------------------------

  /** On the way to the lock. */
  predicate Acquiring(p: Pc) {
    p.Link? || (p.Set? && p.which == Next) || (p.Signal? && p.which == Next) || (p.Wait? && p.which == Ready)
  }

  /** In possession of the lock. */
  predicate Owns(p: Pc) {
    p.Holding? || p.ReadNext? || p.SwapTail? || p.RereadNext? || p.XferSwap? || p.XferSpin? || p.XferCopy? ||
    (p.Wait? && p.which == Next) || (p.Set? && p.which == Ready)
  }

  predicate Queued(p: Pc) { Acquiring(p) || Owns(p) }

  /** A queued node stands where its ticket says, and only the head owns the lock. */
  predicate TicketOk(s: State, n: NodeId) {
    var r := Get(s.nodes, n);
    && (Queued(r.pc) ==> s.released <= r.ticket < s.released + |s.queue| && s.queue[r.ticket - s.released] == n)
    && (Owns(r.pc) ==> r.ticket == s.released)
  }

  predicate SlotOk(s: State, i: int) {
    0 <= i < |s.queue| ==>
      Queued(Get(s.nodes, s.queue[i]).pc) && Get(s.nodes, s.queue[i]).ticket == s.released + i
  }

  /** The readyFlag of a node on its way: not raised before its turn; at its turn raised, or about
      to be signalled. */
  predicate ReadyOk(s: State, n: NodeId) {
    var r := Get(s.nodes, n);
    && (Acquiring(r.pc) ==>
         && (r.ready.Event? <==> r.pc == Wait(Ready, Sleep)) && !r.ready.Stale?
         && (if r.ticket == s.released
             then r.ready != Clear && !r.pc.Link? && (r.ready == Event(false) ==> s.passing.Some?)
             else r.ready == Clear || r.ready == Event(false)))
    && (r.pc.Signal? && r.pc.which == Ready ==> s.passing == Some(n) && PassesTo(s, r.pc.target))
  }

  predicate PassesTo(s: State, x: NodeId) {
    var r := Get(s.nodes, x);
    r.pc == Wait(Ready, Sleep) && r.ready == Event(false) && r.ticket == s.released
  }

  predicate PassingOk(s: State) {
    s.passing.Some? ==> var p := Get(s.nodes, s.passing.value).pc; p.Signal? && p.which == Ready
  }

  /** The next field and the nextFlag of a node, as its own operation may assume them. */
  predicate NextOk(r: Node) {
    && (r.nextf == Raised || r.nextf == Event(true) || r.nextf == Stale ==> r.next.Some?)
    && (r.nextf.Event? <==> r.pc == Wait(Next, Sleep))
    && (r.nextf.Stale? ==>
          r.pc.RereadNext? || (r.pc.Set? && r.pc.which == Ready) || (r.pc.Signal? && r.pc.which == Ready) || r.pc.Done?)
    && (r.pc.RereadNext? || r.pc.XferCopy? ==> r.next.Some?)
    && (r.pc.Embryo? ==> r.next.None?)
    && (r.pc.Set? && r.pc.which == Ready ==> r.next == Some(r.pc.target))
  }

  predicate NeedsSuccessor(p: Pc) {
    p.RereadNext? || p.XferSpin? || p.XferCopy? || (p.Wait? && p.which == Next) || (p.Set? && p.which == Ready)
  }

  predicate AwaitsLink(p: Pc) { p.SwapTail? || (p.Wait? && p.which == Next) }

  /** The last node has no successor and no business with one. */
  predicate LastOk(s: State, n: NodeId) {
    var r := Get(s.nodes, n);
    Queued(r.pc) && r.ticket == s.released + |s.queue| - 1 ==> r.next.None? && !NeedsSuccessor(r.pc)
  }

  /** A node behind another is linked or about to link, and if the other sleeps on its nextFlag,
      about to wake it. */
  predicate PairFits(m: NodeId, rm: Node, n: NodeId, rn: Node) {
    && Queued(rm.pc) && rn.ticket == rm.ticket + 1
    && (if rn.pc.Link? then rn.pc == Link(m) && rm.next.None? else rm.next == Some(n))
    && (AwaitsLink(rm.pc) ==>
         && (rm.nextf == Clear ==> rn.pc == Link(m) || rn.pc == Set(m, Next))
         && (rm.nextf == Event(false) ==> rn.pc == Link(m) || rn.pc == Set(m, Next) || rn.pc == Signal(m, Next)))
  }

  predicate PairOk(s: State, n: NodeId) {
    var r := Get(s.nodes, n);
    Queued(r.pc) && r.ticket > s.released ==> PairFits(r.ahead, Get(s.nodes, r.ahead), n, r)
  }

  /** Who is about to raise a nextFlag has linked, and is the only one to do it. */
  predicate TargetOk(s: State, n: NodeId) {
    var p := Get(s.nodes, n).pc;
    && (p.Set? && p.which == Next ==>
          var m := Get(s.nodes, p.target);
          p.target != n && m.next == Some(n) && (m.nextf == Clear || m.nextf == Event(false)))
    && (p.Signal? && p.which == Next ==>
          var m := Get(s.nodes, p.target);
          p.target != n && m.next == Some(n) && m.nextf == Event(false))
  }

  predicate TransferOk(s: State, n: NodeId) {
    var p := Get(s.nodes, n).pc;
    (p.XferSwap? || p.XferSpin? || p.XferCopy?) ==> Get(s.nodes, p.to).pc == Embryo
  }

  /** Everything about a node's place in the queue, and everything about its links. */
  predicate PlaceOk(s: State, n: NodeId) { TicketOk(s, n) && ReadyOk(s, n) && LastOk(s, n) && TransferOk(s, n) }

  predicate LinksOk(s: State, n: NodeId) { NextOk(Get(s.nodes, n)) && PairOk(s, n) && TargetOk(s, n) }

  predicate NodeOk(s: State, n: NodeId) { PlaceOk(s, n) && LinksOk(s, n) }

  ghost predicate Invariant(s: State) {
    && s.enqueued == s.released + |s.queue|
    && TailOk(s)
    && PassingOk(s)
    && (forall n :: NodeOk(s, n))
    && (forall i :: SlotOk(s, i))
  }

  // ----- every step keeps the invariant --------------------------------------------------------

  lemma NodeIsOk(s: State, n: NodeId)
    requires Invariant(s)
    ensures NodeOk(s, n)
  {
  }

  lemma SlotIsOk(s: State, i: int)
    requires Invariant(s)
    ensures SlotOk(s, i)
  {
  }

  /** What is known, before a step of node n, about the nodes that a node k refers to. */
  lemma Known(s: State, n: NodeId, k: NodeId)
    requires Invariant(s)
    ensures NodeOk(s, n) && NodeOk(s, k) && NodeOk(s, Get(s.nodes, k).ahead)
  {
  }

  /** A signal on its way means that the head is asleep. */
  lemma PassingTarget(s: State)
    requires Invariant(s) && s.passing.Some?
    ensures |s.queue| > 0 && Acquiring(Get(s.nodes, s.queue[0]).pc)
  {
    NodeIsOk(s, s.passing.value);
    NodeIsOk(s, Get(s.nodes, s.passing.value).pc.target);
  }

  /** The owner of the lock, and what is known of the node behind it. */
  lemma OwnerIsHead(s: State, n: NodeId)
    requires Invariant(s) && Owns(Get(s.nodes, n).pc)
    ensures |s.queue| > 0 && s.queue[0] == n && s.passing.None?
    ensures |s.queue| > 1 ==>
              var x := s.queue[1]; var r := Get(s.nodes, x);
              x != n && Acquiring(r.pc) && r.ticket == s.released + 1 && r.ahead == n && NodeOk(s, x)
    ensures s.tail == Some(n) <==> |s.queue| == 1
  {
    NodeIsOk(s, n);
    if s.passing.Some? { PassingTarget(s); }
    SlotIsOk(s, 0); SlotIsOk(s, |s.queue| - 1);
    if |s.queue| > 1 {
      var x := s.queue[1];
      SlotIsOk(s, 1); NodeIsOk(s, x); NodeIsOk(s, Get(s.nodes, x).ahead);
    }
  }

  // Steps that change one node.

  /** The memory differs at n only. */
  ghost predicate OnlyAt(s: State, s': State, n: NodeId) {
    && (forall k :: k != n ==> Get(s'.nodes, k) == Get(s.nodes, k))
    && s'.queue == s.queue && s'.released == s.released && s'.enqueued == s.enqueued
    && s'.passing == s.passing && s'.tail == s.tail
  }

  /** A queued node goes on from r to r' without breaking what other nodes rely on. */
  predicate GoesOn(r: Node, r': Node) {
    && Queued(r.pc) && Queued(r'.pc) && r'.ticket == r.ticket && r'.ahead == r.ahead && r'.next == r.next
    && (r.nextf == Event(false) ==> r'.nextf == Event(false))
    && (r.nextf == Clear ==> r'.nextf == Clear || r'.nextf == Event(false))
    && (AwaitsLink(r'.pc) && (r'.nextf == Clear || r'.nextf == Event(false)) ==>
          r.next.None? || (AwaitsLink(r.pc) && (r.nextf == r'.nextf || r.nextf == Clear)))
    && !(r.pc == Wait(Ready, Sleep) && r.ready == Event(false))
  }

  ghost predicate GoodStep(s: State, s': State, n: NodeId) {
    OnlyAt(s, s', n) && NodeOk(s', n) && GoesOn(Get(s.nodes, n), Get(s'.nodes, n))
  }

  lemma OthersUnharmed(s: State, s': State, n: NodeId, k: NodeId)
    requires NodeOk(s, n) && NodeOk(s, k) && GoodStep(s, s', n)
    ensures NodeOk(s', k)
  {
  }

  lemma StoreStep(s: State, n: NodeId)
    requires Invariant(s) && Enabled(s, n, DoStore)
    ensures GoodStep(s, Apply(s, n, DoStore), n)
  {
    Known(s, n, n);
  }

  lemma WaitStep(s: State, n: NodeId, a: Act)
    requires Invariant(s) && Enabled(s, n, a) && (a.DoLook? || a.Wake?)
    ensures GoodStep(s, Apply(s, n, a), n)
  {
    Known(s, n, n);
  }

  lemma OwnerStep(s: State, n: NodeId, a: Act)
    requires Invariant(s) && Enabled(s, n, a)
    requires a.Release? || a.DoReadNext? || a.DoRereadNext? || a.DoXferSpin?
    ensures GoodStep(s, Apply(s, n, a), n)
  {
    Known(s, n, n);
  }

  lemma SwapFailsStep(s: State, n: NodeId, a: Act)
    requires Invariant(s) && Enabled(s, n, a) && (a.DoSwapTail? || a.DoXferSwap?) && s.tail != Some(n)
    ensures GoodStep(s, Apply(s, n, a), n)
  {
    Known(s, n, n);
    OwnerIsHead(s, n);
  }

  lemma FindEventStep(s: State, n: NodeId, m: NodeId)
    requires Invariant(s) && Get(s.nodes, n).pc == Set(m, Next) && Get(s.nodes, m).nextf != Clear
    ensures GoodStep(s, Apply(s, n, DoSet), n)
  {
    Known(s, n, n);
    NodeIsOk(s, m);
  }

  // Steps on the links of the predecessor.

  /** Node n works on m, the node it found in front of it: m.next or m.nextf changes, n moves on. */
  ghost predicate Notifies(s: State, s': State, n: NodeId, m: NodeId) {
    var r, r', q, q' := Get(s.nodes, m), Get(s'.nodes, m), Get(s.nodes, n), Get(s'.nodes, n);
    && m != n
    && (forall k :: k != n && k != m ==> Get(s'.nodes, k) == Get(s.nodes, k))
    && s'.queue == s.queue && s'.released == s.released && s'.enqueued == s.enqueued
    && s'.passing == s.passing && s'.tail == s.tail
    && r' == r.(next := Some(n), nextf := r'.nextf)
    && q' == q.(pc := q'.pc)
    && (|| (q.pc == Link(m) && q'.pc == Set(m, Next) && r'.nextf == r.nextf)
        || (q.pc == Set(m, Next) && r.nextf == Clear && q'.pc == Wait(Ready, Look) && r'.nextf == Raised)
        || (q.pc == Signal(m, Next) && q'.pc == Wait(Ready, Look) && r'.nextf == Event(true)))
  }

  lemma NotifiesKeepsNotifier(s: State, s': State, n: NodeId, m: NodeId)
    requires NodeOk(s, n) && NodeOk(s, m) && NodeOk(s, Get(s.nodes, n).ahead) && Notifies(s, s', n, m)
    ensures NodeOk(s', n)
  {
  }

  lemma NotifiesKeepsNotified(s: State, s': State, n: NodeId, m: NodeId)
    requires NodeOk(s, n) && NodeOk(s, m) && NodeOk(s, Get(s.nodes, m).ahead) && Notifies(s, s', n, m)
    ensures NodeOk(s', m)
  {
  }

  lemma NotifiesKeepsOthers(s: State, s': State, n: NodeId, m: NodeId, k: NodeId)
    requires NodeOk(s, n) && NodeOk(s, m) && NodeOk(s, k) && Notifies(s, s', n, m) && k != n && k != m
    ensures NodeOk(s', k)
  {
  }

  lemma LinkStep(s: State, n: NodeId, m: NodeId)
    requires Invariant(s) && Get(s.nodes, n).pc == Link(m)
    ensures Notifies(s, Apply(s, n, DoLink), n, m)
  {
    NodeIsOk(s, n); NodeIsOk(s, m);
  }

  lemma RaiseNextStep(s: State, n: NodeId, m: NodeId)
    requires Invariant(s) && Get(s.nodes, n).pc == Set(m, Next) && Get(s.nodes, m).nextf == Clear
    ensures Notifies(s, Apply(s, n, DoSet), n, m)
  {
    NodeIsOk(s, n);
    assert Get(s.nodes, m).next == Some(n);
  }

  lemma SignalNextStep(s: State, n: NodeId, m: NodeId)
    requires Invariant(s) && Get(s.nodes, n).pc == Signal(m, Next)
    ensures Notifies(s, Apply(s, n, DoSignal), n, m)
  {
    NodeIsOk(s, n); NodeIsOk(s, m);
  }

  // Steps that change the queue.

  lemma EnqueueKeepsNewcomer(s: State, n: NodeId)
    requires Invariant(s) && n !in s.nodes
    ensures NodeOk(Enqueue(s, n), n)
  {
    assert NodeOk(s, n) && SlotOk(s, |s.queue| - 1) && (s.tail.Some? ==> NodeOk(s, s.tail.value));
  }

  lemma EnqueueKeepsPlace(s: State, n: NodeId, k: NodeId)
    requires Invariant(s) && n !in s.nodes && k != n
    ensures PlaceOk(Enqueue(s, n), k)
  {
    Known(s, n, k);
    var s' := Enqueue(s, n);
    assert Get(s'.nodes, k) == Get(s.nodes, k);
  }

  lemma EnqueueKeepsLinks(s: State, n: NodeId, k: NodeId)
    requires Invariant(s) && n !in s.nodes && k != n
    ensures LinksOk(Enqueue(s, n), k)
  {
    Known(s, n, k);
    var s' := Enqueue(s, n);
    assert Get(s'.nodes, k) == Get(s.nodes, k);
  }

  lemma EnqueueKeeps(s: State, n: NodeId, k: NodeId)
    requires Invariant(s) && n !in s.nodes
    ensures NodeOk(Enqueue(s, n), k)
  {
    hide Invariant, PlaceOk, LinksOk, Enqueue;
    if k == n {
      EnqueueKeepsNewcomer(s, n);
    } else {
      EnqueueKeepsPlace(s, n, k);
      EnqueueKeepsLinks(s, n, k);
    }
  }

  /** The lock goes from n to x, the next in line, and x will find its readyFlag raised. */
  ghost predicate HandsOver(s: State, s': State, n: NodeId, x: NodeId) {
    && x != n && |s.queue| > 1 && s.queue[0] == n && s.queue[1] == x && Get(s.nodes, n).ticket == s.released
    && s'.queue == s.queue[1..] && s'.released == s.released + 1 && s'.passing == s.passing == None
    && Get(s.nodes, n).pc == Set(x, Ready) && Get(s'.nodes, n) == Get(s.nodes, n).(pc := Done)
    && Get(s.nodes, n).next == Some(x) && Acquiring(Get(s.nodes, x).pc) && !Get(s.nodes, x).pc.Link?
    && Get(s.nodes, x).ready == Clear && Get(s.nodes, x).ticket == s.released + 1
    && Get(s'.nodes, x) == Get(s.nodes, x).(ready := Raised)
    && forall k :: k != n && k != x ==> Get(s'.nodes, k) == Get(s.nodes, k)
  }

  lemma RaiseReadyStep(s: State, n: NodeId, x: NodeId)
    requires Invariant(s) && Get(s.nodes, n).pc == Set(x, Ready) && Get(s.nodes, x).ready == Clear
    ensures HandsOver(s, RaiseReady(s, n, x), n, x)
  {
    Known(s, n, x);
    OwnerIsHead(s, n);
  }

  lemma HandsOverKeepsPlace(s: State, s': State, n: NodeId, x: NodeId, k: NodeId)
    requires HandsOver(s, s', n, x) && PlaceOk(s, n) && PlaceOk(s, x) && PlaceOk(s, k)
    ensures PlaceOk(s', k)
  {
  }

  lemma HandsOverKeepsLinks(s: State, s': State, n: NodeId, x: NodeId, k: NodeId)
    requires HandsOver(s, s', n, x) && NodeOk(s, n) && NodeOk(s, x) && NodeOk(s, k) && NodeOk(s, Get(s.nodes, k).ahead)
    ensures LinksOk(s', k)
  {
  }

  lemma RaiseReadyKeeps(s: State, n: NodeId, x: NodeId, k: NodeId)
    requires Invariant(s) && Get(s.nodes, n).pc == Set(x, Ready) && Get(s.nodes, x).ready == Clear
    ensures NodeOk(RaiseReady(s, n, x), k)
  {
    Known(s, n, k);
    Known(s, n, x);
    RaiseReadyStep(s, n, x);
    hide RaiseReady, Invariant, HandsOver, PlaceOk, LinksOk;
    HandsOverKeepsPlace(s, RaiseReady(s, n, x), n, x, k);
    HandsOverKeepsLinks(s, RaiseReady(s, n, x), n, x, k);
  }

  lemma FindReadyEventKeepsPlace(s: State, n: NodeId, x: NodeId, k: NodeId)
    requires Invariant(s) && Get(s.nodes, n).pc == Set(x, Ready) && Get(s.nodes, x).ready != Clear
    ensures PlaceOk(FindReadyEvent(s, n, x), k)
  {
    Known(s, n, k);
    OwnerIsHead(s, n);
  }

  lemma FindReadyEventKeepsLinks(s: State, n: NodeId, x: NodeId, k: NodeId)
    requires Invariant(s) && Get(s.nodes, n).pc == Set(x, Ready) && Get(s.nodes, x).ready != Clear
    ensures LinksOk(FindReadyEvent(s, n, x), k)
  {
    Known(s, n, k);
    OwnerIsHead(s, n);
  }

  /** The releaser n signals the event of the sleeping head x, and is done. */
  ghost predicate Awakens(s: State, s': State, n: NodeId, x: NodeId) {
    && x != n && s'.queue == s.queue && s'.released == s.released && s.passing == Some(n) && s'.passing == None
    && Get(s.nodes, n).pc == Signal(x, Ready) && Get(s'.nodes, n) == Get(s.nodes, n).(pc := Done)
    && PassesTo(s, x) && Get(s'.nodes, x) == Get(s.nodes, x).(ready := Event(true))
    && forall k :: k != n && k != x ==> Get(s'.nodes, k) == Get(s.nodes, k)
  }

  lemma SignalReadyStep(s: State, n: NodeId, x: NodeId)
    requires Invariant(s) && Get(s.nodes, n).pc == Signal(x, Ready)
    ensures Awakens(s, Apply(s, n, DoSignal), n, x)
  {
    Known(s, n, x);
  }

  lemma AwakensKeepsPlace(s: State, s': State, n: NodeId, x: NodeId, k: NodeId)
    requires Awakens(s, s', n, x) && PlaceOk(s, n) && PlaceOk(s, x) && PlaceOk(s, k)
    ensures PlaceOk(s', k)
  {
  }

  lemma AwakensKeepsLinks(s: State, s': State, n: NodeId, x: NodeId, k: NodeId)
    requires Awakens(s, s', n, x) && NodeOk(s, n) && NodeOk(s, x) && NodeOk(s, k) && NodeOk(s, Get(s.nodes, k).ahead)
    ensures LinksOk(s', k)
  {
  }

  lemma SignalReadyKeeps(s: State, n: NodeId, x: NodeId, k: NodeId)
    requires Invariant(s) && Get(s.nodes, n).pc == Signal(x, Ready)
    ensures NodeOk(Apply(s, n, DoSignal), k)
  {
    Known(s, n, k);
    Known(s, n, x);
    SignalReadyStep(s, n, x);
    hide Apply, Invariant, Awakens, PlaceOk, LinksOk;
    AwakensKeepsPlace(s, Apply(s, n, DoSignal), n, x, k);
    AwakensKeepsLinks(s, Apply(s, n, DoSignal), n, x, k);
  }

  lemma SwapSucceedsKeeps(s: State, n: NodeId, k: NodeId)
    requires Invariant(s) && Enabled(s, n, DoSwapTail) && s.tail == Some(n)
    ensures NodeOk(Apply(s, n, DoSwapTail), k)
  {
    Known(s, n, k);
    OwnerIsHead(s, n);
  }

  lemma TransferKeepsPlace(s: State, n: NodeId, to: NodeId, k: NodeId)
    requires Invariant(s) && Enabled(s, n, Transfer(to))
    ensures PlaceOk(Apply(s, n, Transfer(to)), k)
  {
    Known(s, n, k);
  }

  lemma TransferKeepsLinks(s: State, n: NodeId, to: NodeId, k: NodeId)
    requires Invariant(s) && Enabled(s, n, Transfer(to))
    ensures LinksOk(Apply(s, n, Transfer(to)), k)
  {
    Known(s, n, k);
  }

  /** Node `to` may take over from n: a successor, if any, is linked. */
  predicate Renames(s: State, n: NodeId, to: NodeId) {
    && (Get(s.nodes, n).pc == XferSwap(to) || Get(s.nodes, n).pc == XferCopy(to))
    && (|s.queue| > 1 ==> Get(s.nodes, n).next == Some(s.queue[1]))
  }

  lemma RenameAloneKeepsPlace(s: State, n: NodeId, to: NodeId, k: NodeId)
    requires Invariant(s) && Renames(s, n, to) && |s.queue| == 1
    ensures PlaceOk(Rename(s, n, to, Get(s.nodes, n).next), k)
  {
    Known(s, n, k);
    NodeIsOk(s, to);
    OwnerIsHead(s, n);
  }

  /** What the three nodes concerned look like afterwards. */
  lemma Renamed(s: State, n: NodeId, to: NodeId)
    requires Invariant(s) && Renames(s, n, to) && |s.queue| > 1
    ensures var x, next := s.queue[1], Get(s.nodes, n).next;
            var s' := Rename(s, n, to, next);
            && to != n && to != x && x != n
            && Get(s'.nodes, n) == Get(s.nodes, n).(pc := Done)
            && Get(s'.nodes, x) == Get(s.nodes, x).(ahead := to)
            && Get(s'.nodes, to) == NewNode(Holding, Get(s.nodes, n).ticket, 0).(next := next)
            && s'.queue == s.queue[0 := to] && s'.released == s.released && s'.passing == s.passing
            && forall k :: k != n && k != to && k != x ==> Get(s'.nodes, k) == Get(s.nodes, k)
  {
    NodeIsOk(s, n); NodeIsOk(s, to); NodeIsOk(s, s.queue[1]);
    OwnerIsHead(s, n);
  }

  lemma RenameKeepsPlace(s: State, n: NodeId, to: NodeId, k: NodeId)
    requires Invariant(s) && Renames(s, n, to) && |s.queue| > 1
    requires k == n || k == to || k == s.queue[1]
    ensures PlaceOk(Rename(s, n, to, Get(s.nodes, n).next), k)
  {
    NodeIsOk(s, n); NodeIsOk(s, k);
    OwnerIsHead(s, n);
    Renamed(s, n, to);
    hide Rename, Renames;
  }

  lemma RenameKeepsOtherPlace(s: State, n: NodeId, to: NodeId, k: NodeId)
    requires Invariant(s) && Renames(s, n, to) && |s.queue| > 1
    requires k != n && k != to && k != s.queue[1]
    ensures PlaceOk(Rename(s, n, to, Get(s.nodes, n).next), k)
  {
    OwnerIsHead(s, n);
    NodeIsOk(s, n); NodeIsOk(s, to); NodeIsOk(s, k);
    var s' := Rename(s, n, to, Get(s.nodes, n).next);
    assert Get(s'.nodes, k) == Get(s.nodes, k);
  }

  lemma RenameKeepsLinks(s: State, n: NodeId, to: NodeId, k: NodeId)
    requires Invariant(s) && Renames(s, n, to)
    requires k == n || k == to || (|s.queue| > 1 && k == s.queue[1])
    ensures LinksOk(Rename(s, n, to, Get(s.nodes, n).next), k)
  {
    Known(s, n, k);
    NodeIsOk(s, to);
    OwnerIsHead(s, n);
  }

  /** What a node that has no part in a transfer may find changed. */
  ghost predicate RenamesElsewhere(s: State, s': State, n: NodeId, to: NodeId, k: NodeId) {
    && k != n && k != to && Get(s'.nodes, k) == Get(s.nodes, k) && s'.released == s.released
    && Get(s.nodes, to).pc == Embryo && Owns(Get(s.nodes, n).pc)
    && (Queued(Get(s.nodes, k).pc) ==> Get(s.nodes, k).ticket != s.released + 1)
    && forall m :: m != to ==>
         Get(s'.nodes, m) == Get(s.nodes, m).(pc := Get(s'.nodes, m).pc, ahead := Get(s'.nodes, m).ahead)
         && (m != n ==> Get(s'.nodes, m).pc == Get(s.nodes, m).pc)
  }

  lemma RenameStep(s: State, n: NodeId, to: NodeId, k: NodeId)
    requires Invariant(s) && Renames(s, n, to)
    requires k != n && k != to && (|s.queue| > 1 ==> k != s.queue[1])
    ensures RenamesElsewhere(s, Rename(s, n, to, Get(s.nodes, n).next), n, to, k)
  {
    Known(s, n, k);
    OwnerIsHead(s, n);
  }

  lemma RenamesElsewhereKeepsLinks(s: State, s': State, n: NodeId, to: NodeId, k: NodeId)
    requires RenamesElsewhere(s, s', n, to, k)
    requires NodeOk(s, n) && NodeOk(s, to) && NodeOk(s, k) && NodeOk(s, Get(s.nodes, k).ahead)
    ensures LinksOk(s', k)
  {
  }

  lemma RenameKeepsOtherLinks(s: State, n: NodeId, to: NodeId, k: NodeId)
    requires Invariant(s) && Renames(s, n, to)
    requires k != n && k != to && (|s.queue| > 1 ==> k != s.queue[1])
    ensures LinksOk(Rename(s, n, to, Get(s.nodes, n).next), k)
  {
    Known(s, n, k);
    Known(s, to, k);
    RenameStep(s, n, to, k);
    hide Invariant, Rename, Renames, RenamesElsewhere, NodeOk, LinksOk;
    RenamesElsewhereKeepsLinks(s, Rename(s, n, to, Get(s.nodes, n).next), n, to, k);
  }

  // Every step.

  lemma OneNodeStepKeeps(s: State, n: NodeId, a: Act, k: NodeId)
    requires Invariant(s) && Enabled(s, n, a) && GoodStep(s, Apply(s, n, a), n)
    ensures NodeOk(Apply(s, n, a), k)
  {
    NodeIsOk(s, n); NodeIsOk(s, k);
    if k != n { OthersUnharmed(s, Apply(s, n, a), n, k); }
  }

  lemma NotifyStepKeeps(s: State, n: NodeId, m: NodeId, a: Act, k: NodeId)
    requires Invariant(s) && Enabled(s, n, a) && Notifies(s, Apply(s, n, a), n, m)
    ensures NodeOk(Apply(s, n, a), k)
  {
    var s' := Apply(s, n, a);
    Known(s, n, m);
    Known(s, m, n);
    NodeIsOk(s, k);
    if k == n { NotifiesKeepsNotifier(s, s', n, m); }
    else if k == m { NotifiesKeepsNotified(s, s', n, m); }
    else { NotifiesKeepsOthers(s, s', n, m, k); }
  }

  lemma SetStepKeeps(s: State, n: NodeId, k: NodeId)
    requires Invariant(s) && Enabled(s, n, DoSet)
    ensures NodeOk(Apply(s, n, DoSet), k)
  {
    var Set(x, w) := Get(s.nodes, n).pc;
    if w == Next {
      if Get(s.nodes, x).nextf == Clear {
        RaiseNextStep(s, n, x);
        NotifyStepKeeps(s, n, x, DoSet, k);
      } else {
        FindEventStep(s, n, x);
        OneNodeStepKeeps(s, n, DoSet, k);
      }
    } else if Get(s.nodes, x).ready == Clear {
      RaiseReadyKeeps(s, n, x, k);
    } else {
      FindReadyEventKeepsPlace(s, n, x, k);
      FindReadyEventKeepsLinks(s, n, x, k);
    }
  }

  lemma RenameStepKeeps(s: State, n: NodeId, to: NodeId, k: NodeId)
    requires Invariant(s) && Renames(s, n, to)
    ensures NodeOk(Rename(s, n, to, Get(s.nodes, n).next), k)
  {
    OwnerIsHead(s, n);
    if |s.queue| == 1 { RenameAloneKeepsPlace(s, n, to, k); }
    if k == n || k == to || (|s.queue| > 1 && k == s.queue[1]) {
      if |s.queue| > 1 { RenameKeepsPlace(s, n, to, k); }
      RenameKeepsLinks(s, n, to, k);
    } else {
      if |s.queue| > 1 { RenameKeepsOtherPlace(s, n, to, k); }
      RenameKeepsOtherLinks(s, n, to, k);
    }
  }

  /** What a transfer does when it is done is to rename the head. */
  lemma TransferRenames(s: State, n: NodeId, a: Act)
    requires Invariant(s) && Enabled(s, n, a) && (a.DoXferCopy? || (a.DoXferSwap? && s.tail == Some(n)))
    ensures var to := Get(s.nodes, n).pc.to;
            && Renames(s, n, to)
            && Apply(s, n, a) ==
                 Rename(s, n, to, Get(s.nodes, n).next).(tail := if |s.queue| == 1 then Some(to) else s.tail)
  {
    NodeIsOk(s, n);
    OwnerIsHead(s, n);
  }

  /** The tail plays no part in what is demanded of the nodes. */
  lemma TailIrrelevant(s: State, s': State, k: NodeId)
    requires NodeOk(s, k) && s' == s.(tail := s'.tail)
    ensures NodeOk(s', k)
  {
  }

  lemma StepKeepsNodes(s: State, n: NodeId, a: Act, k: NodeId)
    requires Invariant(s) && Enabled(s, n, a)
    ensures NodeOk(Apply(s, n, a), k)
  {
    match a
    case Acquire => EnqueueKeeps(s, n, k);
    case TryAcquire => if s.tail.None? { EnqueueKeeps(s, n, k); }
    case DoLink => LinkStep(s, n, Get(s.nodes, n).pc.pred); NotifyStepKeeps(s, n, Get(s.nodes, n).pc.pred, a, k);
    case DoSet => SetStepKeeps(s, n, k);
    case DoSignal =>
      var x := Get(s.nodes, n).pc.target;
      if Get(s.nodes, n).pc.which == Ready {
        SignalReadyKeeps(s, n, x, k);
      } else {
        SignalNextStep(s, n, x);
        NotifyStepKeeps(s, n, x, a, k);
      }
    case DoLook | Wake => WaitStep(s, n, a); OneNodeStepKeeps(s, n, a, k);
    case DoStore => StoreStep(s, n); OneNodeStepKeeps(s, n, a, k);
    case Release | DoReadNext | DoRereadNext | DoXferSpin => OwnerStep(s, n, a); OneNodeStepKeeps(s, n, a, k);
    case DoSwapTail =>
      if s.tail == Some(n) { SwapSucceedsKeeps(s, n, k); }
      else { SwapFailsStep(s, n, a); OneNodeStepKeeps(s, n, a, k); }
    case Transfer(to) => TransferKeepsPlace(s, n, to, k); TransferKeepsLinks(s, n, to, k);
    case DoXferSwap =>
      if s.tail == Some(n) { FinishedTransferKeeps(s, n, a, k); }
      else { SwapFailsStep(s, n, a); OneNodeStepKeeps(s, n, a, k); }
    case DoXferCopy => FinishedTransferKeeps(s, n, a, k);
  }

  lemma FinishedTransferKeeps(s: State, n: NodeId, a: Act, k: NodeId)
    requires Invariant(s) && Enabled(s, n, a) && (a.DoXferCopy? || (a.DoXferSwap? && s.tail == Some(n)))
    ensures NodeOk(Apply(s, n, a), k)
  {
    var to := Get(s.nodes, n).pc.to;
    TransferRenames(s, n, a);
    RenameStepKeeps(s, n, to, k);
    TailIrrelevant(Rename(s, n, to, Get(s.nodes, n).next), Apply(s, n, a), k);
  }

  // ----- the queue -----------------------------------------------------------------------------

  /** How each kind of step changes the queue. */
  datatype Change = Same | Grow | HandOn | TakeOver(to: NodeId)

  function ChangeOf(s: State, n: NodeId, a: Act): Change
    requires Enabled(s, n, a)
  {
    var p := Get(s.nodes, n).pc;
    match a
    case Acquire => Grow
    case TryAcquire => if s.tail.None? then Grow else Same
    case DoSet => if p.which == Ready then HandOn else Same
    case DoSwapTail => if s.tail == Some(n) then HandOn else Same
    case DoXferSwap => if s.tail == Some(n) then TakeOver(p.to) else Same
    case DoXferCopy => TakeOver(p.to)
    case _ => Same
  }

  /** An abstract first-come-first-served lock whose head may be renamed. */
  predicate QueueMoves(s: State, s': State, n: NodeId, c: Change) {
    match c
    case Same => s'.queue == s.queue && s'.released == s.released && s'.enqueued == s.enqueued
    case Grow =>
      && s'.queue == s.queue + [n] && s'.released == s.released && s'.enqueued == s.enqueued + 1
      && Queued(Get(s'.nodes, n).pc) && Get(s'.nodes, n).ticket == s.enqueued
    case HandOn =>
      && |s.queue| > 0 && s.queue[0] == n && Owns(Get(s.nodes, n).pc)
      && s'.queue == s.queue[1..] && s'.released == s.released + 1 && s'.enqueued == s.enqueued
    case TakeOver(to) =>
      && |s.queue| > 0 && s.queue[0] == n && Owns(Get(s.nodes, n).pc)
      && s'.queue == s.queue[0 := to] && s'.released == s.released && s'.enqueued == s.enqueued
      && Get(s'.nodes, to).pc.Holding? && Get(s'.nodes, to).ticket == Get(s.nodes, n).ticket
  }

  /** A release only removes the head, a transfer only renames it, an acquisition only appends, and
      only the node that owns the lock removes or renames. */
  lemma StepMovesQueue(s: State, n: NodeId, a: Act)
    requires Invariant(s) && Enabled(s, n, a)
    ensures QueueMoves(s, Apply(s, n, a), n, ChangeOf(s, n, a))
  {
    if Owns(Get(s.nodes, n).pc) { OwnerIsHead(s, n); }
    if ChangeOf(s, n, a).TakeOver? {
      TransferRenames(s, n, a);
      NodeIsOk(s, n); NodeIsOk(s, Get(s.nodes, n).pc.to);
    }
    if a.DoSwapTail? && s.tail == Some(n) { assert s.queue == [n]; }
  }

  lemma OthersStayInTransfer(s: State, n: NodeId, a: Act, k: NodeId)
    requires Enabled(s, n, a) && k != n && (a.DoXferSwap? || a.DoXferCopy?)
    requires ChangeOf(s, n, a).TakeOver? ==> k != ChangeOf(s, n, a).to
    ensures Get(Apply(s, n, a).nodes, k).pc == Get(s.nodes, k).pc
    ensures Get(Apply(s, n, a).nodes, k).ticket == Get(s.nodes, k).ticket
  {
  }

  lemma OthersStayOtherwise(s: State, n: NodeId, a: Act, k: NodeId)
    requires Enabled(s, n, a) && k != n && !a.DoXferSwap? && !a.DoXferCopy?
    requires a.Transfer? ==> k != a.to
    ensures Get(Apply(s, n, a).nodes, k).pc == Get(s.nodes, k).pc
    ensures Get(Apply(s, n, a).nodes, k).ticket == Get(s.nodes, k).ticket
  {
    hide Rename;
  }

  /** The operations on other nodes stay where they are. */
  lemma OthersStay(s: State, n: NodeId, a: Act, k: NodeId)
    requires Enabled(s, n, a) && k != n
    requires a.Transfer? ==> k != a.to
    requires ChangeOf(s, n, a).TakeOver? ==> k != ChangeOf(s, n, a).to
    ensures Get(Apply(s, n, a).nodes, k).pc == Get(s.nodes, k).pc
    ensures Get(Apply(s, n, a).nodes, k).ticket == Get(s.nodes, k).ticket
  {
    hide Apply, Enabled, ChangeOf, Get;
    if a.DoXferSwap? || a.DoXferCopy? { OthersStayInTransfer(s, n, a, k); } else { OthersStayOtherwise(s, n, a, k); }
  }

  lemma QueuedStaysQueued(s: State, n: NodeId, a: Act)
    requires Invariant(s) && Enabled(s, n, a) && Queued(Get(s.nodes, n).pc) && ChangeOf(s, n, a).Same?
    ensures Queued(Get(Apply(s, n, a).nodes, n).pc) && Get(Apply(s, n, a).nodes, n).ticket == Get(s.nodes, n).ticket
  {
    NodeIsOk(s, n);
  }

  /** The nodes in line are different nodes, and all in use. */
  lemma SlotsApart(s: State, i: int, j: int)
    requires SlotOk(s, i) && SlotOk(s, j) && 0 <= i < |s.queue| && 0 <= j < |s.queue|
    ensures s.queue[i] == s.queue[j] ==> i == j
    ensures s.queue[i] in s.nodes && !Get(s.nodes, s.queue[i]).pc.Embryo?
  {
  }

  lemma HandOnKeepsSlots(s: State, n: NodeId, a: Act, i: int)
    requires Invariant(s) && Enabled(s, n, a) && ChangeOf(s, n, a).HandOn?
    ensures SlotOk(Apply(s, n, a), i)
  {
    StepMovesQueue(s, n, a);
    hide Invariant, Apply, Enabled, Owns;
    if 0 <= i < |s.queue| - 1 {
      SlotIsOk(s, 0);
      SlotIsOk(s, i + 1);
      SlotsApart(s, 0, i + 1);
      OthersStay(s, n, a, s.queue[i + 1]);
    }
  }

  lemma TakeOverKeepsSlots(s: State, n: NodeId, a: Act, i: int)
    requires Invariant(s) && Enabled(s, n, a) && ChangeOf(s, n, a).TakeOver?
    ensures SlotOk(Apply(s, n, a), i)
  {
    StepMovesQueue(s, n, a);
    TransferRenames(s, n, a);
    Known(s, n, n);
    hide Invariant, Apply, Enabled, Owns;
    if 0 <= i < |s.queue| {
      SlotIsOk(s, 0);
      SlotIsOk(s, i);
      SlotsApart(s, 0, i);
      if i > 0 { OthersStay(s, n, a, s.queue[i]); }
    }
  }

  lemma OthersKeepSlots(s: State, n: NodeId, a: Act, i: int)
    requires Invariant(s) && Enabled(s, n, a) && (ChangeOf(s, n, a).Same? || ChangeOf(s, n, a).Grow?)
    ensures SlotOk(Apply(s, n, a), i)
  {
    StepMovesQueue(s, n, a);
    assert s.enqueued == s.released + |s.queue|;
    if 0 <= i < |s.queue| {
      SlotIsOk(s, i);
      SlotsApart(s, i, i);
      if s.queue[i] != n { OthersStay(s, n, a, s.queue[i]); }
      else if ChangeOf(s, n, a).Same? { QueuedStaysQueued(s, n, a); }
    }
    hide Invariant, Apply, Enabled;
  }

  lemma StepKeepsSlots(s: State, n: NodeId, a: Act, i: int)
    requires Invariant(s) && Enabled(s, n, a)
    ensures SlotOk(Apply(s, n, a), i)
  {
    hide *;
    match ChangeOf(s, n, a)
    case HandOn => HandOnKeepsSlots(s, n, a, i);
    case TakeOver(_) => TakeOverKeepsSlots(s, n, a, i);
    case _ => OthersKeepSlots(s, n, a, i);
  }

  lemma StepKeepsInvariant(s: State, n: NodeId, a: Act)
    requires Invariant(s) && Enabled(s, n, a)
    ensures Invariant(Apply(s, n, a))
  {
    var s' := Apply(s, n, a);
    forall k ensures NodeOk(s', k) { StepKeepsNodes(s, n, a, k); }
    forall i ensures SlotOk(s', i) { StepKeepsSlots(s, n, a, i); }
    StepMovesQueue(s, n, a);
    StepKeepsPassing(s, n, a);
    StepKeepsTail(s, n, a);
  }

  lemma StepKeepsPassing(s: State, n: NodeId, a: Act)
    requires Invariant(s) && Enabled(s, n, a)
    ensures PassingOk(Apply(s, n, a))
  {
    NodeIsOk(s, n);
    if s.passing.Some? {
      var m := s.passing.value;
      NodeIsOk(s, m); NodeIsOk(s, Get(s.nodes, m).pc.target);
      if Owns(Get(s.nodes, n).pc) { OwnerIsHead(s, n); }
      else if m != n { OthersStay(s, n, a, m); }
    }
  }

  predicate TailOk(s: State) { s.tail == if s.queue == [] then None else Some(s.queue[|s.queue| - 1]) }

  lemma TransferKeepsTail(s: State, n: NodeId, a: Act)
    requires Invariant(s) && Enabled(s, n, a) && ChangeOf(s, n, a).TakeOver?
    ensures TailOk(Apply(s, n, a))
  {
    StepMovesQueue(s, n, a);
    TransferRenames(s, n, a);
    hide Invariant, Apply, Enabled;
  }

  lemma TailStays(s: State, n: NodeId, a: Act)
    requires Enabled(s, n, a)
    ensures ChangeOf(s, n, a).Same? ==> Apply(s, n, a).tail == s.tail
    ensures ChangeOf(s, n, a).Grow? ==> Apply(s, n, a).tail == Some(n)
    ensures ChangeOf(s, n, a).HandOn? ==> Apply(s, n, a).tail == if a.DoSwapTail? then None else s.tail
  {
    hide Rename;
  }

  lemma HandOnKeepsTail(s: State, n: NodeId, a: Act)
    requires Invariant(s) && Enabled(s, n, a) && ChangeOf(s, n, a).HandOn?
    ensures a.DoSwapTail? <==> |s.queue| == 1
  {
    NodeIsOk(s, n);
    OwnerIsHead(s, n);
  }

  lemma OthersKeepTail(s: State, n: NodeId, a: Act)
    requires Invariant(s) && Enabled(s, n, a) && !ChangeOf(s, n, a).TakeOver?
    ensures TailOk(Apply(s, n, a))
  {
    StepMovesQueue(s, n, a);
    TailStays(s, n, a);
    if ChangeOf(s, n, a).HandOn? { HandOnKeepsTail(s, n, a); }
    assert TailOk(s);
    hide Invariant, Apply, Enabled, ChangeOf, Owns, Queued;
  }

  lemma StepKeepsTail(s: State, n: NodeId, a: Act)
    requires Invariant(s) && Enabled(s, n, a)
    ensures TailOk(Apply(s, n, a))
  {
    hide *;
    if ChangeOf(s, n, a).TakeOver? { TransferKeepsTail(s, n, a); } else { OthersKeepTail(s, n, a); }
  }

  // ----- what holds in every run ---------------------------------------------------------------

  lemma InitInvariant(s: State)
    requires Init(s)
    ensures Invariant(s)
  {
    forall n ensures NodeOk(s, n) {
      assert Get(s.nodes, n).pc == Fresh;
    }
  }

  lemma {:induction false} RunKeepsInvariant(ss: seq<State>, i: nat)
    requires Run(ss) && i < |ss|
    ensures Invariant(ss[i])
  {
    if i == 0 {
      InitInvariant(ss[0]);
    } else {
      RunKeepsInvariant(ss, i - 1);
      assert Step(ss[i - 1], ss[i - 1 + 1]);
      var n, a :| Enabled(ss[i - 1], n, a) && ss[i] == Apply(ss[i - 1], n, a);
      StepKeepsInvariant(ss[i - 1], n, a);
    }
  }

  ghost predicate Reachable(s: State) {
    exists ss :: Run(ss) && ss[|ss| - 1] == s
  }

  lemma ReachableInvariant(s: State)
    requires Reachable(s)
    ensures Invariant(s)
  {
    var ss :| Run(ss) && ss[|ss| - 1] == s;
    RunKeepsInvariant(ss, |ss| - 1);
  }

  /** At most one node owns the lock: the one whose ticket is the number of hand-overs so far. */
  lemma MutualExclusion(s: State, m: NodeId, n: NodeId)
    requires Reachable(s) && Owns(Get(s.nodes, m).pc) && Owns(Get(s.nodes, n).pc)
    ensures m == n && Get(s.nodes, n).ticket == s.released
  {
    ReachableInvariant(s);
    OwnerIsHead(s, m);
    OwnerIsHead(s, n);
    NodeIsOk(s, n);
  }

  lemma {:induction false} HandOversOnlyGrow(ss: seq<State>, i: nat, j: nat)
    requires Run(ss) && i <= j < |ss|
    ensures ss[i].released <= ss[j].released
  {
    if i < j {
      HandOversOnlyGrow(ss, i, j - 1);
      RunKeepsInvariant(ss, j - 1);
      assert Step(ss[j - 1], ss[j - 1 + 1]);
      var n, a :| Enabled(ss[j - 1], n, a) && ss[j] == Apply(ss[j - 1], n, a);
      StepMovesQueue(ss[j - 1], n, a);
    }
  }

  /** First come, first served: over a whole run the lock is owned in the order of the tail
      exchanges (StepMovesQueue: a ticket is the number of exchanges before its own, and a transfer
      passes the ticket on). */
  lemma FirstComeFirstServed(ss: seq<State>, i: nat, j: nat, m: NodeId, n: NodeId)
    requires Run(ss) && i <= j < |ss|
    requires Owns(Get(ss[i].nodes, m).pc) && Owns(Get(ss[j].nodes, n).pc)
    ensures Get(ss[i].nodes, m).ticket <= Get(ss[j].nodes, n).ticket
    ensures forall k :: Queued(Get(ss[i].nodes, k).pc) ==> Get(ss[i].nodes, m).ticket <= Get(ss[i].nodes, k).ticket
  {
    RunKeepsInvariant(ss, i);
    RunKeepsInvariant(ss, j);
    HandOversOnlyGrow(ss, i, j);
    NodeIsOk(ss[i], m); NodeIsOk(ss[j], n);
    forall k | Queued(Get(ss[i].nodes, k).pc)
      ensures Get(ss[i].nodes, m).ticket <= Get(ss[i].nodes, k).ticket
    {
      NodeIsOk(ss[i], k);
    }
  }

  /** A hand-over is never lost: it leaves the lock free, or readies exactly the node next in line,
      by its flag or by the event it is about to set. */
  lemma HandOverReadiesNext(s: State, n: NodeId, a: Act)
    requires Reachable(s) && Enabled(s, n, a) && ChangeOf(s, n, a).HandOn?
    ensures var s' := Apply(s, n, a);
            if s'.queue == [] then s'.tail.None?
            else
              var x := s'.queue[0];
              || (Get(s'.nodes, x).ready == Raised && Get(s'.nodes, n).pc == Done)
              || (Get(s'.nodes, x).ready == Event(false) && Get(s'.nodes, x).pc == Wait(Ready, Sleep)
                  && Get(s'.nodes, n).pc == Signal(x, Ready))
  {
    ReachableInvariant(s);
    NodeIsOk(s, n);
    if a.DoSet? { OwnerIsHead(s, n); } else { assert s.tail == Some(n); OwnerIsHead(s, n); }
  }

  /** Nobody sleeps on an unsignalled event in vain: the one to set it is about to, or has not got
      that far yet. */
  lemma SleeperHasWaker(s: State, n: NodeId)
    requires Reachable(s) && Get(s.nodes, n).pc.Wait? && Get(s.nodes, n).pc.at.Sleep?
    requires Get(s.nodes, n).Flag(Get(s.nodes, n).pc.which) != Event(true)
    ensures var w := Get(s.nodes, n).pc.which;
            && Get(s.nodes, n).Flag(w) == Event(false)
            && if w == Ready then
                 || Get(s.nodes, n).ticket > s.released
                 || (s.passing.Some? && Get(s.nodes, s.passing.value).pc == Signal(n, Ready))
               else
                 && |s.queue| > 1 && s.queue[0] == n
                 && var p := Get(s.nodes, s.queue[1]).pc; p == Link(n) || p == Set(n, Next) || p == Signal(n, Next)
  {
    ReachableInvariant(s);
    NodeIsOk(s, n);
    if Get(s.nodes, n).pc.which == Next {
      OwnerIsHead(s, n);
    } else if s.passing.Some? {
      PassingTarget(s);
      NodeIsOk(s, s.passing.value); NodeIsOk(s, Get(s.nodes, s.passing.value).pc.target);
    }
  }

  /** SetEvent is only ever called on the live event of a sleeping node, and the next pointer that a
      release or transfer follows is never null. */
  lemma NoStaleHandle(s: State, n: NodeId)
    requires Reachable(s)
    ensures var p := Get(s.nodes, n).pc;
            && (p.Signal? ==>
                  var r := Get(s.nodes, p.target);
                  r.pc == Wait(p.which, Sleep) && r.Flag(p.which) == Event(false))
            && (p.RereadNext? || p.XferCopy? ==> Get(s.nodes, n).next.Some?)
            && (p.Set? && p.which == Ready ==> |s.queue| > 1 && p.target == s.queue[1])
  {
    ReachableInvariant(s);
    var p := Get(s.nodes, n).pc;
    NodeIsOk(s, n);
    if p.Signal? { assert NodeOk(s, p.target); }
    if p.Set? && p.which == Ready { OwnerIsHead(s, n); }
  }

  /** Steps of an operation under way; calling one is the client's business. */
  predicate Internal(a: Act) { !a.Acquire? && !a.TryAcquire? && !a.Release? && !a.Transfer? }

  lemma CanGoOn(s: State, n: NodeId, a: Act)
    requires Internal(a) && Enabled(s, n, a)
    ensures exists k, b :: Internal(b) && Enabled(s, k, b)
  {
  }

  /** As long as somebody queues, some operation can go on, unless the head simply holds the lock. */
  lemma NoDeadlock(s: State)
    requires Reachable(s) && |s.queue| > 0 && Get(s.nodes, s.queue[0]).pc != Holding
    ensures exists n, a :: Internal(a) && Enabled(s, n, a)
  {
    ReachableInvariant(s);
    var n := s.queue[0];
    SlotIsOk(s, 0); NodeIsOk(s, n);
    var r := Get(s.nodes, n);
    match r.pc
    case Set(_, _) => CanGoOn(s, n, DoSet);
    case Signal(_, _) => CanGoOn(s, n, DoSignal);
    case Wait(_, Look) => CanGoOn(s, n, DoLook);
    case Wait(_, Store) => CanGoOn(s, n, DoStore);
    case Wait(w, Sleep) => SleepingHeadIsServed(s, n);
    case ReadNext => CanGoOn(s, n, DoReadNext);
    case SwapTail => CanGoOn(s, n, DoSwapTail);
    case RereadNext => CanGoOn(s, n, DoRereadNext);
    case XferSwap(_) => CanGoOn(s, n, DoXferSwap);
    case XferSpin(_) => SpinningHeadIsServed(s, n);
    case XferCopy(_) => CanGoOn(s, n, DoXferCopy);
    case _ =>
  }

  lemma SleepingHeadIsServed(s: State, n: NodeId)
    requires Reachable(s) && |s.queue| > 0 && s.queue[0] == n
    requires Get(s.nodes, n).pc.Wait? && Get(s.nodes, n).pc.at.Sleep?
    ensures exists k, a :: Internal(a) && Enabled(s, k, a)
  {
    ReachableInvariant(s);
    SlotIsOk(s, 0);
    var w := Get(s.nodes, n).pc.which;
    if Get(s.nodes, n).Flag(w) == Event(true) {
      CanGoOn(s, n, Wake);
    } else {
      SleeperHasWaker(s, n);
      if w == Ready {
        CanGoOn(s, s.passing.value, DoSignal);
      } else {
        var x := s.queue[1];
        var p := Get(s.nodes, x).pc;
        CanGoOn(s, x, if p.Link? then DoLink else if p.Set? then DoSet else DoSignal);
      }
    }
  }

  lemma SpinningHeadIsServed(s: State, n: NodeId)
    requires Reachable(s) && |s.queue| > 0 && s.queue[0] == n && Get(s.nodes, n).pc.XferSpin?
    ensures exists k, a :: Internal(a) && Enabled(s, k, a)
  {
    ReachableInvariant(s);
    NodeIsOk(s, n);
    OwnerIsHead(s, n);
    if Get(s.nodes, n).next.Some? {
      CanGoOn(s, n, DoXferSpin);
    } else {
      CanGoOn(s, s.queue[1], DoLink);
    }
  }

  // ----- the lock as its users see it ----------------------------------------------------------

  /** Who has the lock, if anybody. */
  ghost function Owner(s: State): Option<NodeId> {
    if |s.queue| > 0 && Owns(Get(s.nodes, s.queue[0]).pc) then Some(s.queue[0]) else None
  }

  lemma OwnerIsTheOwner(s: State, n: NodeId)
    requires Reachable(s)
    ensures Owns(Get(s.nodes, n).pc) <==> Owner(s) == Some(n)
  {
    ReachableInvariant(s);
    OwnsIfOwner(s, n);
  }

  lemma OwnsIfOwner(s: State, n: NodeId)
    requires Invariant(s)
    ensures Owns(Get(s.nodes, n).pc) <==> Owner(s) == Some(n)
  {
    if Owns(Get(s.nodes, n).pc) { OwnerIsHead(s, n); }
  }

  lemma HandOnFrees(s: State, n: NodeId, a: Act)
    requires Invariant(s) && Enabled(s, n, a) && ChangeOf(s, n, a).HandOn?
    ensures Owner(s) == Some(n) && Owner(Apply(s, n, a)).None?
  {
    StepMovesQueue(s, n, a);
    OwnerIsHead(s, n);
    hide Invariant, Apply, Enabled;
    if |s.queue| > 1 { OthersStay(s, n, a, s.queue[1]); }
  }

  lemma TakeOverMoves(s: State, n: NodeId, a: Act)
    requires Invariant(s) && Enabled(s, n, a) && ChangeOf(s, n, a).TakeOver?
    ensures Owner(s) == Some(n) && Owner(Apply(s, n, a)) == Some(ChangeOf(s, n, a).to)
  {
    StepMovesQueue(s, n, a);
    hide Invariant, Apply, Enabled;
  }

  lemma OthersKeepOwner(s: State, n: NodeId, a: Act)
    requires Invariant(s) && Enabled(s, n, a) && (ChangeOf(s, n, a).Same? || ChangeOf(s, n, a).Grow?)
    ensures var o, o' := Owner(s), Owner(Apply(s, n, a)); o' == o || (o.None? && o' == Some(n))
  {
    StepMovesQueue(s, n, a);
    if |s.queue| > 0 {
      SlotIsOk(s, 0);
      SlotsApart(s, 0, 0);
      if s.queue[0] != n { OthersStay(s, n, a, s.queue[0]); }
      else if Owns(Get(s.nodes, n).pc) { OwnerGoesOn(s, n, a); }
    }
    hide Invariant, Apply, Enabled, Owns;
  }

  /** Who has the lock keeps it, but for a hand-over or a transfer. */
  lemma OwnerGoesOn(s: State, n: NodeId, a: Act)
    requires Enabled(s, n, a) && Owns(Get(s.nodes, n).pc) && ChangeOf(s, n, a).Same?
    ensures Owns(Get(Apply(s, n, a).nodes, n).pc)
  {
  }

  /** Every step leaves the owner alone, gives a free lock to the node that takes the step, frees
      the lock of the node that takes it, or moves it from that node to the one it transfers to. */
  lemma RefinesAbstractLock(s: State, n: NodeId, a: Act)
    requires Reachable(s) && Enabled(s, n, a)
    ensures var o, o' := Owner(s), Owner(Apply(s, n, a));
            match ChangeOf(s, n, a)
            case HandOn => o == Some(n) && o'.None?
            case TakeOver(to) => o == Some(n) && o' == Some(to)
            case _ => o' == o || (o.None? && o' == Some(n))
  {
    ReachableInvariant(s);
    hide *;
    match ChangeOf(s, n, a)
    case HandOn => HandOnFrees(s, n, a);
    case TakeOver(_) => TakeOverMoves(s, n, a);
    case _ => OthersKeepOwner(s, n, a);
  }
}
