/** What a call of the queue lock comes to, over whole runs of the machine of module McsLock: an
    acquisition queues once and ends in possession, a release hands the lock on exactly once, a
    transfer puts the new node in the place of the old one exactly once and hands nothing on. */
module McsLaws {
  import opened Common
  import opened McsLock
  import Traces

  type Event = Traces.Event<State, Act>

  predicate Starts(a: Act) { !Internal(a) }

  predicate Calls(e: Event) { Starts(e.act) }

  predicate Moves(s: State, s': State) { s'.queue != s.queue || s'.released != s.released }

  /** n leaves the head of the queue. */
  predicate Leaves(s: State, s': State, n: NodeId) {
    |s.queue| > 0 && s.queue[0] == n && s'.queue == s.queue[1..] && s'.released == s.released + 1
  }

  /** Node `to` stands, in possession, where n stood. */
  ghost predicate PutsInPlace(s: State, s': State, n: NodeId, to: NodeId) {
    && |s.queue| > 0 && s.queue[0] == n != to && s'.queue == s.queue[0 := to] && s'.released == s.released
    && Get(s'.nodes, to).pc.Holding? && Owner(s') == Some(to)
  }

  predicate MovesQueue(e: Event) { Moves(e.before, e.after) }
  predicate HandsOn(e: Event) { Leaves(e.before, e.after, e.who) }
  ghost function TakesPlace(to: NodeId): Event -> bool { (e: Event) => PutsInPlace(e.before, e.after, e.who, to) }

  predicate Happens(e: Event) { Enabled(e.before, e.who, e.act) && e.after == Apply(e.before, e.who, e.act) }

  /** A run that goes on from a reachable state. */
  ghost predicate Trace(es: seq<Event>) {
    |es| > 0 && Reachable(es[0].before) && Traces.Linked(es) && forall k :: 0 <= k < |es| ==> Happens(es[k])
  }

  lemma {:induction false} TraceKeepsInvariant(es: seq<Event>)
    requires Trace(es)
    ensures Invariant(Traces.Last(es).before) && Invariant(Traces.Last(es).after)
  {
    if |es| > 1 {
      TraceKeepsInvariant(Traces.Init(es));
      assert Traces.Last(Traces.Init(es)) == es[|es| - 2];
      assert es[|es| - 2].after == es[|es| - 2 + 1].before;
    } else {
      ReachableInvariant(es[0].before);
    }
    StepKeepsInvariant(Traces.Last(es).before, Traces.Last(es).who, Traces.Last(es).act);
  }

  /** With the i-th event a call on node n begins, and n has had no other since. */
  ghost predicate InCall(es: seq<Event>, i: nat, n: NodeId) {
    Trace(es) && i < |es| && es[i].who == n && Calls(es[i]) && Traces.Times(es, i, n, Calls) == 0
  }

  lemma InCallBefore(es: seq<Event>, i: nat, n: NodeId)
    requires InCall(es, i, n) && i < |es| - 1
    ensures InCall(Traces.Init(es), i, n) && Traces.Last(Traces.Init(es)).after == Traces.Last(es).before
    ensures Traces.Last(es).who == n ==> !Calls(Traces.Last(es))
  {
    assert es[|es| - 2].after == es[|es| - 2 + 1].before;
  }

  /** Where node n can be after this call; since then it has moved the queue so often, handed the lock
      on so often, and been replaced so often by the node that the call has named. */
  predicate During(call: Act, moves: nat, handOns: nat, takeOvers: nat, p: Pc) {
    match call
    case Acquire => moves == handOns == takeOvers == 0 && (Acquiring(p) || p.Holding?)
    case Release =>
      takeOvers == 0 && moves == handOns
      && (if handOns == 0 then Releasing(p)
          else handOns == 1 && (p.Done? || (p.Signal? && p.which == Ready)))
    case Transfer(to) =>
      handOns == 0 && moves == takeOvers
      && (if takeOvers == 0 then p == XferSwap(to) || p == XferSpin(to) || p == XferCopy(to)
          else takeOvers == 1 && p.Done?)
    case _ => false
  }

  function Named(call: Act): NodeId { if call.Transfer? then call.to else 0 }

  lemma CallBegins(s: State, n: NodeId, a: Act)
    requires Invariant(s) && Enabled(s, n, a) && Starts(a) && !a.TryAcquire?
    ensures During(a, 0, 0, 0, Get(Apply(s, n, a).nodes, n).pc)
  {
    NodeIsOk(s, n);
  }

  /** A transfer puts its new node in place when it comes to its end. */
  lemma TransferGoesOn(s: State, n: NodeId, a: Act, to: NodeId)
    requires Invariant(s) && Enabled(s, n, a) && Internal(a)
    requires var p := Get(s.nodes, n).pc; p == XferSwap(to) || p == XferSpin(to) || p == XferCopy(to)
    ensures var s', p' := Apply(s, n, a), Get(Apply(s, n, a).nodes, n).pc;
            if p'.Done? then PutsInPlace(s, s', n, to) && Moves(s, s') && !Leaves(s, s', n)
            else (p' == XferSpin(to) || p' == XferCopy(to)) && !Moves(s, s')
  {
    StepMovesQueue(s, n, a);
    NodeIsOk(s, n);
    OwnerIsHead(s, n);
  }

  predicate Releasing(p: Pc) { Owns(p) && !p.Holding? && !p.XferSwap? && !p.XferSpin? && !p.XferCopy? }

  /** A release leaves the queue in the step in which it gives up possession. */
  lemma ReleaseGoesOn(s: State, n: NodeId, a: Act)
    requires Invariant(s) && Enabled(s, n, a) && Internal(a) && Releasing(Get(s.nodes, n).pc)
    ensures var s', p' := Apply(s, n, a), Get(Apply(s, n, a).nodes, n).pc;
            if Releasing(p') then !Moves(s, s')
            else (p'.Done? || (p'.Signal? && p'.which == Ready)) && Moves(s, s') && Leaves(s, s', n)
  {
    StepMovesQueue(s, n, a);
    NodeIsOk(s, n);
    OwnerIsHead(s, n);
  }

  lemma OthersGoOn(s: State, n: NodeId, a: Act)
    requires Invariant(s) && Enabled(s, n, a) && Internal(a) && !Owns(Get(s.nodes, n).pc)
    ensures var p, p' := Get(s.nodes, n).pc, Get(Apply(s, n, a).nodes, n).pc;
            && !Moves(s, Apply(s, n, a))
            && (Acquiring(p) ==> Acquiring(p') || p'.Holding?)
            && (p.Signal? && p.which == Ready ==> p'.Done?)
  {
    StepMovesQueue(s, n, a);
    NodeIsOk(s, n);
  }

  lemma DoneIsDone(s: State, n: NodeId, a: Act)
    requires Enabled(s, n, a) && Internal(a)
    ensures !Get(s.nodes, n).pc.Done?
  {
  }

  lemma MovesAreOneKind(s: State, s': State, n: NodeId, to: NodeId)
    ensures Leaves(s, s', n) ==> Moves(s, s') && !PutsInPlace(s, s', n, to)
    ensures PutsInPlace(s, s', n, to) ==> Moves(s, s')
  {
  }

  /** The queue moves as the program counter says. */
  lemma CallGoesOn(s: State, n: NodeId, a: Act, call: Act, moves: nat, handOns: nat, takeOvers: nat)
    requires Invariant(s) && Enabled(s, n, a) && Internal(a) && Starts(call) && !call.TryAcquire?
    requires During(call, moves, handOns, takeOvers, Get(s.nodes, n).pc)
    ensures var s' := Apply(s, n, a);
            During(call, moves + (if Moves(s, s') then 1 else 0), handOns + (if Leaves(s, s', n) then 1 else 0),
                   takeOvers + (if PutsInPlace(s, s', n, Named(call)) then 1 else 0), Get(s'.nodes, n).pc)
  {
    hide Apply, Enabled, Invariant, Moves, Leaves, PutsInPlace, Get;
    DoneIsDone(s, n, a);
    MovesAreOneKind(s, Apply(s, n, a), n, Named(call));
    match call
    case Acquire => if !Get(s.nodes, n).pc.Holding? { OthersGoOn(s, n, a); } else { HolderCalls(s, n, a); }
    case Release => if handOns == 0 { ReleaseGoesOn(s, n, a); } else { OthersGoOn(s, n, a); }
    case Transfer(to) => TransferGoesOn(s, n, a, to);
  }

  lemma HolderCalls(s: State, n: NodeId, a: Act)
    requires Enabled(s, n, a) && Get(s.nodes, n).pc.Holding?
    ensures Starts(a)
  {
  }

  /** The others do not move a node that is in a call. */
  lemma OthersLeaveIt(s: State, m: NodeId, a: Act, n: NodeId, call: Act, moves: nat, handOns: nat, takeOvers: nat)
    requires Invariant(s) && Enabled(s, m, a) && m != n
    requires During(call, moves, handOns, takeOvers, Get(s.nodes, n).pc)
    ensures Get(Apply(s, m, a).nodes, n).pc == Get(s.nodes, n).pc
  {
    assert n in s.nodes && !Get(s.nodes, n).pc.Embryo?;
    NodeIsOk(s, m);
    OthersStay(s, m, a, n);
  }

  lemma {:induction false} CallFollowed(es: seq<Event>, i: nat, n: NodeId)
    requires InCall(es, i, n) && !es[i].act.TryAcquire?
    ensures var call := es[i].act;
            During(call, Traces.Times(es, i, n, MovesQueue), Traces.Times(es, i, n, HandsOn),
                   Traces.Times(es, i, n, TakesPlace(Named(call))), Get(Traces.Last(es).after.nodes, n).pc)
  {
    var e, was, call := Traces.Last(es), Traces.Init(es), es[i].act;
    TraceKeepsInvariant(es);
    hide Apply, Enabled, Invariant, Moves, Leaves, PutsInPlace, Get, Reachable, During;
    if i == |es| - 1 {
      CallBegins(e.before, n, call);
    } else {
      InCallBefore(es, i, n);
      CallFollowed(was, i, n);
      var moves, handOns := Traces.Times(was, i, n, MovesQueue), Traces.Times(was, i, n, HandsOn);
      var takeOvers := Traces.Times(was, i, n, TakesPlace(Named(call)));
      if e.who == n { CallGoesOn(e.before, n, e.act, call, moves, handOns, takeOvers); }
      else { OthersLeaveIt(e.before, e.who, e.act, n, call, moves, handOns, takeOvers); }
    }
  }

  /** An acquisition never moves the queue after it has joined it, and only ends in possession. A
      release that is done has left the queue once, a transfer that is done has put its new node in
      its place once, and neither has moved the queue otherwise; before that they are in possession. */
  lemma CallsKeepTheirWord(es: seq<Event>, i: nat, n: NodeId)
    requires InCall(es, i, n)
    ensures var call, p := es[i].act, Get(Traces.Last(es).after.nodes, n).pc;
            var moves, handOns := Traces.Times(es, i, n, MovesQueue), Traces.Times(es, i, n, HandsOn);
            && (call.Acquire? ==> moves == 0 && (Acquiring(p) || p.Holding?))
            && (call.Release? ==> moves == handOns <= 1 && (handOns == 0 <==> Owns(p)) && (p.Done? ==> handOns == 1))
            && (call.Transfer? ==>
                  var takeOvers := Traces.Times(es, i, n, TakesPlace(call.to));
                  handOns == 0 && moves == takeOvers <= 1 && if takeOvers == 0 then Owns(p) else p.Done?)
  {
    if !es[i].act.TryAcquire? { CallFollowed(es, i, n); }
  }

  /** A call of acquire joins the end of the queue; try-acquire does so, and has the lock at once, if
      and only if nobody queues. */
  lemma CallJoins(s: State, n: NodeId, a: Act)
    requires Reachable(s) && Enabled(s, n, a) && (a.Acquire? || a.TryAcquire?)
    ensures var s' := Apply(s, n, a);
            if a.TryAcquire? && s.queue != [] then s' == s
            else s'.queue == s.queue + [n] && s'.released == s.released && (Owner(s') == Some(n) <==> s.queue == [])
  {
    ReachableInvariant(s);
    StepMovesQueue(s, n, a);
  }
}
