/** Runs as sequences of events, and what a thread has done in them. */
module Traces {

  /** Thread `who` takes step `act` from state `before` to state `after`. */
  datatype Event<S, A> = Event(before: S, who: nat, act: A, after: S)

  /** Each event starts where the one before has led. */
  ghost predicate Linked<S, A>(es: seq<Event<S, A>>) {
    forall k :: 0 <= k < |es| - 1 ==> es[k].after == es[k + 1].before
  }

  /** After the i-th event, thread t has been in an event of this kind. */
  ghost predicate Took<S(!new), A(!new)>(es: seq<Event<S, A>>, i: nat, t: nat, kind: Event<S, A> -> bool) {
    exists k :: i < k < |es| && es[k].who == t && kind(es[k])
  }

  /** In how many events of this kind thread t has been after the i-th event. */
  ghost function Times<S(!new), A(!new)>(es: seq<Event<S, A>>, i: nat, t: nat, kind: Event<S, A> -> bool): nat {
    if |es| <= i + 1 then 0
    else Times(Init(es), i, t, kind) + if Last(es).who == t && kind(Last(es)) then 1 else 0
  }

  function Init<S, A>(es: seq<Event<S, A>>): seq<Event<S, A>>
    requires |es| > 0
  {
    es[..|es| - 1]
  }

  function Last<S, A>(es: seq<Event<S, A>>): Event<S, A>
    requires |es| > 0
  {
    es[|es| - 1]
  }

  lemma TookNothing<S(!new), A(!new)>(es: seq<Event<S, A>>, t: nat, kind: Event<S, A> -> bool)
    requires |es| > 0
    ensures !Took(es, |es| - 1, t, kind)
  {
  }

  /** One more event. */
  lemma TookNext<S(!new), A(!new)>(es: seq<Event<S, A>>, i: nat, t: nat, kind: Event<S, A> -> bool)
    requires i < |es| - 1
    ensures Took(es, i, t, kind) <==> Took(Init(es), i, t, kind) || (Last(es).who == t && kind(Last(es)))
  {
    if Took(es, i, t, kind) {
      var k :| i < k < |es| && es[k].who == t && kind(es[k]);
      assert k < |es| - 1 ==> Init(es)[k] == es[k];
    }
    if Took(Init(es), i, t, kind) {
      var k :| i < k < |es| - 1 && Init(es)[k].who == t && kind(Init(es)[k]);
      assert es[k] == Init(es)[k];
    }
  }
}
