/** Summing a weight over the program counters of all threads.

    Every protocol of this project counts threads ("waiters that hold a token", "readers inside")
    or adds up quantities that threads carry ("posts not yet issued"). Both are a tally: the sum of
    weight(pc) over the finite map from threads to program counters. */
module Tally {

  ghost function Total<T, P>(pcs: map<T, P>, weight: P -> nat): nat
    decreases |pcs|
  {
    if pcs == map[] then 0
    else
      var t := Some(pcs);
      assert |pcs - {t}| < |pcs| by { Without(pcs, t); }
      weight(pcs[t]) + Total(pcs - {t}, weight)
  }

  ghost function Some<T, P>(pcs: map<T, P>): (t: T)
    requires pcs != map[]
    ensures t in pcs
  {
    assert pcs.Keys != {};
    var t :| t in pcs;
    t
  }

  lemma Without<T, P>(pcs: map<T, P>, t: T)
    requires t in pcs
    ensures |pcs - {t}| == |pcs| - 1
    ensures (pcs - {t}).Keys == pcs.Keys - {t}
  {
    assert (pcs - {t}).Keys == pcs.Keys - {t};
    assert |pcs.Keys| == |pcs| && |(pcs - {t}).Keys| == |pcs - {t}|;
  }

  /** The thread taken out first does not matter. */
  lemma {:induction false} Split<T, P>(pcs: map<T, P>, weight: P -> nat, t: T)
    requires t in pcs
    ensures Total(pcs, weight) == weight(pcs[t]) + Total(pcs - {t}, weight)
    decreases |pcs|
  {
    Without(pcs, t);
    var u := Some(pcs);
    Without(pcs, u);
    if u != t {
      Split(pcs - {u}, weight, t);
      Split(pcs - {t}, weight, u);
      assert pcs - {u} - {t} == pcs - {t} - {u};
    }
  }

  /** Moving one thread changes a total by the difference of its weights. */
  lemma Update<T, P>(pcs: map<T, P>, weight: P -> nat, t: T, p: P)
    requires t in pcs
    ensures Total(pcs[t := p], weight) == Total(pcs, weight) - weight(pcs[t]) + weight(p)
  {
    Split(pcs, weight, t);
    Split(pcs[t := p], weight, t);
    assert pcs[t := p] - {t} == pcs - {t};
  }

  /** One thread weighs no more than all of them. */
  lemma AtLeast<T, P>(pcs: map<T, P>, weight: P -> nat, t: T)
    requires t in pcs
    ensures weight(pcs[t]) <= Total(pcs, weight)
  {
    Split(pcs, weight, t);
  }

  lemma AtLeastTwo<T, P>(pcs: map<T, P>, weight: P -> nat, t: T, u: T)
    requires t in pcs && u in pcs && t != u
    ensures weight(pcs[t]) + weight(pcs[u]) <= Total(pcs, weight)
  {
    Split(pcs, weight, t);
    AtLeast(pcs - {t}, weight, u);
  }

  /** A positive total has a thread behind it. */
  lemma {:induction false} Witness<T, P>(pcs: map<T, P>, weight: P -> nat) returns (t: T)
    requires Total(pcs, weight) > 0
    ensures t in pcs && weight(pcs[t]) > 0
    decreases |pcs|
  {
    var u :| u in pcs;
    Split(pcs, weight, u);
    if weight(pcs[u]) > 0 {
      t := u;
    } else {
      Without(pcs, u);
      t := Witness(pcs - {u}, weight);
    }
  }

  /** Totals add up pointwise. */
  lemma {:induction false} Compare<T, P>(pcs: map<T, P>, lesser: P -> nat, greater: P -> nat)
    requires forall t :: t in pcs ==> lesser(pcs[t]) <= greater(pcs[t])
    ensures Total(pcs, lesser) <= Total(pcs, greater)
    decreases |pcs|
  {
    if t :| t in pcs {
      Split(pcs, lesser, t);
      Split(pcs, greater, t);
      Without(pcs, t);
      Compare(pcs - {t}, lesser, greater);
    } else {
      assert |pcs.Keys| == |pcs|;
      assert pcs == map[];
    }
  }

  /** If no thread weighs more than one, the total counts threads. */
  lemma {:induction false} AtMostOneEach<T, P>(pcs: map<T, P>, weight: P -> nat)
    requires forall t :: t in pcs ==> weight(pcs[t]) <= 1
    ensures Total(pcs, weight) <= |pcs|
    decreases |pcs|
  {
    if pcs != map[] {
      var t := Some(pcs);
      Without(pcs, t);
      AtMostOneEach(pcs - {t}, weight);
    }
  }

  /** A total is zero when nobody contributes. */
  lemma Nobody<T, P>(pcs: map<T, P>, weight: P -> nat)
    requires forall t :: t in pcs ==> weight(pcs[t]) == 0
    ensures Total(pcs, weight) == 0
  {
    if Total(pcs, weight) > 0 {
      var t := Witness(pcs, weight);
    }
  }
}
