/** The mesh of thread-specific data: ptw32_tkAssocCreate.c, ptw32_tkAssocDestroy.c,
    pthread_setspecific.c, pthread_key_delete.c and ptw32_callUserDestroyRoutines.c.

    An association stands at the crossing of two doubly linked chains, the one of its thread and the
    one of its key. Each chain is also kept as a sequence, in a ghost field. */
module KeyMesh {

  datatype Result = Ok | ENOMEM | EAGAIN

  /** Contents of a thread-local slot; 0 stands for NULL. */
  type Value = nat

  const NULL: Value := 0

  const PTHREAD_DESTRUCTOR_ITERATIONS := 4

  // ----- sequences -----------------------------------------------------------------------------

  function At(s: seq<Assoc>, i: int): Assoc? { if 0 <= i < |s| then s[i] else null }

  function RemoveAt(s: seq<Assoc>, i: nat): (r: seq<Assoc>)
    requires i < |s|
    ensures |r| == |s| - 1
  {
    s[..i] + s[i + 1..]
  }

  /** s' has the members of s but for a. */
  ghost predicate Lost(s: seq<Assoc>, s': seq<Assoc>, a: Assoc) {
    (forall b :: b in s' ==> b in s && b != a) && (forall b :: b in s ==> b == a || b in s')
  }

  lemma RemoveAtMembers(s: seq<Assoc>, i: nat)
    requires i < |s| && forall j :: 0 <= j < |s| && j != i ==> s[j] != s[i]
    ensures Lost(s, RemoveAt(s, i), s[i])
  {
    var r := RemoveAt(s, i);
    forall b | b in s ensures b == s[i] || b in r {
      var j :| 0 <= j < |s| && s[j] == b;
      if j != i { assert r[if j < i then j else j - 1] == b; }
    }
  }

  /** A chain of associations without those of key k. */
  function Without(s: seq<Assoc>, k: KeyS): seq<Assoc> {
    if s == [] then [] else (if s[0].key == k then [] else [s[0]]) + Without(s[1..], k)
  }

  lemma {:induction false} WithoutNone(s: seq<Assoc>, k: KeyS)
    requires forall i :: 0 <= i < |s| ==> s[i].key != k
    ensures Without(s, k) == s
  {
    if s != [] { WithoutNone(s[1..], k); }
  }

  lemma {:induction false} WithoutAppend(s: seq<Assoc>, r: seq<Assoc>, k: KeyS)
    ensures Without(s + r, k) == Without(s, k) + Without(r, k)
  {
    if s == [] {
      assert s + r == r;
    } else {
      assert (s + r)[0] == s[0] && (s + r)[1..] == s[1..] + r;
      WithoutAppend(s[1..], r, k);
    }
  }

  /** Taking one out in place is what Without does, if the others belong to other keys. */
  lemma {:induction false} WithoutOne(s: seq<Assoc>, i: nat)
    requires i < |s| && forall j :: 0 <= j < |s| && j != i ==> s[j].key != s[i].key
    ensures Without(s, s[i].key) == RemoveAt(s, i)
  {
    if i == 0 {
      WithoutNone(s[1..], s[0].key);
    } else {
      assert s[1..][i - 1] == s[i];
      WithoutOne(s[1..], i - 1);
      assert RemoveAt(s, i) == [s[0]] + RemoveAt(s[1..], i - 1);
    }
  }

  lemma {:induction false} WithoutHasNone(s: seq<Assoc>, k: KeyS)
    ensures forall a :: a in Without(s, k) ==> a in s && a.key != k
    ensures forall a :: a in s && a.key != k ==> a in Without(s, k)
  {
    if s != [] { WithoutHasNone(s[1..], k); }
  }

  lemma {:induction false} WithoutShortens(s: seq<Assoc>, k: KeyS)
    ensures |Without(s, k)| <= |s|
  {
    if s != [] { WithoutShortens(s[1..], k); }
  }

  lemma WithoutTwice(s: seq<Assoc>, k: KeyS)
    ensures Without(Without(s, k), k) == Without(s, k)
  {
    WithoutHasNone(s, k);
    WithoutNone(Without(s, k), k);
  }

  /** The part of the chain before a cursor, and the part from it on. */
  function Split(s: seq<Assoc>, c: nat): (seq<Assoc>, seq<Assoc>) {
    if c <= |s| then (s[..c], s[c..]) else (s, [])
  }

  lemma SplitPush(a: Assoc, s: seq<Assoc>, c: nat)
    requires c <= |s|
    ensures Split([a] + s, c + 1) == ([a] + s[..c], s[c..])
  {
    assert ([a] + s)[..c + 1] == [a] + s[..c] && ([a] + s)[c + 1..] == s[c..];
  }

  lemma SplitNext(s: seq<Assoc>, c: nat)
    requires c < |s|
    ensures Split(s, c + 1) == (Split(s, c).0 + [s[c]], Split(s, c).1[1..])
  {
    assert s[..c + 1] == s[..c] + [s[c]] && s[c..][1..] == s[c + 1..];
  }

  lemma SplitRemove(s: seq<Assoc>, c: nat)
    requires 0 < c <= |s|
    ensures Split(RemoveAt(s, c - 1), c - 1) == (s[..c - 1], s[c..]) && s[..c] == s[..c - 1] + [s[c - 1]]
  {
    assert RemoveAt(s, c - 1)[..c - 1] == s[..c - 1] && RemoveAt(s, c - 1)[c - 1..] == s[c..];
  }

  function SplitWithout(p: (seq<Assoc>, seq<Assoc>), k: KeyS): (seq<Assoc>, seq<Assoc>) {
    (Without(p.0, k), Without(p.1, k))
  }

  /** A chain that has lost a key's associations on both sides of the cursor has lost them as a whole. */
  lemma PartsWithout(s: seq<Assoc>, c: nat, r: seq<Assoc>, d: nat, k: KeyS)
    requires c <= |s| && d <= |r| && Split(r, d) == SplitWithout(Split(s, c), k)
    ensures r == Without(s, k)
  {
    WithoutAppend(s[..c], s[c..], k);
    assert s == s[..c] + s[c..] && r == r[..d] + r[d..];
  }

  lemma RemoveBefore(s: seq<Assoc>, i: nat, c: nat)
    requires i < c <= |s|
    ensures RemoveAt(s, i)[..c - 1] == RemoveAt(s[..c], i) && RemoveAt(s, i)[c - 1..] == s[c..]
  {
    assert s[..c][..i] == s[..i] && s[..c][i + 1..] == s[i + 1..c];
    assert RemoveAt(s, i)[..c - 1] == s[..i] + s[i + 1..c];
  }

  lemma RemoveBehind(s: seq<Assoc>, i: nat, c: nat)
    requires c <= i < |s|
    ensures RemoveAt(s, i)[..c] == s[..c] && RemoveAt(s, i)[c..] == RemoveAt(s[c..], i - c)
  {
    assert s[c..][..i - c] == s[c..i] && s[c..][i - c + 1..] == s[i + 1..];
    assert RemoveAt(s, i)[c..] == s[c..i] + s[i + 1..];
  }

  /** Taking one out, the cursor stays where it is in what remains. */
  lemma WithoutOneSplit(s: seq<Assoc>, i: nat, c: nat)
    requires i < |s| && c <= |s| && forall j :: 0 <= j < |s| && j != i ==> s[j].key != s[i].key
    ensures Split(RemoveAt(s, i), if i < c then c - 1 else c) == SplitWithout(Split(s, c), s[i].key)
  {
    hide Without, RemoveAt;
    if i < c {
      RemoveBefore(s, i, c);
      WithoutOne(s[..c], i);
      WithoutNone(s[c..], s[i].key);
    } else {
      RemoveBehind(s, i, c);
      assert s[c..][i - c] == s[i];
      WithoutNone(s[..c], s[i].key);
      WithoutOne(s[c..], i - c);
    }
  }

  // ----- one chain -----------------------------------------------------------------------------

  /** An association, with its links in both chains. */
  class Assoc {
    const thread: ThreadS
    const key: KeyS
    var nextKey: Assoc?
    var prevKey: Assoc?
    var nextThread: Assoc?
    var prevThread: Assoc?

    constructor (thread: ThreadS, key: KeyS)
      ensures this.thread == thread && this.key == key
    {
      this.thread, this.key := thread, key;
      nextKey, prevKey, nextThread, prevThread := null, null, null, null;
    }
  }

  /** The i-th association of thread t's chain s is linked to its neighbours. */
  ghost predicate KeyLinks(s: seq<Assoc>, t: ThreadS, i: int)
    reads s`nextKey, s`prevKey
  {
    0 <= i < |s| ==> s[i].thread == t && s[i].nextKey == At(s, i + 1) && s[i].prevKey == At(s, i - 1)
  }

  ghost predicate ThreadLinks(s: seq<Assoc>, k: KeyS, i: int)
    reads s`nextThread, s`prevThread
  {
    0 <= i < |s| ==> s[i].key == k && s[i].nextThread == At(s, i + 1) && s[i].prevThread == At(s, i - 1)
  }

  predicate KeysApart(s: seq<Assoc>, i: int, j: int) { 0 <= i < j < |s| ==> s[i].key != s[j].key }

  predicate ThreadsApart(s: seq<Assoc>, i: int, j: int) { 0 <= i < j < |s| ==> s[i].thread != s[j].thread }

  class ThreadS {
    var keys: Assoc?
    var nextAssoc: Assoc?
    ghost var chain: seq<Assoc>
    ghost var cursor: nat        // where nextAssoc stands in the chain; its length for NULL

    constructor ()
      ensures Ok() && chain == []
    {
      keys, nextAssoc, chain, cursor := null, null, [], 0;
    }

    /** The links are those of the chain and the keys on it are distinct. */
    ghost predicate Linked()
      reads this, chain`nextKey, chain`prevKey
    {
      keys == At(chain, 0) && (forall i :: KeyLinks(chain, this, i)) && (forall i, j :: KeysApart(chain, i, j))
    }

    /** And nextAssoc is on the chain or NULL. */
    ghost predicate Ok()
      reads this, chain`nextKey, chain`prevKey
    {
      Linked() && nextAssoc == At(chain, cursor) && cursor <= |chain|
    }

    /** ptw32_tkAssocCreate.c:108-114. */
    method Push(assoc: Assoc)
      requires Ok() && assoc.thread == this && forall i :: 0 <= i < |chain| ==> chain[i].key != assoc.key
      modifies this`keys, this`chain, this`cursor, chain`prevKey, assoc`nextKey, assoc`prevKey
      ensures Ok() && chain == [assoc] + old(chain) && cursor == old(cursor) + 1
    {
      ghost var was := chain;
      assert KeyLinks(was, this, 0);
      assoc.prevKey := null;
      assoc.nextKey := keys;
      if assoc.nextKey != null {
        assoc.nextKey.prevKey := assoc;
      }
      keys := assoc;
      chain, cursor := [assoc] + chain, cursor + 1;
      forall j ensures KeyLinks(chain, this, j) {
        assert old(KeyLinks(was, this, j - 1));
        assert KeysApart(was, 0, j - 1);
      }
      forall i, j ensures KeysApart(chain, i, j) {
        assert KeysApart(was, i - 1, j - 1);
      }
    }

    /** ptw32_callUserDestroyRoutines.c:156. */
    method Advance()
      requires Ok() && nextAssoc != null
      modifies this`nextAssoc, this`cursor
      ensures Ok() && cursor == old(cursor) + 1
    {
      assert KeyLinks(chain, this, cursor);
      nextAssoc := nextAssoc.nextKey;
      cursor := cursor + 1;
    }

    /** ptw32_callUserDestroyRoutines.c:107. */
    method Restart()
      requires Ok()
      modifies this`nextAssoc, this`cursor
      ensures Ok() && cursor == 0
    {
      nextAssoc, cursor := keys, 0;
    }

    /** ptw32_tkAssocDestroy.c:68-91. */
    method Unlink(assoc: Assoc, ghost i: nat)
      requires Ok() && i < |chain| && chain[i] == assoc
      modifies this, chain`nextKey, chain`prevKey
      ensures Ok() && chain == RemoveAt(old(chain), i) && Lost(old(chain), chain, assoc)
      ensures cursor == if i < old(cursor) then old(cursor) - 1 else old(cursor)
    {
      ghost var was := chain;
      assert KeysApart(was, i, cursor) && KeysApart(was, cursor, i);
      forall j | 0 <= j < |was| && j != i ensures was[j] != assoc {
        assert KeysApart(was, i, j) && KeysApart(was, j, i);
      }
      RemoveAtMembers(was, i);
      var next := UnlinkKeys(assoc, i);
      if nextAssoc == assoc { nextAssoc := next; }
      cursor := if i < cursor then cursor - 1 else cursor;
    }

    /** ptw32_tkAssocDestroy.c:68-83. */
    method UnlinkKeys(assoc: Assoc, ghost i: nat) returns (next: Assoc?)
      requires Linked() && i < |chain| && chain[i] == assoc
      modifies this`keys, this`chain, chain`nextKey, chain`prevKey
      ensures Linked() && chain == RemoveAt(old(chain), i) && next == At(old(chain), i + 1)
    {
      ghost var was := chain;
      assert KeyLinks(was, this, i) && KeysApart(was, 0, i);
      var prev := assoc.prevKey;
      next := assoc.nextKey;
      if prev != null { prev.nextKey := next; }
      if next != null { next.prevKey := prev; }
      if keys == assoc { keys := next; }
      chain := RemoveAt(chain, i);
      forall j ensures KeyLinks(chain, this, j) {
        var o := if j < i then j else j + 1;
        assert old(KeyLinks(was, this, o));
        assert KeysApart(was, i - 1, o) && KeysApart(was, o, i - 1) && KeysApart(was, i + 1, o)
            && KeysApart(was, o, i + 1);
      }
      forall a, b ensures KeysApart(chain, a, b) {
        assert KeysApart(was, if a < i then a else a + 1, if b < i then b else b + 1);
      }
    }
  }

  class KeyS {
    const destructor: bool
    var threads: Assoc?
    var values: map<ThreadS, Value>
    ghost var chain: seq<Assoc>

    constructor (destructor: bool)
      ensures this.destructor == destructor && Ok() && chain == [] && values == map[]
    {
      this.destructor := destructor;
      threads, values, chain := null, map[], [];
    }

    ghost predicate Ok()
      reads this`threads, this`chain, chain`nextThread, chain`prevThread
    {
      && threads == At(chain, 0)
      && (forall i :: ThreadLinks(chain, this, i)) && (forall i, j :: ThreadsApart(chain, i, j))
    }

    /** What TlsGetValue returns in thread t. */
    function Get(t: ThreadS): Value
      reads this
    {
      if t in values then values[t] else NULL
    }

    /** ptw32_tkAssocCreate.c:97-103. */
    method Push(assoc: Assoc)
      requires Ok() && assoc.key == this && forall i :: 0 <= i < |chain| ==> chain[i].thread != assoc.thread
      modifies this`threads, this`chain, chain`prevThread, assoc`nextThread, assoc`prevThread
      ensures Ok() && chain == [assoc] + old(chain)
    {
      ghost var was := chain;
      assert ThreadLinks(was, this, 0);
      assoc.prevThread := null;
      assoc.nextThread := threads;
      if assoc.nextThread != null {
        assoc.nextThread.prevThread := assoc;
      }
      threads := assoc;
      chain := [assoc] + chain;
      forall j ensures ThreadLinks(chain, this, j) {
        assert old(ThreadLinks(was, this, j - 1));
        assert ThreadsApart(was, 0, j - 1);
      }
      forall i, j ensures ThreadsApart(chain, i, j) {
        assert ThreadsApart(was, i - 1, j - 1);
      }
    }

    /** ptw32_tkAssocDestroy.c:94-109. */
    method Unlink(assoc: Assoc, ghost i: nat)
      requires Ok() && i < |chain| && chain[i] == assoc
      modifies this`threads, this`chain, chain`nextThread, chain`prevThread
      ensures Ok() && chain == RemoveAt(old(chain), i) && Lost(old(chain), chain, assoc)
    {
      ghost var was := chain;
      assert ThreadLinks(was, this, i) && ThreadsApart(was, 0, i);
      forall j | 0 <= j < |was| && j != i ensures was[j] != assoc {
        assert ThreadsApart(was, i, j) && ThreadsApart(was, j, i);
      }
      RemoveAtMembers(was, i);
      var prev, next := assoc.prevThread, assoc.nextThread;
      if prev != null { prev.nextThread := next; }
      if next != null { next.prevThread := prev; }
      if threads == assoc { threads := next; }
      chain := RemoveAt(chain, i);
      forall j ensures ThreadLinks(chain, this, j) {
        var o := if j < i then j else j + 1;
        assert old(ThreadLinks(was, this, o));
        assert ThreadsApart(was, i - 1, o) && ThreadsApart(was, o, i - 1) && ThreadsApart(was, i + 1, o)
            && ThreadsApart(was, o, i + 1);
      }
      forall a, b ensures ThreadsApart(chain, a, b) {
        assert ThreadsApart(was, if a < i then a else a + 1, if b < i then b else b + 1);
      }
    }
  }

  /** A call of the destructor of a key, in a thread, with the value that its slot had. */
  datatype Call = Call(key: KeyS, thread: ThreadS, value: Value)

  /** The calls with a value among these. */
  function WithValue(s: seq<Call>): seq<Call> {
    if s == [] then [] else (if s[0].value == NULL then [] else [s[0]]) + WithValue(s[1..])
  }

  lemma {:induction false} WithValueAppend(s: seq<Call>, r: seq<Call>)
    ensures WithValue(s + r) == WithValue(s) + WithValue(r)
  {
    if s == [] {
      assert s + r == r;
    } else {
      assert (s + r)[0] == s[0] && (s + r)[1..] == s[1..] + r;
      WithValueAppend(s[1..], r);
    }
  }

  /** The calls that a pass makes of these. */
  function Made(pass: nat, s: seq<Call>): seq<Call> {
    if pass <= PTHREAD_DESTRUCTOR_ITERATIONS then WithValue(s) else []
  }

  lemma MadeAppend(pass: nat, made: seq<Call>, s: seq<Call>, r: seq<Call>)
    ensures made + Made(pass, s) + Made(pass, r) == made + Made(pass, s + r)
  {
    WithValueAppend(s, r);
    assert made + WithValue(s) + WithValue(r) == made + (WithValue(s) + WithValue(r));
  }

  lemma DueMoves(s: seq<Call>, r: seq<Call>, ahead: seq<Call>)
    ensures WithValue(s) + (WithValue(r) + ahead) == WithValue(s + r) + ahead
  {
    WithValueAppend(s, r);
  }

  /** The calls that thread t owes for these associations, when its slots hold these values. */
  function Due(s: seq<Assoc>, values: map<KeyS, Value>, t: ThreadS): seq<Call> {
    if s == [] then []
    else
      var k := s[0].key;
      (if k in values && values[k] != NULL then [Call(k, t, values[k])] else []) + Due(s[1..], values, t)
  }

  lemma {:induction false} DueElsewhere(s: seq<Assoc>, values: map<KeyS, Value>, t: ThreadS, k: KeyS)
    requires forall i :: 0 <= i < |s| ==> s[i].key != k
    ensures Due(s, values[k := NULL], t) == Due(s, values, t)
  {
    if s != [] { DueElsewhere(s[1..], values, t, k); }
  }

  lemma {:induction false} DueAppend(s: seq<Assoc>, a: Assoc, values: map<KeyS, Value>, t: ThreadS)
    requires a.key in values ==> values[a.key] == NULL
    ensures Due(s + [a], values, t) == Due(s, values, t)
  {
    if s == [] {
      assert s + [a] == [a] && [a][1..] == [];
    } else {
      assert (s + [a])[0] == s[0] && (s + [a])[1..] == s[1..] + [a];
      DueAppend(s[1..], a, values, t);
    }
  }

  /** The first association ahead has been visited: what was due for it is not due any more. */
  lemma VisitedDue(done: seq<Assoc>, ahead: seq<Assoc>, values: map<KeyS, Value>, t: ThreadS)
    requires |ahead| > 0 && ahead[0].key in values && forall i, j :: KeysApart(done + ahead, i, j)
    ensures var k := ahead[0].key;
            var values' := values[k := NULL];
            && Due(ahead, values, t) ==
                 (if values[k] == NULL then [] else [Call(k, t, values[k])]) + Due(ahead[1..], values', t)
            && Due(done, values', t) == Due(done + [ahead[0]], values', t) == Due(done, values, t)
  {
    var s, k, n := done + ahead, ahead[0].key, |done|;
    forall i | 0 <= i < |done| ensures done[i].key != k { assert KeysApart(s, i, n) && s[i] == done[i]; }
    forall i | 0 <= i < |ahead[1..]| ensures ahead[1..][i].key != k {
      assert KeysApart(s, n, n + 1 + i) && s[n + 1 + i] == ahead[1..][i];
    }
    DueElsewhere(done, values, t, k);
    DueElsewhere(ahead[1..], values, t, k);
    DueAppend(done, ahead[0], values[k := NULL], t);
  }

  /** What a thread may do to the mesh. */
  datatype Op =
    | Set(t: ThreadS, k: KeyS, value: Value, memory: bool, slot: bool)
    | Delete(k: KeyS)

  // ----- the mesh ------------------------------------------------------------------------------

  class Mesh {
    var threads: set<ThreadS>
    var keys: set<KeyS>
    ghost var assocs: set<Assoc>
    ghost var taken: seq<Call>   // what the walks have found in the slots, in this order
    ghost var calls: seq<Call>   // the calls they have made

    constructor (threads: set<ThreadS>, keys: set<KeyS>)
      requires forall t :: t in threads ==> t.Ok() && t.chain == []
      requires forall k :: k in keys ==> k.Ok() && k.chain == [] && k.values == map[]
      ensures this.threads == threads && this.keys == keys && assocs == {} && Valid()
    {
      this.threads, this.keys, assocs, taken, calls := threads, keys, {}, [], [];
    }

    ghost predicate ThreadFits(t: ThreadS, live: set<Assoc>)
      reads t, live`nextKey, live`prevKey
    {
      (forall a :: a in t.chain ==> a in live && a.thread == t) && t.Ok()
    }

    ghost predicate KeyFits(k: KeyS, live: set<Assoc>)
      reads k`threads, k`chain, live`nextThread, live`prevThread
    {
      (forall a :: a in k.chain ==> a in live && a.key == k && k.destructor) && k.Ok()
    }

    ghost predicate OnThread(a: Assoc)
      reads this`threads, threads
    {
      a.thread in threads && a in a.thread.chain
    }

    ghost predicate OnKey(a: Assoc, among: set<KeyS>)
      reads among`chain
    {
      a.key in among && a in a.key.chain
    }

    /** The live associations are on exactly their own threads' chains. */
    ghost predicate ThreadSide(live: set<Assoc>)
      reads this`threads, threads, live`nextKey, live`prevKey
    {
      && (forall t {:trigger ThreadFits(t, live)} :: t in threads ==> ThreadFits(t, live))
      && (forall a {:trigger OnThread(a)} :: a in live ==> OnThread(a))
    }

    /** And on exactly their own keys' chains. */
    ghost predicate KeySide(among: set<KeyS>, live: set<Assoc>)
      reads among`threads, among`chain, live`nextThread, live`prevThread
    {
      && (forall k {:trigger KeyFits(k, live)} :: k in among ==> KeyFits(k, live))
      && (forall a {:trigger OnKey(a, among)} :: a in live ==> OnKey(a, among))
    }

    ghost predicate Linked()
      reads this, threads, keys, assocs
    {
      ThreadSide(assocs) && KeySide(keys, assocs)
    }

    ghost predicate Has(t: ThreadS, k: KeyS)
      reads this`assocs
    {
      exists a :: a in assocs && a.thread == t && a.key == k
    }

    /** A value that a destructor will have to see has an association. */
    ghost predicate ValuesKept()
      reads this, keys
    {
      forall t, k :: t in threads && k in keys && k.destructor && k.Get(t) != NULL ==> Has(t, k)
    }

    ghost predicate Valid()
      reads this, threads, keys, assocs
    {
      Linked() && ValuesKept()
    }

    method DropFromThread(assoc: Assoc, ghost live: set<Assoc>, ghost i: nat)
      requires ThreadSide(live) && assoc in live && i < |assoc.thread.chain| && assoc.thread.chain[i] == assoc
      modifies assoc.thread, assoc.thread.chain`nextKey, assoc.thread.chain`prevKey
      ensures ThreadSide(live - {assoc})
      ensures assoc.thread.chain == RemoveAt(old(assoc.thread.chain), i)
      ensures assoc.thread.cursor ==
                if i < old(assoc.thread.cursor) then old(assoc.thread.cursor) - 1 else old(assoc.thread.cursor)
    {
      assert OnThread(assoc) && ThreadFits(assoc.thread, live);
      assoc.thread.Unlink(assoc, i);
      forall t | t in threads ensures ThreadFits(t, live - {assoc}) {
        assert old(ThreadFits(t, live));
        if t != assoc.thread {
          assert forall a :: a in t.chain ==> a.nextKey == old(a.nextKey) && a.prevKey == old(a.prevKey);
        }
      }
      forall a | a in live - {assoc} ensures OnThread(a) { assert old(OnThread(a)); }
    }

    method DropFromKey(assoc: Assoc, ghost live: set<Assoc>, ghost i: nat)
      requires KeySide(keys, live) && assoc in live && i < |assoc.key.chain| && assoc.key.chain[i] == assoc
      modifies assoc.key`threads, assoc.key`chain, assoc.key.chain`nextThread, assoc.key.chain`prevThread
      ensures KeySide(keys, live - {assoc})
      ensures assoc.key.chain == RemoveAt(old(assoc.key.chain), i)
    {
      assert OnKey(assoc, keys) && KeyFits(assoc.key, live);
      assoc.key.Unlink(assoc, i);
      forall k | k in keys ensures KeyFits(k, live - {assoc}) {
        assert old(KeyFits(k, live));
        if k != assoc.key {
          assert forall a :: a in k.chain ==> a.nextThread == old(a.nextThread) && a.prevThread == old(a.prevThread);
        }
      }
      forall a | a in live - {assoc} ensures OnKey(a, keys) { assert old(OnKey(a, keys)); }
    }

    /** ptw32_tkAssocDestroy.c:63-112. */
    method Destroy(assoc: Assoc, ghost i: nat, ghost j: nat)
      requires Linked() && assoc in assocs
      requires i < |assoc.thread.chain| && assoc.thread.chain[i] == assoc
      requires j < |assoc.key.chain| && assoc.key.chain[j] == assoc
      modifies this`assocs, assoc.thread, assoc.key`threads, assoc.key`chain
      modifies assoc.thread.chain`nextKey, assoc.thread.chain`prevKey
      modifies assoc.key.chain`nextThread, assoc.key.chain`prevThread
      ensures Linked() && assocs == old(assocs) - {assoc}
      ensures assoc.thread.chain == RemoveAt(old(assoc.thread.chain), i)
      ensures assoc.key.chain == RemoveAt(old(assoc.key.chain), j)
      ensures assoc.thread.cursor ==
                if i < old(assoc.thread.cursor) then old(assoc.thread.cursor) - 1 else old(assoc.thread.cursor)
    {
      DropFromThread(assoc, assocs, i);
      DropFromKey(assoc, assocs, j);
      assocs := assocs - {assoc};
    }

    method AddToThread(assoc: Assoc, ghost live: set<Assoc>)
      requires ThreadSide(live) && assoc !in live && assoc.thread in threads
      requires forall a :: a in live && a.thread == assoc.thread ==> a.key != assoc.key
      modifies assoc.thread`keys, assoc.thread`chain, assoc.thread`cursor, assoc.thread.chain`prevKey
      modifies assoc`nextKey, assoc`prevKey
      ensures ThreadSide(live + {assoc})
      ensures assoc.thread.chain == [assoc] + old(assoc.thread.chain)
      ensures assoc.thread.cursor == old(assoc.thread.cursor) + 1
    {
      assert ThreadFits(assoc.thread, live);
      assoc.thread.Push(assoc);
      forall t | t in threads ensures ThreadFits(t, live + {assoc}) {
        assert old(ThreadFits(t, live));
        if t != assoc.thread {
          assert forall a :: a in t.chain ==> a.nextKey == old(a.nextKey) && a.prevKey == old(a.prevKey);
        }
      }
      forall a | a in live + {assoc} ensures OnThread(a) { assert a != assoc ==> old(OnThread(a)); }
    }

    method AddToKey(assoc: Assoc, ghost live: set<Assoc>)
      requires KeySide(keys, live) && assoc !in live && assoc.key in keys && assoc.key.destructor
      requires forall a :: a in live && a.key == assoc.key ==> a.thread != assoc.thread
      modifies assoc.key`threads, assoc.key`chain, assoc.key.chain`prevThread, assoc`nextThread, assoc`prevThread
      ensures KeySide(keys, live + {assoc}) && assoc.key.chain == [assoc] + old(assoc.key.chain)
    {
      assert KeyFits(assoc.key, live);
      assoc.key.Push(assoc);
      forall k | k in keys ensures KeyFits(k, live + {assoc}) {
        assert old(KeyFits(k, live));
        if k != assoc.key {
          assert forall a :: a in k.chain ==> a.nextThread == old(a.nextThread) && a.prevThread == old(a.prevThread);
        }
      }
      forall a | a in live + {assoc} ensures OnKey(a, keys) { assert a != assoc ==> old(OnKey(a, keys)); }
    }

    /** ptw32_tkAssocCreate.c:84-116; `memory` is whether calloc finds some. */
    method Create(t: ThreadS, k: KeyS, memory: bool) returns (result: Result, assoc: Assoc?)
      requires Linked() && t in threads && k in keys && k.destructor && !Has(t, k)
      modifies this`assocs, t`keys, t`chain, t`cursor, t.chain`prevKey, k`threads, k`chain, k.chain`prevThread
      ensures Linked() && result == if memory then Ok else ENOMEM
      ensures memory ==>
                && assoc != null && fresh(assoc) && assoc.thread == t && assoc.key == k
                && assocs == old(assocs) + {assoc} && k.chain == [assoc] + old(k.chain)
                && t.chain == [assoc] + old(t.chain) && t.cursor == old(t.cursor) + 1
      ensures !memory ==>
                assocs == old(assocs) && k.chain == old(k.chain) && t.chain == old(t.chain) && t.cursor == old(t.cursor)
    {
      if !memory { return ENOMEM, null; }
      assoc := new Assoc(t, k);
      assert ThreadSide(assocs) && KeySide(keys, assocs);
      AddToKey(assoc, assocs);
      assert ThreadSide(assocs);
      AddToThread(assoc, assocs);
      assert KeySide(keys, assocs + {assoc});
      assocs := assocs + {assoc};
      result := Ok;
    }

    /** pthread_setspecific.c:129-143. */
    method Find(t: ThreadS, k: KeyS) returns (assoc: Assoc?)
      requires Linked() && t in threads
      ensures assoc == null <==> !Has(t, k)
      ensures assoc != null ==> assoc in assocs && assoc.thread == t && assoc.key == k
    {
      assert ThreadFits(t, assocs);
      HasOnChain(t, k);
      assoc := t.keys;
      ghost var n := 0;
      while assoc != null
        invariant 0 <= n <= |t.chain| && assoc == At(t.chain, n)
        invariant forall i :: 0 <= i < n ==> t.chain[i].key != k
        decreases |t.chain| - n
      {
        if assoc.key == k { break; }
        assert KeyLinks(t.chain, t, n);
        assoc := assoc.nextKey;
        n := n + 1;
      }
      if assoc != null { assert assoc in t.chain; }
    }

    lemma HasOnChain(t: ThreadS, k: KeyS)
      requires Linked() && t in threads
      ensures Has(t, k) <==> exists i :: 0 <= i < |t.chain| && t.chain[i].key == k
    {
      assert ThreadFits(t, assocs);
      if Has(t, k) {
        var a :| a in assocs && a.thread == t && a.key == k;
        assert OnThread(a);
      }
      if i :| 0 <= i < |t.chain| && t.chain[i].key == k { assert t.chain[i] in t.chain; }
    }

    /** What an association made for t and k changes. */
    twostate predicate Associated(t: ThreadS, k: KeyS)
      reads this, t, k
    {
      exists a :: a in assocs && a !in old(assocs) && a.thread == t && a.key == k && assocs == old(assocs) + {a}
                  && t.chain == [a] + old(t.chain) && t.cursor == old(t.cursor) + 1 && k.chain == [a] + old(k.chain)
    }

    twostate predicate ChainsKept(t: ThreadS, k: KeyS)
      reads this, t, k
    {
      assocs == old(assocs) && t.chain == old(t.chain) && t.cursor == old(t.cursor) && k.chain == old(k.chain)
    }

    /** pthread_setspecific.c:129-151. */
    method Associate(t: ThreadS, k: KeyS, memory: bool) returns (result: Result)
      requires Linked() && t in threads && k in keys && k.destructor
      modifies this`assocs, t`keys, t`chain, t`cursor, t.chain`prevKey, k`threads, k`chain, k.chain`prevThread
      ensures Linked() && fresh(assocs - old(assocs)) && old(assocs) <= assocs
      ensures result == if !old(Has(t, k)) && !memory then ENOMEM else Ok
      ensures if !old(Has(t, k)) && memory then Associated(t, k) else ChainsKept(t, k)
      ensures result.Ok? ==> Has(t, k)
    {
      var assoc := Find(t, k);
      result := Ok;
      if assoc == null { result, assoc := Create(t, k, memory); }
    }

    /** pthread_setspecific.c:106-164. `memory` and `slot` are whether calloc and TlsSetValue succeed. */
    method SetSpecific(t: ThreadS, k: KeyS, value: Value, memory: bool, slot: bool) returns (result: Result)
      requires Valid() && t in threads && k in keys
      modifies this`assocs, t`keys, t`chain, t`cursor, t.chain`prevKey, k`threads, k`chain, k`values, k.chain`prevThread
      ensures Valid() && fresh(assocs - old(assocs))
      // an association is made when it is needed and there is none
      ensures var make := k.destructor && value != NULL && !old(Has(t, k));
              && result == (if make && !memory then ENOMEM else if slot then Ok else EAGAIN)
              && (if make && memory then Associated(t, k) else ChainsKept(t, k))
      // the value is stored if and only if the result says so
      ensures k.Get(t) == if result.Ok? then value else old(k.Get(t))
      ensures forall u :: u in threads && u != t ==> k.Get(u) == old(k.Get(u))
    {
      result := Ok;
      if k.destructor && value != NULL {
        result := Associate(t, k, memory);
      }
      if result == Ok { result := Store(t, k, value, slot); }
    }

    /** pthread_setspecific.c:153-159. */
    method Store(t: ThreadS, k: KeyS, value: Value, slot: bool) returns (result: Result)
      requires Linked() && t in threads && k in keys && (k.destructor && value != NULL ==> Has(t, k))
      requires ValuesKept()
      modifies k`values
      ensures Valid() && result == (if slot then Ok else EAGAIN)
      ensures k.Get(t) == if slot then value else old(k.Get(t))
      ensures forall u :: u in threads && u != t ==> k.Get(u) == old(k.Get(u))
    {
      if !slot { return EAGAIN; }
      k.values := k.values[t := value];
      result := Ok;
    }

    /** Thread t's chain before and after nextAssoc. */
    ghost function Parts(t: ThreadS): (seq<Assoc>, seq<Assoc>)
      reads t
    {
      Split(t.chain, t.cursor)
    }

    /** Destroying the first association of a key, seen from all threads. */
    method DestroyNext(assoc: Assoc, k: KeyS)
      requires Linked() && assoc in assocs && assoc.key == k && |k.chain| > 0 && k.chain[0] == assoc
      modifies this`assocs, assoc.thread, k`threads, k`chain
      modifies assoc.thread.chain`nextKey, assoc.thread.chain`prevKey, k.chain`nextThread, k.chain`prevThread
      ensures Linked() && assocs == old(assocs) - {assoc} && k.chain == old(k.chain)[1..]
      ensures forall t :: t in threads ==> SplitWithout(Parts(t), k) == old(SplitWithout(Parts(t), k))
      ensures Parts(assoc.thread) == old(SplitWithout(Parts(assoc.thread), k))
    {
      ghost var t := assoc.thread;
      assert OnThread(assoc) && ThreadFits(t, assocs);
      ghost var i :| 0 <= i < |t.chain| && t.chain[i] == assoc;
      forall j | 0 <= j < |t.chain| && j != i ensures t.chain[j].key != k {
        assert KeysApart(t.chain, i, j) && KeysApart(t.chain, j, i);
      }
      WithoutOneSplit(t.chain, i, t.cursor);
      WithoutTwice(Parts(t).0, k);
      WithoutTwice(Parts(t).1, k);
      Destroy(assoc, i, 0);
    }

    /** pthread_key_delete.c:86-107, run without interference. */
    method DestroyAll(k: KeyS)
      requires Linked() && k in keys
      modifies this`assocs, k`threads, k`chain, threads
      modifies assocs`nextKey, assocs`prevKey, assocs`nextThread, assocs`prevThread
      ensures Linked() && k.chain == [] && forall a :: a in assocs ==> a in old(assocs)
      ensures forall a :: a in old(assocs) && a.key != k ==> a in assocs
      ensures forall t :: t in threads ==> SplitWithout(Parts(t), k) == old(SplitWithout(Parts(t), k))
    {
      while k.threads != null
        invariant Linked() && forall a :: a in assocs ==> a in old(assocs)
        invariant forall a :: a in old(assocs) && a.key != k ==> a in assocs
        invariant forall t :: t in threads ==> SplitWithout(Parts(t), k) == old(SplitWithout(Parts(t), k))
        decreases |k.chain|
      {
        assert KeyFits(k, assocs);
        var assoc := k.threads;
        assert assoc in k.chain && OnThread(assoc) && ThreadFits(assoc.thread, assocs);
        DestroyNext(assoc, k);
      }
      assert KeyFits(k, assocs);
    }

    /** pthread_key_delete.c:72-125. */
    method KeyDelete(k: KeyS)
      requires Valid() && k in keys
      modifies this`assocs, this`keys, k`threads, k`chain, threads
      modifies assocs`nextKey, assocs`prevKey, assocs`nextThread, assocs`prevThread
      ensures Valid() && keys == old(keys) - {k} && k.chain == []
      // that key's associations are gone, and all others are left, in order
      ensures forall a :: a in assocs ==> a in old(assocs) && a.key != k
      ensures forall a :: a in old(assocs) && a.key != k ==> a in assocs
      ensures forall t :: t in threads ==> Parts(t) == old(SplitWithout(Parts(t), k))
      ensures forall t :: t in threads ==> t.chain == old(Without(t.chain, k))
    {
      assert KeyFits(k, assocs) && (k.chain != [] ==> k.chain[0] in k.chain);
      if k.threads != null && k.destructor { DestroyAll(k); }
      forall a | a in assocs ensures a.key != k { assert OnKey(a, keys); }
      NothingLeft(k);
      forall t | t in threads ensures t.chain == old(Without(t.chain, k)) {
        assert ThreadFits(t, assocs) && old(ThreadFits(t, assocs));
        PartsWithout(old(t.chain), old(t.cursor), t.chain, t.cursor, k);
      }
      KeyGone(k);
      keys := keys - {k};
    }

    /** Where no association is of key k, no chain has any to lose. */
    lemma NothingLeft(k: KeyS)
      requires ThreadSide(assocs) && forall a :: a in assocs ==> a.key != k
      ensures forall t :: t in threads ==> Parts(t) == SplitWithout(Parts(t), k)
    {
      forall t | t in threads ensures Parts(t) == SplitWithout(Parts(t), k) {
        assert ThreadFits(t, assocs);
        WithoutNone(Parts(t).0, k);
        WithoutNone(Parts(t).1, k);
      }
    }

    /** A key without associations can go. */
    lemma KeyGone(k: KeyS)
      requires KeySide(keys, assocs) && k in keys && k.chain == []
      ensures KeySide(keys - {k}, assocs)
    {
      forall a | a in assocs ensures OnKey(a, keys - {k}) { assert OnKey(a, keys); }
    }

    // ----- thread exit -------------------------------------------------------------------------

    /** What may happen in between: thread t sets a value, or somebody deletes a key. What names a
        key that has been deleted does not happen; threads at their exit set values in destructors only. */
    method Perform(op: Op, sp: ThreadS, inDestructor: bool)
      requires Valid() && sp in threads
      modifies this`assocs, this`keys, threads, keys, assocs
      ensures Valid() && keys <= old(keys) && fresh(assocs - old(assocs))
      ensures |Parts(sp).1| <= old(|Parts(sp).1|)
      ensures !inDestructor ==> |Parts(sp).0| <= old(|Parts(sp).0|)
      ensures op.Delete? ==> op.k !in keys
      ensures op.Set? && op.memory && op.slot && op.t in threads && op.k in keys && (inDestructor || op.t != sp) ==>
                op.k.Get(op.t) == op.value
    {
      match op
      case Set(t, k, value, memory, slot) =>
        if t in threads && k in keys && (inDestructor || t != sp) {
          assert ThreadFits(t, assocs) && KeyFits(k, assocs);
          ghost var chain, cursor := t.chain, t.cursor;
          var _ := SetSpecific(t, k, value, memory, slot);
          if t.cursor != cursor { SplitPush(t.chain[0], chain, cursor); }
        }
      case Delete(k) =>
        if k in keys {
          WithoutShortens(Parts(sp).0, k);
          WithoutShortens(Parts(sp).1, k);
          KeyDelete(k);
        }
    }

    /** What the slots of thread t hold. */
    ghost function ValuesOf(t: ThreadS): map<KeyS, Value>
      reads this`keys, keys
    {
      map k | k in keys :: k.Get(t)
    }

    /** Chains, cursors and values are as they were. */
    twostate predicate Still()
      reads this, threads, keys
    {
      && keys == old(keys) && threads == old(threads)
      && (forall t :: t in old(threads) ==> t.chain == old(t.chain) && t.cursor == old(t.cursor))
      && (forall k :: k in old(keys) ==> k.values == old(k.values))
    }

    /** The calls due for the associations ahead of the cursor, and for those behind it. */
    ghost function DueAhead(sp: ThreadS): seq<Call>
      reads this`keys, keys, sp
    {
      Due(Parts(sp).1, ValuesOf(sp), sp)
    }

    ghost function DueBehind(sp: ThreadS): seq<Call>
      reads this`keys, keys, sp
    {
      Due(Parts(sp).0, ValuesOf(sp), sp)
    }

    twostate lemma StillDue(sp: ThreadS)
      requires Still() && sp in old(threads)
      ensures DueAhead(sp) == old(DueAhead(sp)) && DueBehind(sp) == old(DueBehind(sp))
    {
      assert ValuesOf(sp) == old(ValuesOf(sp));
    }

    method PerformAll(ops: seq<Op>, sp: ThreadS, inDestructor: bool)
      requires Valid() && sp in threads
      modifies this`assocs, this`keys, threads, keys, assocs
      ensures Valid() && keys <= old(keys) && fresh(assocs - old(assocs))
      ensures |Parts(sp).1| <= old(|Parts(sp).1|)
      ensures !inDestructor ==> |Parts(sp).0| <= old(|Parts(sp).0|)
      ensures ops == [] ==> Still()
    {
      for n := 0 to |ops|
        invariant Valid() && keys <= old(keys) && fresh(assocs - old(assocs))
        invariant |Parts(sp).1| <= old(|Parts(sp).1|)
        invariant !inDestructor ==> |Parts(sp).0| <= old(|Parts(sp).0|)
        invariant n == 0 ==> Still()
      {
        Perform(ops[n], sp, inDestructor);
      }
    }

    /** The user's destructor for key k, called in thread sp: its value has been cleared. */
    method CallDestructor(k: KeyS, sp: ThreadS, value: Value, ops: seq<Op>)
      requires Valid() && sp in threads && k in keys && k.destructor && value != NULL && k.Get(sp) == NULL
      modifies this`assocs, this`keys, this`calls, threads, keys, assocs
      ensures Valid() && keys <= old(keys) && fresh(assocs - old(assocs))
      ensures |Parts(sp).1| <= old(|Parts(sp).1|)
      ensures calls == old(calls) + [Call(k, sp, value)]
      ensures ops == [] ==> Still()
    {
      calls := calls + [Call(k, sp, value)];
      PerformAll(ops, sp, true);
    }

    /** ptw32_callUserDestroyRoutines.c:156. */
    method MoveOn(sp: ThreadS) returns (assoc: Assoc)
      requires Valid() && sp in threads && sp.nextAssoc != null
      modifies sp`nextAssoc, sp`cursor
      ensures Valid() && assoc in assocs && assoc.thread == sp && assoc == old(sp.nextAssoc)
      ensures sp.cursor == old(sp.cursor) + 1 <= |sp.chain| && sp.chain[old(sp.cursor)] == assoc
      ensures assoc.key in keys && assoc.key.destructor
    {
      assert ThreadFits(sp, assocs);
      assoc := sp.nextAssoc;
      assert assoc == sp.chain[sp.cursor] && assoc in sp.chain;
      assert OnKey(assoc, keys) && KeyFits(assoc.key, assocs);
      sp.Advance();
      forall t | t in threads ensures ThreadFits(t, assocs) { assert old(ThreadFits(t, assocs)); }
      forall a | a in assocs ensures OnThread(a) { assert old(OnThread(a)); }
    }

    /** ptw32_callUserDestroyRoutines.c:156-168: move the cursor on and clear the value. */
    method Take(sp: ThreadS) returns (assoc: Assoc, value: Value)
      requires Valid() && sp in threads && sp.nextAssoc != null
      modifies this`taken, sp, keys`values
      ensures Valid() && assoc in assocs && assoc.thread == sp && assoc == old(sp.nextAssoc)
      ensures sp.chain == old(sp.chain)
      ensures sp.cursor == old(sp.cursor) + 1 <= |sp.chain| && sp.chain[old(sp.cursor)] == assoc
      ensures assoc.key in keys && assoc.key.destructor && value == old(assoc.key.Get(sp))
      ensures Cleared(assoc.key, sp) && taken == old(taken) + [Call(assoc.key, sp, value)]
    {
      assoc := MoveOn(sp);
      value := assoc.key.Get(sp);
      taken := taken + [Call(assoc.key, sp, value)];
      assoc.key.values := assoc.key.values[sp := NULL];
    }

    /** The slot of key k is empty in thread sp, and nothing else has changed in any slot. */
    twostate predicate Cleared(k: KeyS, sp: ThreadS)
      reads this`keys, keys, k
    {
      && keys == old(keys) && k.values == old(k.values)[sp := NULL]
      && forall l :: l in old(keys) && l != k ==> l.values == old(l.values)
    }

    /** The same, and what it means for the calls that are due. */
    method TakeNext(sp: ThreadS) returns (assoc: Assoc, value: Value)
      requires Valid() && sp in threads && sp.nextAssoc != null
      modifies this`taken, sp, keys`values
      ensures Valid() && assoc in assocs && assoc.thread == sp && assoc == old(sp.nextAssoc) && assoc.key in keys
      ensures sp.cursor == old(sp.cursor) + 1 <= |sp.chain| == |old(sp.chain)| && sp.chain[sp.cursor - 1] == assoc
      ensures assoc.key.destructor && assoc.key.Get(sp) == NULL && keys == old(keys)
      ensures value == old(assoc.key.Get(sp)) && taken == old(taken) + [Call(assoc.key, sp, value)]
      ensures DueTaken(sp, Call(assoc.key, sp, value))
      ensures |Parts(sp).0| == old(|Parts(sp).0|) + 1 && |Parts(sp).1| == old(|Parts(sp).1|) - 1
    {
      assert ThreadFits(sp, assocs) && OnKey(sp.chain[sp.cursor], keys);
      assoc, value := Take(sp);
      TakenDue(sp);
    }

    /** What was due ahead is this call, if it has a value, and what is due ahead now. */
    twostate predicate DueTaken(sp: ThreadS, found: Call)
      reads this`keys, keys, sp
    {
      DueBehind(sp) == old(DueBehind(sp)) && old(DueAhead(sp)) == WithValue([found]) + DueAhead(sp)
    }

    twostate lemma TakenDue(sp: ThreadS)
      requires old(sp.Linked()) && old(sp.cursor) < |old(sp.chain)|
      requires sp.chain == old(sp.chain) && sp.cursor == old(sp.cursor) + 1
      requires var k := old(sp.chain[sp.cursor].key); k in old(keys) && Cleared(k, sp)
      ensures var k := old(sp.chain[sp.cursor].key); k.Get(sp) == NULL && DueTaken(sp, Call(k, sp, old(k.Get(sp))))
    {
      var assoc := old(sp.chain[sp.cursor]);
      assert ValuesOf(sp) == old(ValuesOf(sp))[assoc.key := NULL];
      var done, ahead := old(Parts(sp)).0, old(Parts(sp)).1;
      assert done + ahead == old(sp.chain);
      SplitNext(sp.chain, old(sp.cursor));
      VisitedDue(done, ahead, old(ValuesOf(sp)), sp);
    }

    /** ptw32_callUserDestroyRoutines.c:224: the association just taken has no value any more. */
    method Discard(sp: ThreadS, assoc: Assoc)
      requires Valid() && assoc in assocs && assoc.thread == sp && assoc.key.Get(sp) == NULL
      requires 0 < sp.cursor <= |sp.chain| && sp.chain[sp.cursor - 1] == assoc
      modifies this`assocs, threads, keys`threads, keys`chain, assocs
      ensures Valid() && assocs <= old(assocs)
      ensures |Parts(sp).0| == old(|Parts(sp).0|) - 1 && |Parts(sp).1| == old(|Parts(sp).1|)
      ensures DueAhead(sp) == old(DueAhead(sp)) && DueBehind(sp) == old(DueBehind(sp))
    {
      assert OnKey(assoc, keys) && OnThread(assoc);
      DestroyLast(sp, assoc);
      RemovedDue(sp);
    }

    method DestroyLast(sp: ThreadS, assoc: Assoc)
      requires Linked() && ValuesKept() && assoc in assocs && assoc.thread == sp && assoc.key.Get(sp) == NULL
      requires 0 < sp.cursor <= |sp.chain| && sp.chain[sp.cursor - 1] == assoc
      modifies this`assocs, sp, assoc.key`threads, assoc.key`chain, assocs
      ensures Valid() && assocs == old(assocs) - {assoc}
      ensures sp.cursor == old(sp.cursor) - 1 && sp.chain == RemoveAt(old(sp.chain), sp.cursor)
    {
      ghost var k := assoc.key;
      assert OnThread(assoc) && OnKey(assoc, keys) && ThreadFits(sp, assocs) && KeyFits(k, assocs);
      ghost var j :| 0 <= j < |k.chain| && k.chain[j] == assoc;
      HasOnlyOne(assoc);
      Destroy(assoc, sp.cursor - 1, j);
    }

    /** Without the last association behind the cursor, which has no value, the same calls are due. */
    twostate lemma RemovedDue(sp: ThreadS)
      requires 0 < old(sp.cursor) <= |old(sp.chain)| && keys == old(keys)
      requires forall k :: k in keys ==> k.values == old(k.values)
      requires sp.cursor == old(sp.cursor) - 1 && sp.chain == RemoveAt(old(sp.chain), sp.cursor)
      requires old(sp.chain[sp.cursor - 1].key.Get(sp)) == NULL
      ensures |Parts(sp).0| == old(|Parts(sp).0|) - 1 && |Parts(sp).1| == old(|Parts(sp).1|)
      ensures DueAhead(sp) == old(DueAhead(sp)) && DueBehind(sp) == old(DueBehind(sp))
    {
      var was := old(sp.chain);
      assert ValuesOf(sp) == old(ValuesOf(sp));
      SplitRemove(was, old(sp.cursor));
      DueAppend(was[..sp.cursor], was[sp.cursor], ValuesOf(sp), sp);
    }

    /** There is at most one association for a thread and a key. */
    lemma HasOnlyOne(assoc: Assoc)
      requires Linked() && assoc in assocs
      ensures forall a :: a in assocs && a.thread == assoc.thread && a.key == assoc.key ==> a == assoc
    {
      forall a | a in assocs && a.thread == assoc.thread && a.key == assoc.key ensures a == assoc {
        var t := assoc.thread;
        assert OnThread(a) && OnThread(assoc) && ThreadFits(t, assocs);
        var i :| 0 <= i < |t.chain| && t.chain[i] == a;
        var j :| 0 <= j < |t.chain| && t.chain[j] == assoc;
        assert KeysApart(t.chain, i, j) && KeysApart(t.chain, j, i);
      }
    }

    /** One association of the walk: ptw32_callUserDestroyRoutines.c:156-227. */
    method Visit(sp: ThreadS, pass: nat, ops: seq<Op>) returns (called: bool, ghost found: Call)
      requires Valid() && sp in threads && sp.nextAssoc != null
      modifies this`assocs, this`keys, this`taken, this`calls, threads, keys, assocs
      ensures Valid() && keys <= old(keys) && fresh(assocs - old(assocs))
      // what is ahead has become less, whatever the destructor has done
      ensures |Parts(sp).1| < old(|Parts(sp).1|)
      // the value found in the slot is what the destructor is called with, if there is one
      ensures found == old(Call(sp.nextAssoc.key, sp, sp.nextAssoc.key.Get(sp)))
      ensures called <==> found.value != NULL && pass <= PTHREAD_DESTRUCTOR_ITERATIONS
      ensures taken == old(taken) + [found] && calls == old(calls) + if called then [found] else []
      // without a destructor, nothing is left behind
      ensures !called ==> |Parts(sp).0| == old(|Parts(sp).0|)
      // and nobody else takes what is due
      ensures ops == [] ==> keys == old(keys) && DueTaken(sp, found)
    {
      hide Parts, Due, WithValue;
      var assoc, value := TakeNext(sp);
      found := Call(assoc.key, sp, value);
      called := value != NULL && pass <= PTHREAD_DESTRUCTOR_ITERATIONS;
      label taken:
      if called {
        CallDestructor(assoc.key, sp, value, ops);
        if ops == [] { StillDue@taken(sp); }
      } else {
        Discard(sp, assoc);
      }
    }

    /** A turn of the loop of a pass, ptw32_callUserDestroyRoutines.c:110-228. Other threads do what
        `meanwhile` says before the last look at the chain: turns that fail to get the key lock and
        go round again (143-150) only make that longer. */
    method Turn(sp: ThreadS, pass: nat, ops: seq<Op>, meanwhile: seq<Op>)
      returns (over: bool, called: bool, ghost found: seq<Call>)
      requires Valid() && sp in threads
      modifies this`assocs, this`keys, this`taken, this`calls, threads, keys, assocs
      ensures Valid() && keys <= old(keys) && fresh(assocs - old(assocs))
      ensures if over then sp.nextAssoc == null && !called else |Parts(sp).1| < old(|Parts(sp).1|)
      ensures called ==> pass <= PTHREAD_DESTRUCTOR_ITERATIONS
      ensures !called ==> |Parts(sp).0| <= old(|Parts(sp).0|)
      // a destructor is called with what has been taken, if that is a value
      ensures taken == old(taken) + found && |found| == (if over then 0 else 1)
      ensures calls == old(calls) + Made(pass, found)
      ensures called <==> pass <= PTHREAD_DESTRUCTOR_ITERATIONS && WithValue(found) != []
      ensures ops == meanwhile == [] ==>
                && keys == old(keys) && DueBehind(sp) == old(DueBehind(sp))
                && old(DueAhead(sp)) == WithValue(found) + DueAhead(sp)
    {
      hide Parts, Due;
      PerformAll(meanwhile, sp, false);
      if meanwhile == [] { StillDue(sp); }
      over, called, found := sp.nextAssoc == null, false, [];
      if !over {
        ghost var call;
        called, call := Visit(sp, pass, ops);
        found := [call];
        assert WithValue(found) == if call.value == NULL then [] else [call];
      }
    }

    /** One pass of the walk: ptw32_callUserDestroyRoutines.c:95-229. The n-th destructor does what
        script(n) says. */
    method Pass(sp: ThreadS, pass: nat, script: nat -> seq<Op>, meanwhile: nat -> seq<Op>, before: nat)
      returns (called: nat, ghost found: seq<Call>)
      requires Valid() && sp in threads
      modifies this`assocs, this`keys, this`taken, this`calls, threads, keys, assocs
      ensures Valid() && keys <= old(keys) && fresh(assocs - old(assocs)) && sp.nextAssoc == null
      ensures called > 0 ==> pass <= PTHREAD_DESTRUCTOR_ITERATIONS
      ensures called == 0 ==> sp.chain == []
      // up to the last iteration but one, a destructor is called for every value that is taken
      ensures taken == old(taken) + found
      ensures calls == old(calls) + if pass <= PTHREAD_DESTRUCTOR_ITERATIONS then WithValue(found) else []
      // and if nobody does anything, in chain order for all the associations with a value
      ensures Undisturbed(script, meanwhile) ==>
                && keys == old(keys) && Due(sp.chain, ValuesOf(sp), sp) == []
                && WithValue(found) == old(Due(sp.chain, ValuesOf(sp), sp))
    {
      hide Due, Parts, OnItsWay, WithValue;
      StartPass(sp);
      called, found := AllTurns(sp, pass, script, meanwhile, before);
      PassDone(sp, old(Due(sp.chain, ValuesOf(sp), sp)), found);
    }

    /** The loop of a pass, ptw32_callUserDestroyRoutines.c:109-228. */
    method AllTurns(sp: ThreadS, pass: nat, script: nat -> seq<Op>, meanwhile: nat -> seq<Op>, before: nat)
      returns (called: nat, ghost found: seq<Call>)
      requires Valid() && sp in threads && |Parts(sp).0| == 0
      modifies this`assocs, this`keys, this`taken, this`calls, threads, keys, assocs
      ensures Valid() && keys <= old(keys) && fresh(assocs - old(assocs)) && sp.nextAssoc == null
      ensures called > 0 ==> pass <= PTHREAD_DESTRUCTOR_ITERATIONS
      ensures called == 0 ==> |Parts(sp).0| == 0
      ensures taken == old(taken) + found && calls == old(calls) + Made(pass, found)
      ensures Undisturbed(script, meanwhile) ==> keys == old(keys) && OnItsWay(sp, old(DueAhead(sp)), found)
    {
      called, found := 0, [];
      var step := 0;
      ghost var took, made, due := taken, calls, DueAhead(sp);
      assert OnItsWay(sp, due, found) && Logged(pass, took, made, found);
      while true
        invariant Valid() && keys <= old(keys) && fresh(assocs - old(assocs))
        invariant called > 0 ==> pass <= PTHREAD_DESTRUCTOR_ITERATIONS
        invariant called == 0 ==> |Parts(sp).0| == 0
        invariant Logged(pass, took, made, found)
        invariant Undisturbed(script, meanwhile) ==> keys == old(keys) && OnItsWay(sp, due, found)
        decreases |Parts(sp).1|
      {
        hide OnItsWay, Logged, Parts;
        var over, did;
        over, did, found := NextTurn(sp, pass, script(before + called), meanwhile(step), took, made, found, due);
        if over { break; }
        step := step + 1;
        if did { called := called + 1; }
      }
    }

    /** A turn, and what has been found and done since the pass began. */
    method NextTurn(sp: ThreadS, pass: nat, ops: seq<Op>, meanwhile: seq<Op>,
                    ghost took: seq<Call>, ghost made: seq<Call>, ghost found: seq<Call>, ghost due: seq<Call>)
      returns (over: bool, called: bool, ghost found': seq<Call>)
      requires Valid() && sp in threads && Logged(pass, took, made, found)
      modifies this`assocs, this`keys, this`taken, this`calls, threads, keys, assocs
      ensures Valid() && keys <= old(keys) && fresh(assocs - old(assocs))
      ensures if over then sp.nextAssoc == null && !called else |Parts(sp).1| < old(|Parts(sp).1|)
      ensures called ==> pass <= PTHREAD_DESTRUCTOR_ITERATIONS
      ensures !called ==> |Parts(sp).0| <= old(|Parts(sp).0|)
      ensures Logged(pass, took, made, found')
      ensures ops == meanwhile == [] ==>
                keys == old(keys) && (old(OnItsWay(sp, due, found)) ==> OnItsWay(sp, due, found'))
    {
      ghost var more;
      over, called, more := Turn(sp, pass, ops, meanwhile);
      MadeAppend(pass, made, found, more);
      DueMoves(found, more, DueAhead(sp));
      found' := found + more;
    }

    /** What has been taken, and the calls made, since these were the logs. */
    ghost predicate Logged(pass: nat, took: seq<Call>, made: seq<Call>, found: seq<Call>)
      reads this`taken, this`calls
    {
      taken == took + found && calls == made + Made(pass, found)
    }

    /** What was due when the pass began has been found or is due ahead. */
    ghost predicate OnItsWay(sp: ThreadS, due: seq<Call>, found: seq<Call>)
      reads this`keys, keys, sp
    {
      DueBehind(sp) == [] && due == WithValue(found) + DueAhead(sp)
    }

    lemma PassDone(sp: ThreadS, due: seq<Call>, found: seq<Call>)
      requires Linked() && sp in threads && sp.nextAssoc == null
      ensures |Parts(sp).0| == 0 ==> sp.chain == []
      ensures OnItsWay(sp, due, found) ==> Due(sp.chain, ValuesOf(sp), sp) == [] && WithValue(found) == due
    {
      assert ThreadFits(sp, assocs);
      assert Parts(sp).0 == sp.chain && Parts(sp).1 == [];
    }

    /** No destructor and no other thread does anything. */
    ghost predicate Undisturbed(script: nat -> seq<Op>, meanwhile: nat -> seq<Op>) {
      (forall n :: script(n) == []) && (forall n :: meanwhile(n) == [])
    }

    /** ptw32_callUserDestroyRoutines.c:107. */
    method StartPass(sp: ThreadS)
      requires Valid() && sp in threads
      modifies sp`nextAssoc, sp`cursor
      ensures Valid() && |Parts(sp).0| == 0 && DueAhead(sp) == old(Due(sp.chain, ValuesOf(sp), sp))
    {
      assert ThreadFits(sp, assocs);
      sp.Restart();
      assert Parts(sp).1 == sp.chain;
      assert ValuesOf(sp) == old(ValuesOf(sp));
      forall t | t in threads ensures ThreadFits(t, assocs) { assert old(ThreadFits(t, assocs)); }
      forall a | a in assocs ensures OnThread(a) { assert old(OnThread(a)); }
    }

    /** ptw32_callUserDestroyRoutines.c:93-230. However the destructors and the other threads change
        the mesh, the walk ends after a bounded number of passes; then the thread has no association
        and no value that a destructor would have to see. Undisturbed, it has called the destructors
        of all associations with a value, each once, with this value and in chain order. */
    method CallUserDestroyRoutines(sp: ThreadS, script: nat -> seq<Op>, meanwhile: nat -> nat -> seq<Op>)
      returns (passes: nat, made: nat)
      requires Valid() && sp in threads
      modifies this`assocs, this`keys, this`taken, this`calls, threads, keys, assocs
      ensures Valid() && sp.chain == [] && sp.keys == null && sp.nextAssoc == null
      ensures 1 <= passes <= PTHREAD_DESTRUCTOR_ITERATIONS + 1
      ensures forall k :: k in keys && k.destructor ==> k.Get(sp) == NULL
      ensures (forall p :: Undisturbed(script, meanwhile(p))) ==>
                calls == old(calls) + old(Due(sp.chain, ValuesOf(sp), sp))
    {
      passes, made := 0, 0;
      var remaining := true;
      while remaining
        invariant Valid() && fresh(assocs - old(assocs)) && keys <= old(keys)
        invariant passes <= PTHREAD_DESTRUCTOR_ITERATIONS + if remaining then 0 else 1
        invariant !remaining ==> sp.chain == [] && passes > 0 && sp.nextAssoc == null
        invariant (forall p :: Undisturbed(script, meanwhile(p))) ==>
                    && keys == old(keys)
                    && (passes > 0 ==> Due(sp.chain, ValuesOf(sp), sp) == [])
                    && calls + Due(sp.chain, ValuesOf(sp), sp) == old(calls) + old(Due(sp.chain, ValuesOf(sp), sp))
        decreases PTHREAD_DESTRUCTOR_ITERATIONS + 1 - passes, remaining
      {
        passes := passes + 1;
        ghost var found;
        var called;
        called, found := Pass(sp, passes, script, meanwhile(passes), made);
        made := made + called;
        remaining := called > 0;
      }
      assert ThreadFits(sp, assocs);
      forall k | k in keys && k.destructor ensures k.Get(sp) == NULL { HasOnChain(sp, k); }
    }
  }
}
