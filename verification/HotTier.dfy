/**
 * The hot tier: an LRU cache kept in three containers. It is specified twice, by a recency list and,
 * independently, by time stamps; and cache sizes are compared.
 */
module HotTier {
  import opened Common
  import opened ExoVault

  /** What the hot tier holds for a key, or hands out when it evicts it. */
  datatype Hot<T> = Hot(key: Key, data: T, dim: nat)

  // ---- the recency list ----------------------------------------------------------------------

  /** `lru.retain(|k| k != key)`. */
  function Without<T>(l: seq<Hot<T>>, k: Key): seq<Hot<T>> {
    if l == [] then [] else if l[0].key == k then Without(l[1..], k) else [l[0]] + Without(l[1..], k)
  }

  function Find<T>(l: seq<Hot<T>>, k: Key): Option<Hot<T>> {
    if l == [] then None else if l[0].key == k then Some(l[0]) else Find(l[1..], k)
  }

  /** Oldest first. The second component is what the insert evicts. */
  function Inserted<T>(l: seq<Hot<T>>, h: Hot<T>, capacity: nat): (seq<Hot<T>>, Option<Hot<T>>) {
    var m := Without(l, h.key) + [h];
    if |m| > capacity then (m[1..], Some(m[0])) else (m, None)
  }

  function Touched<T>(l: seq<Hot<T>>, k: Key): seq<Hot<T>> {
    match Find(l, k)
    case None => l
    case Some(h) => Without(l, k) + [h]
  }

  predicate UniqueKeys<T>(l: seq<Hot<T>>) {
    forall i, j :: 0 <= i < j < |l| ==> l[i].key != l[j].key
  }

  predicate HasKey<T>(l: seq<Hot<T>>, k: Key) {
    exists i :: 0 <= i < |l| && l[i].key == k
  }

  lemma {:induction false} WithoutMembers<T>(l: seq<Hot<T>>, k: Key)
    ensures forall h :: h in Without(l, k) ==> h in l && h.key != k
    ensures forall h :: h in l && h.key != k ==> h in Without(l, k)
  {
    if l != [] {
      WithoutMembers(l[1..], k);
      assert forall h :: h in l <==> h == l[0] || h in l[1..];
    }
  }

  lemma HasKeyIsMember<T>(l: seq<Hot<T>>, k: Key)
    ensures HasKey(l, k) <==> exists h :: h in l && h.key == k
  {
    if h :| h in l && h.key == k {
      var i :| 0 <= i < |l| && l[i] == h;
    }
  }

  lemma {:induction false} WithoutSize<T>(l: seq<Hot<T>>, k: Key)
    ensures |Without(l, k)| <= |l| && (HasKey(l, k) <==> |Without(l, k)| < |l|)
    ensures !HasKey(l, k) ==> Without(l, k) == l
  {
    if l != [] {
      WithoutSize(l[1..], k);
      HasKeyCons(l, k);
      hide HasKey;
    }
  }

  lemma HasKeyCons<T>(l: seq<Hot<T>>, k: Key)
    requires l != []
    ensures HasKey(l, k) <==> l[0].key == k || HasKey(l[1..], k)
  {
    if i :| 0 < i < |l| && l[i].key == k {
      assert l[1..][i - 1].key == k;
    }
    if i :| 0 <= i < |l[1..]| && l[1..][i].key == k {
      assert l[i + 1].key == k;
    }
  }

  lemma UniqueCons<T>(x: Hot<T>, l: seq<Hot<T>>)
    ensures UniqueKeys([x] + l) <==> UniqueKeys(l) && !HasKey(l, x.key)
  {
    var m := [x] + l;
    if UniqueKeys(m) {
      forall i, j | 0 <= i < j < |l| ensures l[i].key != l[j].key {
        assert m[i + 1] == l[i] && m[j + 1] == l[j];
      }
      forall i | 0 <= i < |l| ensures l[i].key != x.key {
        assert m[0] == x && m[i + 1] == l[i];
      }
    }
  }

  lemma {:induction false} WithoutUnique<T>(l: seq<Hot<T>>, k: Key)
    requires UniqueKeys(l)
    ensures UniqueKeys(Without(l, k)) && |Without(l, k)| >= |l| - 1
  {
    if l != [] {
      assert [l[0]] + l[1..] == l;
      UniqueCons(l[0], l[1..]);
      hide UniqueKeys, HasKey;
      WithoutUnique(l[1..], k);
      UniqueCons(l[0], Without(l[1..], k));
      if l[0].key == k {
        WithoutSize(l[1..], k);
      } else {
        WithoutKeepsAbsent(l[1..], k, l[0].key);
      }
    }
  }

  lemma WithoutKeepsAbsent<T>(l: seq<Hot<T>>, k: Key, q: Key)
    requires !HasKey(l, q)
    ensures !HasKey(Without(l, k), q)
  {
    WithoutMembers(l, k);
    HasKeyIsMember(l, q);
    HasKeyIsMember(Without(l, k), q);
  }

  lemma WithoutFacts<T>(l: seq<Hot<T>>, k: Key)
    ensures forall h :: h in Without(l, k) ==> h in l && h.key != k
    ensures forall h :: h in l && h.key != k ==> h in Without(l, k)
    ensures !HasKey(Without(l, k), k)
    ensures |Without(l, k)| <= |l| && (HasKey(l, k) ==> |Without(l, k)| < |l|)
    ensures !HasKey(l, k) ==> Without(l, k) == l
    ensures UniqueKeys(l) ==> UniqueKeys(Without(l, k)) && |Without(l, k)| >= |l| - 1
  {
    hide HasKey, UniqueKeys, Without;
    WithoutMembers(l, k);
    HasKeyIsMember(Without(l, k), k);
    WithoutSize(l, k);
    if UniqueKeys(l) {
      WithoutUnique(l, k);
    }
  }

  lemma {:induction false} FindFacts<T>(l: seq<Hot<T>>, k: Key)
    ensures Find(l, k).Some? <==> HasKey(l, k)
    ensures Find(l, k).Some? ==> Find(l, k).value.key == k && Find(l, k).value in l
    ensures UniqueKeys(l) ==> forall h :: h in l && h.key == k ==> Find(l, k) == Some(h)
  {
    if l != [] {
      FindFacts(l[1..], k);
      assert forall h :: h in l <==> h == l[0] || h in l[1..];
      if HasKey(l, k) && l[0].key != k {
        var i :| 0 <= i < |l| && l[i].key == k;
        assert l[1..][i - 1].key == k;
      }
      if HasKey(l[1..], k) {
        var i :| 0 <= i < |l[1..]| && l[1..][i].key == k;
        assert l[i + 1].key == k;
      }
      if l[0].key == k && UniqueKeys(l) {
        forall h | h in l[1..] ensures h.key != k {
          var j :| 0 <= j < |l[1..]| && l[1..][j] == h;
          assert l[j + 1] == h;
        }
      }
    }
  }

  lemma InsertedFacts<T>(l: seq<Hot<T>>, h: Hot<T>, capacity: nat)
    requires UniqueKeys(l) && |l| <= capacity
    ensures var (r, out) := Inserted(l, h, capacity);
      && UniqueKeys(r) && |r| <= capacity
      && (forall x :: x in r ==> x == h || x in l)
      && (out.Some? ==> out.value == h || out.value in l)
      && (forall x :: x in l && x.key != h.key ==> x in r || out == Some(x))
      && (h in r || out == Some(h))
  {
    WithoutFacts(l, h.key);
    var w := Without(l, h.key);
    var m := w + [h];
    assert forall x :: x in m <==> x in w || x == h;
    assert UniqueKeys(m) by {
      forall i | 0 <= i < |w| ensures w[i].key != h.key {
        assert w[i] in w;
      }
    }
    if |m| > capacity {
      assert forall x :: x in m <==> x == m[0] || x in m[1..];
      assert !HasKey(l, h.key);
    }
  }

  lemma TouchedFacts<T>(l: seq<Hot<T>>, k: Key)
    requires UniqueKeys(l)
    ensures UniqueKeys(Touched(l, k)) && |Touched(l, k)| == |l|
    ensures forall x :: x in Touched(l, k) <==> x in l
  {
    WithoutFacts(l, k);
    FindFacts(l, k);
    if Find(l, k).Some? {
      var w, h := Without(l, k), Find(l, k).value;
      forall i | 0 <= i < |w| ensures w[i].key != k {
        assert w[i] in w;
      }
    }
  }

  // ---- runs ----------------------------------------------------------------------------------

  datatype Access<T> = Put(h: Hot<T>) | Look(key: Key)

  function AccessStep<T>(l: seq<Hot<T>>, a: Access<T>, capacity: nat): seq<Hot<T>> {
    match a
    case Put(h) => Inserted(l, h, capacity).0
    case Look(k) => Touched(l, k)
  }

  function AccessRun<T>(accesses: seq<Access<T>>, capacity: nat): seq<Hot<T>> {
    if accesses == [] then [] else
      AccessStep(AccessRun(accesses[..|accesses| - 1], capacity), accesses[|accesses| - 1], capacity)
  }

  lemma {:induction false} RunsStayBounded<T>(accesses: seq<Access<T>>, capacity: nat)
    ensures UniqueKeys(AccessRun(accesses, capacity)) && |AccessRun(accesses, capacity)| <= capacity
  {
    if accesses != [] {
      var init, a := accesses[..|accesses| - 1], accesses[|accesses| - 1];
      RunsStayBounded(init, capacity);
      match a
      case Put(h) => InsertedFacts(AccessRun(init, capacity), h, capacity);
      case Look(k) => TouchedFacts(AccessRun(init, capacity), k);
    }
  }

  // ---- a larger tier never misses what a smaller one has -------------------------------------

  predicate Subsequence<T(==)>(a: seq<T>, b: seq<T>) {
    if a == [] then true
    else if b == [] then false
    else if a[0] == b[0] then Subsequence(a[1..], b[1..])
    else Subsequence(a, b[1..])
  }

  lemma {:induction false} SubsequenceTail<T>(a: seq<T>, b: seq<T>)
    requires Subsequence(a, b) && a != []
    ensures Subsequence(a[1..], b)
    decreases |b|, 0
  {
    assert b == [b[0]] + b[1..];
    if a[0] != b[0] {
      SubsequenceTail(a, b[1..]);
    }
    SubsequenceCons(a[1..], b[1..], b[0]);
  }

  lemma {:induction false} SubsequenceCons<T>(a: seq<T>, b: seq<T>, x: T)
    requires Subsequence(a, b)
    ensures Subsequence(a, [x] + b)
    decreases |b|, 1
  {
    assert ([x] + b)[1..] == b;
    if a != [] && a[0] == x {
      SubsequenceTail(a, b);
    }
  }

  lemma {:induction false} SubsequenceFacts<T>(a: seq<T>, b: seq<T>)
    requires Subsequence(a, b)
    ensures |a| <= |b| && forall x :: x in a ==> x in b
    decreases |b|
  {
    if a != [] {
      if a[0] == b[0] {
        SubsequenceFacts(a[1..], b[1..]);
        assert forall x :: x in a ==> x == a[0] || x in a[1..];
      } else {
        SubsequenceFacts(a, b[1..]);
      }
    }
  }

  lemma {:induction false} SubsequenceAppend<T>(a: seq<T>, b: seq<T>, x: T)
    requires Subsequence(a, b)
    ensures Subsequence(a + [x], b + [x])
  {
    if a == [] {
      assert a + [x] == [x];
      SubsequenceLast(b, x);
    } else {
      assert (b + [x])[1..] == b[1..] + [x];
      if a[0] == b[0] {
        assert (a + [x])[1..] == a[1..] + [x];
        SubsequenceAppend(a[1..], b[1..], x);
      } else {
        SubsequenceAppend(a, b[1..], x);
      }
    }
  }

  lemma {:induction false} SubsequenceLast<T>(b: seq<T>, x: T)
    ensures Subsequence([x], b + [x])
  {
    if b != [] {
      assert (b + [x])[1..] == b[1..] + [x];
      SubsequenceLast(b[1..], x);
    }
  }

  lemma {:induction false} SubsequenceWithout<T>(a: seq<Hot<T>>, b: seq<Hot<T>>, k: Key)
    requires Subsequence(a, b)
    ensures Subsequence(Without(a, k), Without(b, k))
    decreases |b|
  {
    if a != [] {
      var v := Without(b[1..], k);
      if a[0] == b[0] {
        SubsequenceWithout(a[1..], b[1..], k);
        var u := Without(a[1..], k);
        assert ([a[0]] + u)[1..] == u && ([b[0]] + v)[1..] == v;
      } else {
        SubsequenceWithout(a, b[1..], k);
        SubsequenceCons(Without(a, k), v, b[0]);
      }
    }
  }

  /** The smaller tier's list is a subsequence of the larger one's, and all of it until it first fills up. */
  predicate Included<T(==)>(a: seq<Hot<T>>, b: seq<Hot<T>>, c1: nat) {
    && Subsequence(a, b)
    && (|a| < c1 ==> a == b)
  }

  lemma TouchKeepsInclusion<T>(a: seq<Hot<T>>, b: seq<Hot<T>>, k: Key, c1: nat)
    requires Included(a, b, c1) && UniqueKeys(a) && UniqueKeys(b)
    ensures Included(Touched(a, k), Touched(b, k), c1)
  {
    FindFacts(a, k);
    FindFacts(b, k);
    SubsequenceFacts(a, b);
    SubsequenceWithout(a, b, k);
    WithoutFacts(a, k);
    TouchedFacts(a, k);
    if Find(a, k).Some? {
      assert Find(b, k) == Find(a, k);
      SubsequenceAppend(Without(a, k), Without(b, k), Find(a, k).value);
    } else if Find(b, k).Some? {
      SubsequenceExtend(Without(a, k), Without(b, k), Find(b, k).value);
    }
  }

  lemma {:induction false} SubsequenceExtend<T>(a: seq<T>, b: seq<T>, x: T)
    requires Subsequence(a, b)
    ensures Subsequence(a, b + [x])
  {
    if a != [] {
      assert (b + [x])[1..] == b[1..] + [x];
      if a[0] == b[0] {
        SubsequenceExtend(a[1..], b[1..], x);
      } else {
        SubsequenceExtend(a, b[1..], x);
      }
    }
  }

  lemma MissingInLarger<T>(a: seq<Hot<T>>, b: seq<Hot<T>>, k: Key)
    requires Subsequence(a, b) && HasKey(a, k)
    ensures HasKey(b, k)
  {
    SubsequenceFacts(a, b);
    var i :| 0 <= i < |a| && a[i].key == k;
    assert a[i] in b;
  }

  lemma InsertKeepsInclusion<T>(a: seq<Hot<T>>, b: seq<Hot<T>>, h: Hot<T>, c1: nat, c2: nat)
    requires Included(a, b, c1) && UniqueKeys(a) && UniqueKeys(b) && c1 <= c2 && |a| <= c1 && |b| <= c2
    ensures Included(Inserted(a, h, c1).0, Inserted(b, h, c2).0, c1)
  {
    var k := h.key;
    var m, n := Without(a, k) + [h], Without(b, k) + [h];
    SubsequenceFacts(a, b);
    SubsequenceWithout(a, b, k);
    SubsequenceAppend(Without(a, k), Without(b, k), h);
    WithoutFacts(a, k);
    WithoutFacts(b, k);
    hide Without, Subsequence;
    if HasKey(a, k) {
      MissingInLarger(a, b, k);
    }
    TailOfBoth(m, n);
    SubsequenceTail(m, n);
  }

  /** Both lists may lose their oldest entry together. */
  lemma TailOfBoth<T>(m: seq<T>, n: seq<T>)
    requires Subsequence(m, n) && m != []
    ensures Subsequence(m[1..], n[1..])
  {
    if m[0] != n[0] {
      SubsequenceTail(m, n[1..]);
    }
  }

  /** For the same run of accesses a larger hot tier holds everything a smaller one does, in the same order with the same values. */
  lemma {:induction false} LargerTierIncludesSmaller<T>(accesses: seq<Access<T>>, c1: nat, c2: nat)
    requires c1 <= c2
    ensures Subsequence(AccessRun(accesses, c1), AccessRun(accesses, c2))
    ensures |AccessRun(accesses, c1)| < c1 ==> AccessRun(accesses, c1) == AccessRun(accesses, c2)
  {
    if accesses != [] {
      var init, x := accesses[..|accesses| - 1], accesses[|accesses| - 1];
      LargerTierIncludesSmaller(init, c1, c2);
      RunsStayBounded(init, c1);
      RunsStayBounded(init, c2);
      match x
      case Put(h) => InsertKeepsInclusion(AccessRun(init, c1), AccessRun(init, c2), h, c1, c2);
      case Look(k) => TouchKeepsInclusion(AccessRun(init, c1), AccessRun(init, c2), k, c1);
    }
  }

  lemma LargerTierHits<T>(accesses: seq<Access<T>>, c1: nat, c2: nat, k: Key)
    requires c1 <= c2 && Find(AccessRun(accesses, c1), k).Some?
    ensures Find(AccessRun(accesses, c2), k) == Find(AccessRun(accesses, c1), k)
  {
    LargerTierIncludesSmaller(accesses, c1, c2);
    RunsStayBounded(accesses, c2);
    FindFacts(AccessRun(accesses, c1), k);
    FindFacts(AccessRun(accesses, c2), k);
    SubsequenceFacts(AccessRun(accesses, c1), AccessRun(accesses, c2));
  }

  // ---- least recently touched ----------------------------------------------------------------

  /** The position of the last access that touched `k`: an insert of it, or a look-up that found it. */
  function LastTouch<T>(accesses: seq<Access<T>>, capacity: nat, k: Key): int {
    if accesses == [] then -1 else
      var n := |accesses| - 1;
      match accesses[n]
      case Put(h) => if h.key == k then n else LastTouch(accesses[..n], capacity, k)
      case Look(q) =>
        if q == k && Find(AccessRun(accesses[..n], capacity), k).Some? then n else LastTouch(accesses[..n], capacity, k)
  }

  /** What was last inserted for `k`. */
  function LastPut<T>(accesses: seq<Access<T>>, k: Key): Option<Hot<T>> {
    if accesses == [] then None else
      var n := |accesses| - 1;
      if accesses[n].Put? && accesses[n].h.key == k then Some(accesses[n].h) else LastPut(accesses[..n], k)
  }

  ghost predicate Increasing<T>(l: seq<Hot<T>>, rank: Key -> int) {
    forall i, j :: 0 <= i < j < |l| ==> rank(l[i].key) < rank(l[j].key)
  }

  lemma {:induction false} WithoutIncreasing<T>(l: seq<Hot<T>>, k: Key, rank: Key -> int)
    requires Increasing(l, rank)
    ensures Increasing(Without(l, k), rank)
  {
    if l != [] {
      var w := Without(l[1..], k);
      WithoutIncreasing(l[1..], k, rank);
      WithoutFacts(l[1..], k);
      FirstIsLeast(l, rank);
      hide HasKey, UniqueKeys;
      forall i | 0 <= i < |w| ensures rank(l[0].key) < rank(w[i].key) {
        assert w[i] in w;
      }
    }
  }

  lemma FirstIsLeast<T>(l: seq<Hot<T>>, rank: Key -> int)
    requires l != [] && Increasing(l, rank)
    ensures forall x :: x in l[1..] ==> rank(l[0].key) < rank(x.key)
  {
    forall x | x in l[1..] ensures rank(l[0].key) < rank(x.key) {
      var j :| 0 <= j < |l[1..]| && l[1..][j] == x;
      assert l[j + 1] == x;
    }
  }
  lemma {:induction false} LastTouchBounded<T>(accesses: seq<Access<T>>, capacity: nat, k: Key)
    ensures -1 <= LastTouch(accesses, capacity, k) < |accesses|
  {
    if accesses != [] {
      LastTouchBounded(accesses[..|accesses| - 1], capacity, k);
    }
  }

  ghost function Rank<T>(accesses: seq<Access<T>>, capacity: nat): Key -> int {
    k => LastTouch(accesses, capacity, k)
  }

  /** In the order of their last touch, each with what was last inserted for it. */
  ghost predicate ByLastTouch<T>(l: seq<Hot<T>>, accesses: seq<Access<T>>, capacity: nat) {
    && Increasing(l, Rank(accesses, capacity))
    && (forall x :: x in l ==> LastTouch(accesses, capacity, x.key) >= 0 && LastPut(accesses, x.key) == Some(x))
  }

  /** Moving the touched key to the back keeps the list in order of last touch. */
  lemma MovedToBack<T>(l: seq<Hot<T>>, h: Hot<T>, accesses: seq<Access<T>>, a: Access<T>, capacity: nat)
    requires ByLastTouch(l, accesses, capacity) && UniqueKeys(l)
    requires LastTouch(accesses + [a], capacity, h.key) == |accesses|
    requires LastPut(accesses + [a], h.key) == Some(h)
    requires forall k :: k != h.key ==> LastTouch(accesses + [a], capacity, k) == LastTouch(accesses, capacity, k)
    requires forall k :: k != h.key ==> LastPut(accesses + [a], k) == LastPut(accesses, k)
    ensures ByLastTouch(Without(l, h.key) + [h], accesses + [a], capacity)
  {
    var w := Without(l, h.key);
    var r, r' := Rank(accesses, capacity), Rank(accesses + [a], capacity);
    WithoutFacts(l, h.key);
    WithoutIncreasing(l, h.key, r);
    hide Without, LastTouch, LastPut;
    forall i | 0 <= i < |w| ensures r'(w[i].key) == r(w[i].key) < r'(h.key) {
      assert w[i] in w;
      LastTouchBounded(accesses, capacity, w[i].key);
    }
    AppendIncreasing(w, h, r, r');
    forall x | x in w + [h]
      ensures LastTouch(accesses + [a], capacity, x.key) >= 0 && LastPut(accesses + [a], x.key) == Some(x)
    {
      assert x in w || x == h;
    }
  }

  lemma AppendIncreasing<T>(w: seq<Hot<T>>, h: Hot<T>, r: Key -> int, r': Key -> int)
    requires Increasing(w, r)
    requires forall i :: 0 <= i < |w| ==> r'(w[i].key) == r(w[i].key) < r'(h.key)
    ensures Increasing(w + [h], r')
  {
  }

  lemma TouchFacts<T>(accesses: seq<Access<T>>, a: Access<T>, capacity: nat, k: Key)
    ensures LastTouch(accesses + [a], capacity, k) ==
      if (a.Put? && a.h.key == k) || (a.Look? && a.key == k && Find(AccessRun(accesses, capacity), k).Some?) then |accesses|
      else LastTouch(accesses, capacity, k)
    ensures LastPut(accesses + [a], k) == if a.Put? && a.h.key == k then Some(a.h) else LastPut(accesses, k)
  {
    assert (accesses + [a])[..|accesses|] == accesses;
  }

  /** In every reachable state the list is the order of last touch, and eviction takes its front. */
  lemma {:induction false} ListIsByLastTouch<T>(accesses: seq<Access<T>>, capacity: nat)
    ensures ByLastTouch(AccessRun(accesses, capacity), accesses, capacity)
    decreases |accesses|, 0
  {
    if accesses != [] {
      var n := |accesses| - 1;
      var init, a := accesses[..n], accesses[n];
      assert init + [a] == accesses;
      ListIsByLastTouch(init, capacity);
      AccessKeepsOrder(init, a, capacity);
    }
  }

  lemma AccessKeepsOrder<T>(init: seq<Access<T>>, a: Access<T>, capacity: nat)
    requires ByLastTouch(AccessRun(init, capacity), init, capacity)
    ensures ByLastTouch(AccessStep(AccessRun(init, capacity), a, capacity), init + [a], capacity)
    ensures a.Put? ==> ByLastTouch(Without(AccessRun(init, capacity), a.h.key) + [a.h], init + [a], capacity)
  {
    var l := AccessRun(init, capacity);
    RunsStayBounded(init, capacity);
    forall k ensures Touches(init, a, capacity, k) {
      TouchFacts(init, a, capacity, k);
    }
    hide LastTouch, LastPut, AccessRun, ByLastTouch, UniqueKeys, Without;
    match a
    case Put(h) =>
      assert Touches(init, a, capacity, h.key);
      TouchesOthers(init, a, capacity, h.key);
      MovedToBack(l, h, init, a, capacity);
      FrontDropped(Without(l, h.key) + [h], init + [a], capacity);
    case Look(k) =>
      FindFacts(l, k);
      if Find(l, k).Some? {
        assert Touches(init, a, capacity, k);
        TouchesOthers(init, a, capacity, k);
        MovedToBack(l, Find(l, k).value, init, a, capacity);
      } else {
        NothingTouched(l, init, a, capacity);
      }
  }

  lemma FrontDropped<T>(l: seq<Hot<T>>, accesses: seq<Access<T>>, capacity: nat)
    requires ByLastTouch(l, accesses, capacity) && l != []
    ensures ByLastTouch(l[1..], accesses, capacity)
  {
    hide LastTouch, LastPut;
  }

  lemma NothingTouched<T>(l: seq<Hot<T>>, init: seq<Access<T>>, a: Access<T>, capacity: nat)
    requires ByLastTouch(l, init, capacity) && forall k :: Touches(init, a, capacity, k)
    requires a.Look? && Find(AccessRun(init, capacity), a.key).None?
    ensures ByLastTouch(l, init + [a], capacity)
  {
    hide LastTouch, LastPut, AccessRun, Find;
    forall i | 0 <= i < |l|
      ensures LastTouch(init + [a], capacity, l[i].key) == LastTouch(init, capacity, l[i].key)
      ensures LastPut(init + [a], l[i].key) == LastPut(init, l[i].key)
    {
      assert Touches(init, a, capacity, l[i].key);
    }
  }

  ghost predicate Touches<T>(accesses: seq<Access<T>>, a: Access<T>, capacity: nat, k: Key) {
    && LastTouch(accesses + [a], capacity, k) ==
       (if (a.Put? && a.h.key == k) || (a.Look? && a.key == k && Find(AccessRun(accesses, capacity), k).Some?) then |accesses|
        else LastTouch(accesses, capacity, k))
    && LastPut(accesses + [a], k) == (if a.Put? && a.h.key == k then Some(a.h) else LastPut(accesses, k))
  }

  lemma TouchesOthers<T>(accesses: seq<Access<T>>, a: Access<T>, capacity: nat, k: Key)
    requires (a.Put? && a.h.key == k) || (a.Look? && a.key == k)
    requires forall q :: Touches(accesses, a, capacity, q)
    ensures forall q :: q != k ==> LastTouch(accesses + [a], capacity, q) == LastTouch(accesses, capacity, q)
    ensures forall q :: q != k ==> LastPut(accesses + [a], q) == LastPut(accesses, q)
  {
    hide LastTouch, LastPut, AccessRun;
    forall q | q != k
      ensures LastTouch(accesses + [a], capacity, q) == LastTouch(accesses, capacity, q)
      ensures LastPut(accesses + [a], q) == LastPut(accesses, q)
    {
      assert Touches(accesses, a, capacity, q);
    }
  }

  /**
   * The evicted entry is the one whose last touch is oldest, counting the insert itself, and it leaves
   * with the bytes and dimension last inserted for it.
   */
  lemma EvictsLeastRecentlyTouched<T>(accesses: seq<Access<T>>, h: Hot<T>, capacity: nat)
    ensures var (r, out) := Inserted(AccessRun(accesses, capacity), h, capacity);
      out.Some? ==>
        && LastPut(accesses + [Put(h)], out.value.key) == Some(out.value)
        && forall x :: x in r ==>
          LastTouch(accesses + [Put(h)], capacity, out.value.key) < LastTouch(accesses + [Put(h)], capacity, x.key)
  {
    ListIsByLastTouch(accesses, capacity);
    AccessKeepsOrder(accesses, Put(h), capacity);
    var m := Without(AccessRun(accesses, capacity), h.key) + [h];
    hide LastTouch, LastPut, AccessRun;
    if |m| > capacity {
      assert m[0] in m;
      forall x | x in m[1..]
        ensures LastTouch(accesses + [Put(h)], capacity, m[0].key) < LastTouch(accesses + [Put(h)], capacity, x.key)
      {
        var i :| 0 <= i < |m[1..]| && m[1..][i] == x;
        assert m[i + 1] == x;
        assert Rank(accesses + [Put(h)], capacity)(m[0].key) < Rank(accesses + [Put(h)], capacity)(m[i + 1].key);
      }
    }
  }

  // ---- the three containers ------------------------------------------------------------------

  function KeysWithout(lru: seq<Key>, k: Key): seq<Key> {
    if lru == [] then [] else if lru[0] == k then KeysWithout(lru[1..], k) else [lru[0]] + KeysWithout(lru[1..], k)
  }

  function Zip<T>(lru: seq<Key>, data: map<Key, T>, dims: map<Key, nat>): seq<Hot<T>>
    requires forall k :: k in lru ==> k in data && k in dims
  {
    seq(|lru|, i requires 0 <= i < |lru| => Hot(lru[i], data[lru[i]], dims[lru[i]]))
  }

  predicate NoDuplicates(lru: seq<Key>) {
    forall i, j :: 0 <= i < j < |lru| ==> lru[i] != lru[j]
  }

  lemma {:induction false} KeysWithoutFacts(lru: seq<Key>, k: Key)
    ensures k !in KeysWithout(lru, k)
    ensures forall q :: q in KeysWithout(lru, k) ==> q in lru && q != k
    ensures forall q :: q in lru && q != k ==> q in KeysWithout(lru, k)
    ensures NoDuplicates(lru) ==> NoDuplicates(KeysWithout(lru, k))
  {
    if lru != [] {
      var w := KeysWithout(lru[1..], k);
      KeysWithoutFacts(lru[1..], k);
      if NoDuplicates(lru) {
        forall i | 0 <= i < |w| ensures w[i] != lru[0] {
          assert w[i] in w;
          assert w[i] in lru[1..];
        }
      }
    }
  }

  /** Storing under `k` and taking `k` out of the order leaves the list without `k`. */
  lemma {:induction false} ZipWithout<T>(lru: seq<Key>, data: map<Key, T>, dims: map<Key, nat>, k: Key, x: T, dim: nat)
    requires forall q :: q in lru ==> q in data && q in dims
    ensures forall q :: q in KeysWithout(lru, k) ==> q in data[k := x] && q in dims[k := dim]
    ensures Zip(KeysWithout(lru, k), data[k := x], dims[k := dim]) == Without(Zip(lru, data, dims), k)
  {
    KeysWithoutFacts(lru, k);
    if lru != [] {
      ZipWithout(lru[1..], data, dims, k, x, dim);
      assert Zip(lru, data, dims)[1..] == Zip(lru[1..], data, dims);
    }
  }

  ghost predicate SameKeys<T>(lru: seq<Key>, data: map<Key, T>, dims: map<Key, nat>) {
    && NoDuplicates(lru)
    && (forall k :: k in data <==> k in lru)
    && (forall k :: k in dims <==> k in lru)
  }

  /** Storing a key and moving it to the back. */
  lemma StoreZip<T>(lru: seq<Key>, data: map<Key, T>, dims: map<Key, nat>, k: Key, x: T, dim: nat)
    requires SameKeys(lru, data, dims)
    ensures SameKeys(KeysWithout(lru, k) + [k], data[k := x], dims[k := dim])
    ensures Zip(KeysWithout(lru, k) + [k], data[k := x], dims[k := dim]) == Without(Zip(lru, data, dims), k) + [Hot(k, x, dim)]
    ensures |KeysWithout(lru, k)| <= |lru| && (k in lru ==> |KeysWithout(lru, k)| < |lru|)
  {
    KeysWithoutFacts(lru, k);
    KeysWithoutLength(lru, k);
    ZipWithout(lru, data, dims, k, x, dim);
    var w := KeysWithout(lru, k);
    assert forall q :: q in w + [k] <==> q in w || q == k;
    assert Zip(w + [k], data[k := x], dims[k := dim]) == Zip(w, data[k := x], dims[k := dim]) + [Hot(k, x, dim)];
  }

  /** Dropping the front key from all three containers. */
  lemma DropZip<T>(lru: seq<Key>, data: map<Key, T>, dims: map<Key, nat>)
    requires SameKeys(lru, data, dims) && lru != []
    ensures lru[0] in data && lru[0] in dims
    ensures SameKeys(lru[1..], data - {lru[0]}, dims - {lru[0]})
    ensures Zip(lru[1..], data - {lru[0]}, dims - {lru[0]}) == Zip(lru, data, dims)[1..]
    ensures Zip(lru, data, dims)[0] == Hot(lru[0], data[lru[0]], dims[lru[0]])
  {
    assert forall k :: k in lru[1..] <==> k in lru && k != lru[0];
  }

  class HotTier<T> {
    const capacity: nat
    var data: map<Key, T>
    var dims: map<Key, nat>
    var lru: seq<Key>

    ghost predicate Agree() reads this { SameKeys(lru, data, dims) }

    /** The order has no duplicates, the three containers have the same keys, and none is over capacity. */
    ghost predicate Valid() reads this {
      Agree() && |lru| <= capacity
    }

    ghost function Recency(): seq<Hot<T>>
      reads this
      requires Agree()
    {
      Zip(lru, data, dims)
    }

    constructor (capacity: nat)
      ensures Valid() && Recency() == [] && this.capacity == capacity
    {
      this.capacity := capacity;
      data, dims, lru := map[], map[], [];
    }

    method Insert(key: Key, bytes: T, dim: nat) returns (evicted: Option<Hot<T>>)
      requires Valid()
      modifies this
      ensures Valid()
      ensures (Recency(), evicted) == Inserted(old(Recency()), Hot(key, bytes, dim), capacity)
    {
      StoreZip(lru, data, dims, key, bytes, dim);
      hide SameKeys, Zip, KeysWithout, Without;
      data := data[key := bytes];
      dims := dims[key := dim];
      lru := KeysWithout(lru, key);
      lru := lru + [key];
      if |lru| > capacity {
        DropZip(lru, data, dims);
        var oldest := lru[0];
        lru := lru[1..];
        evicted := Some(Hot(oldest, data[oldest], dims[oldest]));
        data := data - {oldest};
        dims := dims - {oldest};
      } else {
        evicted := None;
      }
    }

    method Get(key: Key) returns (found: Option<(T, nat)>)
      requires Valid()
      modifies this
      ensures Valid() && Recency() == Touched(old(Recency()), key)
      ensures found == match Find(old(Recency()), key) case None => None case Some(h) => Some((h.data, h.dim))
    {
      ZipFind(lru, data, dims, key);
      if key !in data || key !in dims {
        return None;
      }
      found := Some((data[key], dims[key]));
      StoreZip(lru, data, dims, key, data[key], dims[key]);
      assert data[key := data[key]] == data && dims[key := dims[key]] == dims;
      lru := KeysWithout(lru, key);
      lru := lru + [key];
    }
  }

  lemma {:induction false} KeysWithoutLength(lru: seq<Key>, k: Key)
    ensures |KeysWithout(lru, k)| <= |lru| && (k in lru ==> |KeysWithout(lru, k)| < |lru|)
  {
    if lru != [] {
      KeysWithoutLength(lru[1..], k);
    }
  }

  lemma {:induction false} ZipFind<T>(lru: seq<Key>, data: map<Key, T>, dims: map<Key, nat>, k: Key)
    requires forall q :: q in lru ==> q in data && q in dims
    ensures Find(Zip(lru, data, dims), k) == if k in lru then Some(Hot(k, data[k], dims[k])) else None
  {
    if lru != [] {
      ZipFind(lru[1..], data, dims, k);
      assert Zip(lru, data, dims)[1..] == Zip(lru[1..], data, dims);
    }
  }
}
