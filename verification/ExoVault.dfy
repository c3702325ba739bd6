/**
 * The EXO cold vault. Promotion is destructive and leaves the promoted key's queue entry behind, so
 * the queue may hold stale and duplicate entries. The byte counter is an unsigned 64-bit word.
 */
module ExoVault {
  import opened Common

  datatype Key = Key(token: nat, layer: nat)

  datatype Tensor<T> = Tensor(key: Key, data: seq<T>, rows: nat)

  datatype Entry = Entry(key: Key, size: nat)

  datatype Vault<T> = Vault(max: nat, store: map<Key, Tensor<T>>, order: seq<Entry>, current: word)

  const WORD := 0x1_0000_0000_0000_0000

  type word = x: nat | x < WORD

  function Wrap(a: int): word { a % WORD }

  function Empty<T>(max: nat): Vault<T> { Vault(max, map[], [], 0) }

  // ---- the operations ------------------------------------------------------------------------

  /** Drops the oldest queue entry; if its key is no longer held, nothing is counted. */
  function Pop<T>(v: Vault<T>): (w: Vault<T>)
    requires v.order != []
    ensures w.order == v.order[1..] && w.max == v.max && w.store == v.store - {v.order[0].key}
  {
    var e := v.order[0];
    if e.key in v.store then
      Vault(v.max, v.store - {e.key}, v.order[1..], Wrap(v.current - e.size))
    else
      assert v.store - {e.key} == v.store;
      v.(order := v.order[1..])
  }

  /** Pops until the count fits or the queue is empty. */
  function Evict<T>(v: Vault<T>): Vault<T>
    decreases |v.order|
  {
    if v.current <= v.max || v.order == [] then v else Evict(Pop(v))
  }

  function Pushed<T>(v: Vault<T>, kv: Tensor<T>): Vault<T> {
    Vault(v.max, v.store[kv.key := kv], v.order + [Entry(kv.key, |kv.data|)], Wrap(v.current + |kv.data|))
  }

  function Store<T>(v: Vault<T>, kv: Tensor<T>): Vault<T> {
    var w := Pushed(v, kv);
    if v.max > 0 && w.current > v.max then Evict(w) else w
  }

  function Promote<T>(v: Vault<T>, key: Key): (Option<Tensor<T>>, Vault<T>) {
    if key in v.store then
      (Some(v.store[key]), v.(store := v.store - {key}, current := Wrap(v.current - |v.store[key].data|)))
    else
      (None, v)
  }

  /** One answer for each layer, in order; a layer that is not held (any more) answers an empty tensor. */
  function BatchPromote<T>(v: Vault<T>, token: nat, layers: seq<nat>): (seq<Tensor<T>>, Vault<T>)
    decreases |layers|
  {
    if layers == [] then ([], v) else
      var key := Key(token, layers[0]);
      var (found, w) := Promote(v, key);
      var (rest, w') := BatchPromote(w, token, layers[1..]);
      ([match found case Some(kv) => kv case None => Tensor(key, [], 0)] + rest, w')
  }

  // ---- the bytes really held -----------------------------------------------------------------

  ghost function HeldBytes<T>(m: map<Key, Tensor<T>>): nat
    decreases |m|
  {
    if m == map[] then 0 else
      var k :| k in m;
      |m[k].data| + HeldBytes(m - {k})
  }

  lemma {:induction false} HeldRemove<T>(m: map<Key, Tensor<T>>, k: Key)
    requires k in m
    ensures HeldBytes(m) == |m[k].data| + HeldBytes(m - {k})
    decreases |m|
  {
    var j :| j in m && HeldBytes(m) == |m[j].data| + HeldBytes(m - {j});
    if j != k {
      HeldRemove(m - {j}, k);
      HeldRemove(m - {k}, j);
      assert m - {j} - {k} == m - {k} - {j};
    }
  }

  lemma HeldInsert<T>(m: map<Key, Tensor<T>>, kv: Tensor<T>)
    ensures HeldBytes(m[kv.key := kv]) ==
      HeldBytes(m) + |kv.data| - (if kv.key in m then |m[kv.key].data| else 0)
  {
    var m' := m[kv.key := kv];
    HeldRemove(m', kv.key);
    if kv.key in m {
      HeldRemove(m, kv.key);
      assert m' - {kv.key} == m - {kv.key};
    } else {
      assert m' - {kv.key} == m;
    }
  }

  // ---- when the count is right ---------------------------------------------------------------

  /** Entries of one key always carry one size, which is also the size held under that key. */
  ghost predicate SizesAgree<T>(store: map<Key, Tensor<T>>, order: seq<Entry>) {
    && (forall i, j :: 0 <= i < |order| && 0 <= j < |order| && order[i].key == order[j].key ==>
        order[i].size == order[j].size)
    && (forall i :: 0 <= i < |order| && order[i].key in store ==> order[i].size == |store[order[i].key].data|)
    && (forall k :: k in store ==> Queued(order, k))
  }

  ghost predicate Queued(order: seq<Entry>, k: Key) {
    exists i :: 0 <= i < |order| && order[i].key == k
  }

  /** The counter is exactly the bytes held, whatever stale or duplicate entries the queue carries. */
  ghost predicate Accounted<T>(v: Vault<T>) {
    SizesAgree(v.store, v.order) && Exact(v)
  }

  /** The counter is the number of bytes held. */
  ghost predicate Exact<T>(v: Vault<T>) { v.current == HeldBytes(v.store) }

  /** What a caller has to see before storing: the key is not held (or nothing is counted for it), and its stale entries have this size. */
  ghost predicate StoreAllowed<T>(v: Vault<T>, kv: Tensor<T>) {
    && (kv.key in v.store ==> |kv.data| == 0)
    && (forall i :: 0 <= i < |v.order| && v.order[i].key == kv.key ==> v.order[i].size == |kv.data|)
  }

  /** The counter is off by `d`, modulo the word size. */
  ghost predicate OffBy<T>(v: Vault<T>, d: int) {
    v.current == Wrap(HeldBytes(v.store) + d)
  }

  lemma WrapFacts(a: int, b: int)
    ensures 0 <= a < WORD ==> Wrap(a) == a
    ensures Wrap(Wrap(a) + b) == Wrap(a + b) && Wrap(Wrap(a) - b) == Wrap(a - b)
  {
    var q := a / WORD;
    assert Wrap(a) == a - q * WORD;
    WrapShift(a + b, q);
    WrapShift(a - b, q);
  }

  lemma WrapShift(n: int, q: int)
    ensures Wrap(n - q * WORD) == Wrap(n)
  {
  }

  lemma PopSizes<T>(v: Vault<T>)
    requires SizesAgree(v.store, v.order) && v.order != []
    ensures SizesAgree(v.store - {v.order[0].key}, v.order[1..])
  {
    var e, rest := v.order[0], v.order[1..];
    forall k | k in v.store - {e.key} ensures Queued(rest, k) {
      var i :| 0 <= i < |v.order| && v.order[i].key == k;
      assert rest[i - 1].key == k;
    }
  }

  lemma NothingQueuedNothingHeld<T>(v: Vault<T>)
    requires SizesAgree(v.store, v.order) && v.order == []
    ensures v.store == map[] && HeldBytes(v.store) == 0
  {
    assert forall k :: !Queued([], k);
  }

  lemma FirstSize<T>(v: Vault<T>)
    requires SizesAgree(v.store, v.order) && v.order != [] && v.order[0].key in v.store
    ensures v.order[0].size == |v.store[v.order[0].key].data|
  {
  }

  lemma PopKeepsAccounts<T>(v: Vault<T>)
    requires Accounted(v) && v.order != []
    ensures Accounted(Pop(v))
  {
    var e := v.order[0];
    PopSizes(v);
    if e.key in v.store {
      FirstSize(v);
      HeldRemove(v.store, e.key);
      WrapFacts(v.current - e.size, 0);
    }
    hide SizesAgree, HeldBytes, Wrap;
  }

  /** With the count right, eviction ends within the limit. */
  lemma {:induction false} EvictFits<T>(v: Vault<T>)
    requires Accounted(v)
    ensures Accounted(Evict(v)) && Evict(v).current <= v.max && Evict(v).max == v.max
    ensures Evict(v).store.Keys <= v.store.Keys
    decreases |v.order|
  {
    if v.order == [] {
      NothingQueuedNothingHeld(v);
    }
    hide Accounted, Pop;
    if v.current > v.max && v.order != [] {
      PopKeepsAccounts(v);
      EvictFits(Pop(v));
    }
  }

  lemma PushSizes<T>(v: Vault<T>, kv: Tensor<T>)
    requires SizesAgree(v.store, v.order) && StoreAllowed(v, kv)
    ensures SizesAgree(Pushed(v, kv).store, Pushed(v, kv).order)
  {
    var w := Pushed(v, kv);
    forall k | k in w.store ensures Queued(w.order, k) {
      if k == kv.key {
        assert w.order[|v.order|].key == k;
      } else {
        var i :| 0 <= i < |v.order| && v.order[i].key == k;
        assert w.order[i].key == k;
      }
    }
  }

  lemma AllowedHeldIsEmpty<T>(v: Vault<T>, kv: Tensor<T>)
    requires SizesAgree(v.store, v.order) && StoreAllowed(v, kv) && kv.key in v.store
    ensures |v.store[kv.key].data| == 0
  {
    var i :| 0 <= i < |v.order| && v.order[i].key == kv.key;
  }

  /** A store that is allowed keeps the count right and, with a limit, ends within it. */
  lemma AllowedStoreKeepsAccounts<T>(v: Vault<T>, kv: Tensor<T>)
    requires Accounted(v) && StoreAllowed(v, kv) && HeldBytes(v.store) + |kv.data| < WORD
    ensures Accounted(Store(v, kv)) && Store(v, kv).max == v.max
    ensures v.max > 0 ==> Store(v, kv).current <= v.max
  {
    hide Accounted, Pushed, Evict, StoreAllowed;
    var w := Pushed(v, kv);
    PushKeepsAccounts(v, kv);
    if v.max > 0 && w.current > v.max {
      EvictFits(w);
    }
  }

  lemma PushKeepsAccounts<T>(v: Vault<T>, kv: Tensor<T>)
    requires Accounted(v) && StoreAllowed(v, kv) && HeldBytes(v.store) + |kv.data| < WORD
    ensures Accounted(Pushed(v, kv)) && Pushed(v, kv).max == v.max
  {
    PushSizes(v, kv);
    PushedCounts(v, kv);
    if kv.key in v.store {
      AllowedHeldIsEmpty(v, kv);
    }
    hide SizesAgree, HeldBytes, Wrap, StoreAllowed;
  }

  // ---- when it is not ------------------------------------------------------------------------

  ghost predicate HeldSizes<T>(store: map<Key, Tensor<T>>, order: seq<Entry>) {
    forall i :: 0 <= i < |order| && order[i].key in store ==> order[i].size == |store[order[i].key].data|
  }

  lemma PopKeepsOffset<T>(v: Vault<T>, d: int)
    requires OffBy(v, d) && v.order != []
    requires v.order[0].key in v.store ==> v.order[0].size == |v.store[v.order[0].key].data|
    ensures OffBy(Pop(v), d)
  {
    var e := v.order[0];
    if e.key in v.store {
      HeldRemove(v.store, e.key);
      WrapFacts(HeldBytes(v.store) + d, e.size);
    }
    hide HeldBytes, Wrap;
  }

  /** Eviction leaves the counter as right or wrong as it was. */
  lemma {:induction false} EvictKeepsOffset<T>(v: Vault<T>, d: int)
    requires HeldSizes(v.store, v.order) && OffBy(v, d)
    ensures OffBy(Evict(v), d)
    decreases |v.order|
  {
    if v.current > v.max && v.order != [] {
      PopKeepsOffset(v, d);
      assert HeldSizes(Pop(v).store, Pop(v).order);
      EvictKeepsOffset(Pop(v), d);
    }
  }

  // ---- what eviction does to a key whose queue entry says another size --------------------------

  /** The first entry of a key; the length of the queue if it has none. */
  function FirstOf(order: seq<Entry>, k: Key): (n: nat)
    ensures n <= |order| && forall i :: 0 <= i < n ==> order[i].key != k
    ensures n < |order| ==> order[n].key == k
  {
    if order == [] || order[0].key == k then 0 else 1 + FirstOf(order[1..], k)
  }

  /** The held keys that have an entry among these. */
  ghost function Among<T>(store: map<Key, Tensor<T>>, order: seq<Entry>): map<Key, Tensor<T>> {
    map k | k in store && Queued(order, k) :: store[k]
  }

  /** The bytes that are freed by popping these entries. */
  ghost function Freed<T>(store: map<Key, Tensor<T>>, order: seq<Entry>): nat { HeldBytes(Among(store, order)) }

  lemma {:induction false} HeldSubmap<T>(a: map<Key, Tensor<T>>, b: map<Key, Tensor<T>>)
    requires forall k :: k in a ==> k in b && a[k] == b[k]
    ensures HeldBytes(a) <= HeldBytes(b)
    decreases |a|
  {
    if a != map[] {
      var k :| k in a;
      HeldRemove(a, k);
      HeldRemove(b, k);
      HeldSubmap(a - {k}, b - {k});
    }
  }

  lemma FreedStep<T>(store: map<Key, Tensor<T>>, order: seq<Entry>)
    requires order != []
    ensures Freed(store, order) == Freed(store - {order[0].key}, order[1..])
      + if order[0].key in store then |store[order[0].key].data| else 0
  {
    var e := order[0];
    var all, rest := Among(store, order), Among(store - {e.key}, order[1..]);
    forall k ensures Queued(order, k) <==> k == e.key || Queued(order[1..], k) {
      if i :| 0 < i < |order| && order[i].key == k {
        assert order[1..][i - 1].key == k;
      }
      if i :| 0 <= i < |order[1..]| && order[1..][i].key == k {
        assert order[i + 1].key == k;
      }
    }
    if e.key in store {
      HeldRemove(all, e.key);
      assert all - {e.key} == rest;
    } else {
      assert all == rest;
    }
  }

  /** Eviction gets as far as the first entry of `k`. */
  predicate Hits<T>(v: Vault<T>, k: Key)
    decreases |v.order|
  {
    v.current > v.max && v.order != [] && (v.order[0].key == k || Hits(Pop(v), k))
  }

  /** `k` is held with `d` bytes, its first entry says `m`, and all other held keys have entries of their size. */
  ghost predicate OddFirst<T>(v: Vault<T>, k: Key, m: nat, d: nat) {
    && k in v.store && |v.store[k].data| == d
    && FirstOf(v.order, k) < |v.order| && v.order[FirstOf(v.order, k)].size == m
    && HeldSizes(v.store - {k}, v.order)
  }

  lemma OddFirstPop<T>(v: Vault<T>, k: Key, m: nat, d: nat)
    requires OddFirst(v, k, m, d)
    ensures v.order != [] && k in v.store && |v.store[k].data| == d
    ensures v.order[0].key == k ==> v.order[0].size == m && HeldSizes(Pop(v).store, Pop(v).order)
    ensures v.order[0].key != k ==>
      && FirstOf(v.order, k) == 1 + FirstOf(Pop(v).order, k)
      && (v.order[0].key in v.store ==> v.order[0].size == |v.store[v.order[0].key].data|)
      && OddFirst(Pop(v), k, m, d)
  {
    var e := v.order[0];
    if e.key != k && e.key in v.store {
      assert e.key in v.store - {k};
    }
  }

  lemma PopSpoils<T>(v: Vault<T>, k: Key, m: nat, d: nat, off: int)
    requires OffBy(v, off) && v.order != [] && v.order[0] == Entry(k, m) && k in v.store && |v.store[k].data| == d
    ensures OffBy(Pop(v), off + d - m)
  {
    HeldRemove(v.store, k);
    WrapFacts(HeldBytes(v.store) + off, m);
    hide HeldBytes, Wrap;
  }

  /** What eviction leaves behind: the counter shifts by the difference if the odd entry is popped, and not otherwise. */
  lemma {:induction false} EvictOffset<T>(v: Vault<T>, k: Key, m: nat, d: nat, off: int)
    requires OddFirst(v, k, m, d) && OffBy(v, off)
    ensures OffBy(Evict(v), if Hits(v, k) then off + d - m else off)
    ensures !Hits(v, k) ==> OddFirst(Evict(v), k, m, d)
    decreases |v.order|
  {
    OddFirstPop(v, k, m, d);
    hide OddFirst, Pop, HeldSizes, OffBy, FirstOf;
    if v.current > v.max {
      if v.order[0].key == k {
        PopSpoils(v, k, m, d, off);
        EvictKeepsOffset(Pop(v), off + d - m);
      } else {
        PopKeepsOffset(v, off);
        EvictOffset(Pop(v), k, m, d, off);
      }
    }
  }

  /** Whether it gets there can be read off the vault beforehand: the bytes freed on the way must not be enough. */
  lemma {:induction false} HitsIff<T>(v: Vault<T>, k: Key, m: nat, d: nat, off: nat)
    requires OddFirst(v, k, m, d) && v.current == HeldBytes(v.store) + off
    ensures Hits(v, k) <==> v.current - Freed(v.store, v.order[..FirstOf(v.order, k)]) > v.max
    decreases |v.order|
  {
    OddFirstPop(v, k, m, d);
    var n := FirstOf(v.order, k);
    if n == 0 {
      NothingFreed(v.store, v.order[..n]);
    } else {
      var w, e := Pop(v), v.order[0];
      var front := v.order[..n];
      FreedStep(v.store, front);
      assert front[1..] == w.order[..n - 1];
      PopShrinks(v, off);
      HitsIff(w, k, m, d, off);
      hide OddFirst, HeldBytes, Freed, FirstOf;
    }
  }

  lemma NothingFreed<T>(store: map<Key, Tensor<T>>, order: seq<Entry>)
    requires order == []
    ensures Freed(store, order) == 0
  {
    assert forall k :: !Queued([], k);
    assert Among(store, order) == map[];
  }

  /** While no odd entry is popped the count cannot wrap around. */
  lemma PopShrinks<T>(v: Vault<T>, off: nat)
    requires v.order != [] && v.current == HeldBytes(v.store) + off
    requires v.order[0].key in v.store ==> v.order[0].size == |v.store[v.order[0].key].data|
    ensures Pop(v).current == HeldBytes(Pop(v).store) + off
    ensures Pop(v).current == v.current - if v.order[0].key in v.store then v.order[0].size else 0
  {
    var e := v.order[0];
    if e.key in v.store {
      HeldRemove(v.store, e.key);
      WrapFacts(v.current - e.size, 0);
    } else {
      assert v.store - {e.key} == v.store;
    }
  }

  // ---- where eviction stops ----------------------------------------------------------------------

  /** What the counter stands for, without the wrap-around, once the first `m` entries are popped. */
  ghost function LeftAfter<T>(v: Vault<T>, d: int, m: nat): int
    requires m <= |v.order|
  {
    HeldBytes(v.store) + d - Freed(v.store, v.order[..m])
  }

  /** The first `n` queue entries and the blocks they name are gone, and nothing else. */
  ghost predicate Dropped<T>(v: Vault<T>, w: Vault<T>, n: nat) {
    && n <= |v.order| && w.order == v.order[n..] && w.max == v.max
    && w.store == map k | k in v.store && !Queued(v.order[..n], k) :: v.store[k]
  }

  /** Eviction drops entries up to the first point at which the count is within the limit and not below zero. */
  lemma {:induction false} EvictStops<T>(v: Vault<T>, d: int) returns (n: nat)
    requires HeldSizes(v.store, v.order) && OffBy(v, d) && v.max - WORD < d && HeldBytes(v.store) + d < WORD
    ensures Dropped(v, Evict(v), n)
    ensures n < |v.order| ==> 0 <= LeftAfter(v, d, n) <= v.max
    ensures forall m: nat :: m < n ==> LeftAfter(v, d, m) < 0 || LeftAfter(v, d, m) > v.max
    decreases |v.order|
  {
    hide HeldBytes, OffBy, Wrap, Freed, Dropped, HeldSizes, LeftAfter, Pop;
    LeftAtFirst(v, d);
    if v.current <= v.max || v.order == [] {
      n := 0;
      NothingDropped(v);
    } else {
      var w := Pop(v);
      PopKeepsSizes(v, d);
      var n' := EvictStops(w, d);
      n := n' + 1;
      DroppedOneMore(v, n', Evict(w));
      forall m: nat | 0 < m <= |v.order| ensures LeftAfter(v, d, m) == LeftAfter(w, d, m - 1) {
        LeftAfterPop(v, d, m);
      }
    }
  }

  lemma LeftAtFirst<T>(v: Vault<T>, d: int)
    requires OffBy(v, d) && v.max - WORD < d && HeldBytes(v.store) + d < WORD
    ensures v.current <= v.max <==> 0 <= LeftAfter(v, d, 0) <= v.max
  {
    NothingFreed(v.store, v.order[..0]);
    WrapAround(HeldBytes(v.store) + d, v.max);
    hide HeldBytes, Wrap, Freed;
  }

  lemma PopKeepsSizes<T>(v: Vault<T>, d: int)
    requires v.order != [] && HeldSizes(v.store, v.order) && OffBy(v, d)
    ensures HeldSizes(Pop(v).store, Pop(v).order) && OffBy(Pop(v), d) && HeldBytes(Pop(v).store) <= HeldBytes(v.store)
  {
    PopKeepsOffset(v, d);
    HeldSubmap(Pop(v).store, v.store);
    hide HeldBytes, OffBy;
  }

  /** A word below zero reads as more than any limit. */
  lemma WrapAround(a: int, max: nat)
    requires max - WORD < a < WORD
    ensures Wrap(a) <= max <==> 0 <= a <= max
  {
  }

  lemma NothingDropped<T>(v: Vault<T>)
    ensures Dropped(v, v, 0)
  {
    assert forall k :: !Queued(v.order[..0], k);
    assert v.store == map k | k in v.store && !Queued(v.order[..0], k) :: v.store[k];
  }

  lemma QueuedCons(order: seq<Entry>, n: nat, k: Key)
    requires 0 < n <= |order|
    ensures Queued(order[..n], k) <==> order[0].key == k || Queued(order[1..][..n - 1], k)
  {
    var front, rest := order[..n], order[1..][..n - 1];
    assert front[1..] == rest;
    if i :| 0 < i < |front| && front[i].key == k {
      assert rest[i - 1].key == k;
    }
    if i :| 0 <= i < |rest| && rest[i].key == k {
      assert front[i + 1].key == k;
    }
    assert order[0] == front[0];
  }

  lemma DroppedOneMore<T>(v: Vault<T>, n: nat, w: Vault<T>)
    requires v.order != [] && Dropped(Pop(v), w, n)
    ensures Dropped(v, w, n + 1)
  {
    forall k ensures Queued(v.order[..n + 1], k) <==> v.order[0].key == k || Queued(v.order[1..][..n], k) {
      QueuedCons(v.order, n + 1, k);
    }
    assert v.order[1..][n..] == v.order[n + 1..];
  }

  lemma LeftAfterPop<T>(v: Vault<T>, d: int, m: nat)
    requires 0 < m <= |v.order|
    ensures LeftAfter(v, d, m) == LeftAfter(Pop(v), d, m - 1)
  {
    FreedStep(v.store, v.order[..m]);
    assert v.order[..m][1..] == v.order[1..][..m - 1];
    if v.order[0].key in v.store {
      HeldRemove(v.store, v.order[0].key);
    }
    hide HeldBytes, Freed;
  }

  // ---- when one store keeps the count exact ------------------------------------------------------

  /** A sound vault: counted exactly, within the limit, and with sizes a `usize` can hold. */
  ghost predicate Sound<T>(v: Vault<T>) {
    && Accounted(v)
    && (v.max > 0 ==> v.current <= v.max)
    && forall i :: 0 <= i < |v.order| ==> v.order[i].size < WORD
  }

  function Overwritten<T>(v: Vault<T>, kv: Tensor<T>): nat { if kv.key in v.store then |v.store[kv.key].data| else 0 }

  /** Eviction after this store pops an entry the key had before: freeing all keys queued ahead of it is not enough. */
  ghost predicate Reaches<T>(v: Vault<T>, kv: Tensor<T>) {
    var n := FirstOf(v.order, kv.key);
    v.max > 0 && n < |v.order| && v.current + |kv.data| - Freed(v.store, v.order[..n]) > v.max
  }

  /** By how much the counter is wrong after the store. */
  ghost function Miscount<T>(v: Vault<T>, kv: Tensor<T>): int {
    Overwritten(v, kv) + if Reaches(v, kv) then |kv.data| - v.order[FirstOf(v.order, kv.key)].size else 0
  }

  /** The size the first entry of the key will have once `kv` is pushed. */
  function FirstSizeAfter<T>(v: Vault<T>, kv: Tensor<T>): nat {
    var n := FirstOf(v.order, kv.key);
    if n < |v.order| then v.order[n].size else |kv.data|
  }

  lemma {:induction false} FirstOfAppend(order: seq<Entry>, e: Entry, k: Key)
    ensures FirstOf(order + [e], k) ==
      if FirstOf(order, k) < |order| || e.key == k then FirstOf(order, k) else |order| + 1
  {
    if order != [] && order[0].key != k {
      assert (order + [e])[1..] == order[1..] + [e];
      FirstOfAppend(order[1..], e, k);
    }
  }

  lemma PushedIsOdd<T>(v: Vault<T>, kv: Tensor<T>)
    requires SizesAgree(v.store, v.order)
    ensures OddFirst(Pushed(v, kv), kv.key, FirstSizeAfter(v, kv), |kv.data|)
  {
    FirstOfAppend(v.order, Entry(kv.key, |kv.data|), kv.key);
    hide FirstOf, Wrap;
    var w := Pushed(v, kv);
    assert w.store - {kv.key} == v.store - {kv.key};
  }

  lemma PushedCounts<T>(v: Vault<T>, kv: Tensor<T>)
    requires Exact(v) && HeldBytes(v.store) + |kv.data| < WORD
    ensures Pushed(v, kv).current == HeldBytes(Pushed(v, kv).store) + Overwritten(v, kv) == v.current + |kv.data|
    ensures OffBy(Pushed(v, kv), Overwritten(v, kv)) && HeldBytes(Pushed(v, kv).store) < WORD
  {
    HeldInsert(v.store, kv);
    WrapFacts(v.current + |kv.data|, 0);
    hide HeldBytes, Wrap;
  }

  lemma ReachesIsHits<T>(v: Vault<T>, kv: Tensor<T>)
    requires Accounted(v) && v.max > 0 && HeldBytes(v.store) + |kv.data| < WORD
    ensures FirstOf(v.order, kv.key) < |v.order| ==> (Hits(Pushed(v, kv), kv.key) <==> Reaches(v, kv))
  {
    var w, n := Pushed(v, kv), FirstOf(v.order, kv.key);
    AccountedParts(v);
    PushedIsOdd(v, kv);
    PushedCounts(v, kv);
    FirstOfAppend(v.order, Entry(kv.key, |kv.data|), kv.key);
    SameFront(v, kv, n);
    hide OddFirst, Freed, FirstOf, Hits, HeldBytes, Accounted, Exact, OffBy, Overwritten, Wrap;
    HitsIff(w, kv.key, FirstSizeAfter(v, kv), |kv.data|, Overwritten(v, kv));
  }

  lemma SameFront<T>(v: Vault<T>, kv: Tensor<T>, n: nat)
    requires n <= |v.order| && forall i :: 0 <= i < n ==> v.order[i].key != kv.key
    ensures Freed(Pushed(v, kv).store, Pushed(v, kv).order[..n]) == Freed(v.store, v.order[..n])
  {
    var w, front := Pushed(v, kv), v.order[..n];
    assert w.order[..n] == front;
    assert !Queued(front, kv.key);
    assert Among(w.store, front) == Among(v.store, front);
  }

  /** The counter after one store, to the byte. */
  lemma StoreIsOffBy<T>(v: Vault<T>, kv: Tensor<T>)
    requires Accounted(v) && (v.max > 0 ==> v.current <= v.max) && HeldBytes(v.store) + |kv.data| < WORD
    ensures OffBy(Store(v, kv), Miscount(v, kv))
    ensures v.max == 0 || !Hits(Pushed(v, kv), kv.key) ==> OddFirst(Store(v, kv), kv.key, FirstSizeAfter(v, kv), |kv.data|)
  {
    hide *;
    AccountedParts(v);
    PushedIsOdd(v, kv);
    PushedCounts(v, kv);
    StoreIsEvict(v, kv);
    MiscountIs(v, kv);
    if v.max > 0 {
      EvictOffset(Pushed(v, kv), kv.key, FirstSizeAfter(v, kv), |kv.data|, Overwritten(v, kv));
    }
  }

  lemma AccountedParts<T>(v: Vault<T>)
    requires Accounted(v)
    ensures SizesAgree(v.store, v.order) && Exact(v)
  {
    hide SizesAgree, HeldBytes;
  }

  lemma StoreIsEvict<T>(v: Vault<T>, kv: Tensor<T>)
    ensures Store(v, kv) == if v.max > 0 then Evict(Pushed(v, kv)) else Pushed(v, kv)
  {
  }

  lemma MiscountIs<T>(v: Vault<T>, kv: Tensor<T>)
    requires Accounted(v) && HeldBytes(v.store) + |kv.data| < WORD
    ensures Miscount(v, kv) == Overwritten(v, kv) +
      if v.max > 0 && Hits(Pushed(v, kv), kv.key) then |kv.data| - FirstSizeAfter(v, kv) else 0
  {
    if v.max > 0 {
      ReachesIsHits(v, kv);
    }
    hide Hits, HeldBytes, Freed, FirstOf, Accounted, Overwritten;
  }

  /** What to check before the call: if a stale entry will be reached it must say this size, if not, nothing may be overwritten. */
  ghost predicate CountStaysRight<T>(v: Vault<T>, kv: Tensor<T>) {
    if Reaches(v, kv) then kv.key !in v.store && v.order[FirstOf(v.order, kv.key)].size == |kv.data|
    else Overwritten(v, kv) == 0
  }

  lemma OffsetDecides<T>(v: Vault<T>, d: int)
    requires OffBy(v, d) && -WORD < d < WORD && HeldBytes(v.store) < WORD
    ensures Exact(v) <==> d == 0
  {
    hide HeldBytes;
  }

  lemma {:induction false} EvictHoldsLess<T>(v: Vault<T>)
    ensures HeldBytes(Evict(v).store) <= HeldBytes(v.store)
    decreases |v.order|
  {
    if v.current > v.max && v.order != [] {
      EvictHoldsLess(Pop(v));
      HeldSubmap(Pop(v).store, v.store);
    }
  }

  lemma StoreHoldsAtMost<T>(v: Vault<T>, kv: Tensor<T>)
    ensures HeldBytes(Store(v, kv).store) <= HeldBytes(v.store) + |kv.data|
  {
    HeldInsert(v.store, kv);
    EvictHoldsLess(Pushed(v, kv));
    hide HeldBytes;
  }

  /** A held key has an entry, and all its entries say what it holds. */
  lemma HeldSaysItsSize<T>(v: Vault<T>, k: Key)
    requires SizesAgree(v.store, v.order) && k in v.store
    ensures FirstOf(v.order, k) < |v.order| && v.order[FirstOf(v.order, k)].size == |v.store[k].data|
  {
    assert Queued(v.order, k);
  }

  lemma MiscountBounds<T>(v: Vault<T>, kv: Tensor<T>)
    requires Sound(v) && HeldBytes(v.store) + |kv.data| < WORD
    ensures -WORD < Miscount(v, kv) < WORD
    ensures Miscount(v, kv) == 0 <==> CountStaysRight(v, kv)
  {
    if kv.key in v.store {
      HeldSaysItsSize(v, kv.key);
      HeldRemove(v.store, kv.key);
    }
    var n := FirstOf(v.order, kv.key);
    assert n < |v.order| ==> v.order[n].size < WORD;
    hide HeldBytes, FirstOf, Freed, SizesAgree;
  }

  /** Exactly when one store leaves the counter equal to the bytes held. */
  lemma StoreIsExactIff<T>(v: Vault<T>, kv: Tensor<T>)
    requires Sound(v) && HeldBytes(v.store) + |kv.data| < WORD
    ensures Exact(Store(v, kv)) <==> CountStaysRight(v, kv)
  {
    StoreIsOffBy(v, kv);
    StoreHoldsAtMost(v, kv);
    MiscountBounds(v, kv);
    OffsetDecides(Store(v, kv), Miscount(v, kv));
  }

  /** Overwriting a held key that has bytes makes the counter wrong at once, whatever is written. */
  lemma OverwriteSpoils<T>(v: Vault<T>, kv: Tensor<T>)
    requires Sound(v) && HeldBytes(v.store) + |kv.data| < WORD
    requires kv.key in v.store && |v.store[kv.key].data| > 0
    ensures !Exact(Store(v, kv))
  {
    StoreIsExactIff(v, kv);
  }

  // ---- what a store that should not have been made leads to -----------------------------------------

  /** If the count is still exact, there is an entry of another size waiting in front of the queue entry of the key. */
  lemma DisallowedLeavesOdd<T>(v: Vault<T>, kv: Tensor<T>)
    requires Sound(v) && HeldBytes(v.store) + |kv.data| < WORD
    requires !StoreAllowed(v, kv) && Exact(Store(v, kv))
    ensures FirstSizeAfter(v, kv) != |kv.data|
    ensures OddFirst(Store(v, kv), kv.key, FirstSizeAfter(v, kv), |kv.data|)
  {
    StoreIsExactIff(v, kv);
    StoreIsOffBy(v, kv);
    if kv.key in v.store {
      HeldSaysItsSize(v, kv.key);
    }
    if v.max > 0 {
      ReachesIsHits(v, kv);
    }
    SameSizes(v, kv);
    hide OddFirst, HeldBytes, Freed, Hits, Pushed, Evict, FirstOf;
  }

  lemma SameSizes<T>(v: Vault<T>, kv: Tensor<T>)
    requires SizesAgree(v.store, v.order)
    ensures FirstOf(v.order, kv.key) == |v.order| ==> StoreAllowed(v, kv)
    ensures FirstSizeAfter(v, kv) == |kv.data| && (kv.key in v.store ==> |kv.data| == 0) ==> StoreAllowed(v, kv)
  {
    if kv.key in v.store {
      HeldSaysItsSize(v, kv.key);
    }
  }

  lemma OddIsDisagreeing<T>(v: Vault<T>, k: Key, m: nat, d: nat)
    requires OddFirst(v, k, m, d) && m != d
    ensures !SizesAgree(v.store, v.order)
  {
  }

  /** Exactly when a store leaves a sound vault sound, that is, exact and with queue entries that agree about sizes. */
  lemma StoreStaysSoundIff<T>(v: Vault<T>, kv: Tensor<T>)
    requires Sound(v) && HeldBytes(v.store) + |kv.data| < WORD
    ensures Sound(Store(v, kv)) <==> StoreAllowed(v, kv)
  {
    if StoreAllowed(v, kv) {
      AllowedStoreKeepsAccounts(v, kv);
      StoreOrder(v, kv);
    } else if Exact(Store(v, kv)) {
      DisallowedLeavesOdd(v, kv);
      OddIsDisagreeing(Store(v, kv), kv.key, FirstSizeAfter(v, kv), |kv.data|);
    }
  }

  /** A store that flushes the whole queue pops the odd entry, and then the counter is wrong. */
  lemma FlushingStoreShowsIt<T>(v: Vault<T>, k: Key, m: nat, d: nat, x: Tensor<T>)
    requires OddFirst(v, k, m, d) && m != d && m < WORD && d < WORD && Exact(v) && v.max > 0
    requires x.key != k && x.key !in v.store && !Queued(v.order, x.key) && |x.data| == v.max + 1
    requires HeldBytes(v.store) + |x.data| < WORD
    ensures !Exact(Store(v, x))
  {
    hide *;
    OddFirstPushed(v, k, m, d, x);
    PushedCounts(v, x);
    NothingOverwritten(v, x);
    FreedAtMost(v, x, FirstOf(v.order, k));
    HitsIff(Pushed(v, x), k, m, d, 0);
    EvictOffset(Pushed(v, x), k, m, d, 0);
    EvictHoldsLess(Pushed(v, x));
    StoreIsEvict(v, x);
    OffsetDecides(Store(v, x), d - m);
  }

  lemma NothingOverwritten<T>(v: Vault<T>, x: Tensor<T>)
    requires Exact(v) && x.key !in v.store
    ensures Overwritten(v, x) == 0 && Pushed(v, x).max == v.max && v.current == HeldBytes(v.store)
  {
    hide HeldBytes;
  }

  lemma OddFirstPushed<T>(v: Vault<T>, k: Key, m: nat, d: nat, x: Tensor<T>)
    requires OddFirst(v, k, m, d) && x.key != k && !Queued(v.order, x.key)
    ensures OddFirst(Pushed(v, x), k, m, d) && FirstOf(Pushed(v, x).order, k) == FirstOf(v.order, k)
  {
    FirstOfAppend(v.order, Entry(x.key, |x.data|), k);
    var w := Pushed(v, x);
    hide FirstOf;
    forall i | 0 <= i < |w.order| && w.order[i].key in w.store - {k}
      ensures w.order[i].size == |(w.store - {k})[w.order[i].key].data|
    {
      if i < |v.order| {
        assert v.order[i].key != x.key;
        assert v.order[i].key in v.store - {k};
      }
    }
  }

  lemma FreedAtMost<T>(v: Vault<T>, x: Tensor<T>, n: nat)
    requires n <= |v.order| && !Queued(v.order, x.key)
    ensures Freed(Pushed(v, x).store, Pushed(v, x).order[..n]) <= HeldBytes(v.store)
  {
    var w := Pushed(v, x);
    var front := w.order[..n];
    forall k | Queued(front, k) ensures k != x.key {
      var i :| 0 <= i < |front| && front[i].key == k;
      assert v.order[i].key == k;
    }
    HeldSubmap(Among(w.store, front), v.store);
  }

  /**
   * A store that was not allowed is never harmless when there is a limit: either the counter is wrong at
   * once, or a single later store of a new key, itself beyond reproach, makes it wrong.
   */
  lemma DisallowedStoreDoomsIff<T>(v: Vault<T>, kv: Tensor<T>, x: Tensor<T>)
    requires Sound(v) && v.max > 0 && 2 * v.max + |kv.data| + 1 < WORD
    requires x.key != kv.key && !Queued(v.order, x.key) && |x.data| == v.max + 1
    ensures Exact(Store(v, kv)) && Exact(Store(Store(v, kv), x)) <==> StoreAllowed(v, kv)
  {
    var w := Store(v, kv);
    StoreHoldsAtMost(v, kv);
    StoreKeepsMax(v, kv);
    NewStaysNew(v, kv, x.key);
    hide HeldBytes;
    if StoreAllowed(v, kv) {
      AllowedStoreKeepsAccounts(v, kv);
      AllowedStoreKeepsAccounts(w, x);
    } else if Exact(w) {
      DisallowedLeavesOdd(v, kv);
      SizesAreWords(v, kv);
      FlushingStoreShowsIt(w, kv.key, FirstSizeAfter(v, kv), |kv.data|, x);
    }
  }

  lemma SizesAreWords<T>(v: Vault<T>, kv: Tensor<T>)
    requires Sound(v) && |kv.data| < WORD
    ensures FirstSizeAfter(v, kv) < WORD
  {
  }

  lemma {:induction false} EvictAddsNothing<T>(v: Vault<T>)
    ensures Evict(v).store.Keys <= v.store.Keys
    decreases |v.order|
  {
    if v.current > v.max && v.order != [] {
      EvictAddsNothing(Pop(v));
    }
  }

  lemma NewStaysNew<T>(v: Vault<T>, kv: Tensor<T>, k: Key)
    requires SizesAgree(v.store, v.order) && !Queued(v.order, k) && k != kv.key
    ensures !Queued(Store(v, kv).order, k) && k !in Store(v, kv).store
  {
    var w, r := Pushed(v, kv), Store(v, kv);
    EvictOrder(w);
    EvictAddsNothing(w);
    forall i | 0 <= i < |r.order| ensures r.order[i].key != k {
      assert r.order[i] in r.order;
      assert r.order[i] in w.order;
      var j :| 0 <= j < |w.order| && w.order[j] == r.order[i];
      assert j < |v.order| ==> Queued(v.order, v.order[j].key);
    }
  }

  lemma {:induction false} EvictOrder<T>(v: Vault<T>)
    ensures forall e :: e in Evict(v).order ==> e in v.order
    decreases |v.order|
  {
    if v.current > v.max && v.order != [] {
      EvictOrder(Pop(v));
    }
  }

  lemma StoreOrder<T>(v: Vault<T>, kv: Tensor<T>)
    requires |kv.data| < WORD && forall i :: 0 <= i < |v.order| ==> v.order[i].size < WORD
    ensures forall i :: 0 <= i < |Store(v, kv).order| ==> Store(v, kv).order[i].size < WORD
  {
    EvictOrder(Pushed(v, kv));
    var r := Store(v, kv);
    forall i | 0 <= i < |r.order| ensures r.order[i].size < WORD {
      assert r.order[i] in r.order;
      assert r.order[i] in Pushed(v, kv).order;
    }
  }

  // ---- promotion and whole runs --------------------------------------------------------------

  lemma PromoteKeepsSound<T>(v: Vault<T>, key: Key)
    requires Sound(v)
    ensures Sound(Promote(v, key).1)
    ensures key in v.store ==> |v.store[key].data| <= v.current
    ensures Promote(v, key).1.order == v.order && Promote(v, key).1.max == v.max
    ensures HeldBytes(v.store) == HeldBytes(Promote(v, key).1.store) +
      match Promote(v, key).0 case Some(kv) => |kv.data| case None => 0
  {
    if key in v.store {
      HeldRemove(v.store, key);
      WrapFacts(v.current - |v.store[key].data|, 0);
    }
    hide HeldBytes, Wrap, Queued;
  }

  ghost function DataBytes<T>(ts: seq<Tensor<T>>): nat {
    if ts == [] then 0 else |ts[0].data| + DataBytes(ts[1..])
  }

  /** Batch promotion hands out exactly the bytes it takes out, even when layers repeat. */
  lemma {:induction false} BatchPromoteConserves<T>(v: Vault<T>, token: nat, layers: seq<nat>)
    requires Sound(v)
    ensures var (ts, w) := BatchPromote(v, token, layers);
      && Sound(w) && w.order == v.order && w.max == v.max
      && HeldBytes(v.store) == HeldBytes(w.store) + DataBytes(ts)
    decreases |layers|
  {
    if layers != [] {
      var key := Key(token, layers[0]);
      PromoteKeepsSound(v, key);
      var w := Promote(v, key).1;
      BatchPromoteConserves(w, token, layers[1..]);
      var (ts, _) := BatchPromote(v, token, layers);
      assert ts[1..] == BatchPromote(w, token, layers[1..]).0;
    }
  }

  function Answer<T>(v: Vault<T>, token: nat, layers: seq<nat>, i: nat): Tensor<T>
    requires i < |layers|
  {
    var key := Key(token, layers[i]);
    if key in v.store && layers[i] !in layers[..i] then v.store[key] else Tensor(key, [], 0)
  }

  /** Answers come in request order; only the first request for a held layer gets its data. */
  lemma {:induction false} BatchPromoteAnswers<T>(v: Vault<T>, token: nat, layers: seq<nat>)
    ensures var (ts, w) := BatchPromote(v, token, layers);
      && |ts| == |layers|
      && (forall i :: 0 <= i < |layers| ==> ts[i] == Answer(v, token, layers, i))
      && (forall k :: k in w.store <==> k in v.store && !(k.token == token && k.layer in layers))
      && (forall k :: k in w.store ==> w.store[k] == v.store[k])
    decreases |layers|
  {
    if layers != [] {
      var w := Promote(v, Key(token, layers[0])).1;
      BatchPromoteAnswers(w, token, layers[1..]);
      var (ts, _) := BatchPromote(v, token, layers);
      assert forall i :: 1 <= i < |layers| ==> ts[i] == BatchPromote(w, token, layers[1..]).0[i - 1];
      forall i | 1 <= i < |layers|
        ensures layers[i] in layers[..i] <==> layers[i] == layers[0] || layers[i] in layers[1..][..i - 1]
      {
        assert layers[..i] == [layers[0]] + layers[1..][..i - 1];
      }
    }
  }

  datatype Op<T> =
    | StoreOp(kv: Tensor<T>)
    | PromoteOp(key: Key)
    | BatchOp(token: nat, layers: seq<nat>)
    | FlushOp

  function Act<T>(v: Vault<T>, op: Op<T>): Vault<T> {
    match op
    case StoreOp(kv) => Store(v, kv)
    case PromoteOp(key) => Promote(v, key).1
    case BatchOp(token, layers) => BatchPromote(v, token, layers).1
    case FlushOp => Empty(v.max)
  }

  function Run<T>(max: nat, ops: seq<Op<T>>): Vault<T> {
    if ops == [] then Empty(max) else Act(Run(max, ops[..|ops| - 1]), ops[|ops| - 1])
  }

  /** A key is only stored while it is not held, each key always with the same number of bytes. */
  ghost predicate Disciplined<T>(max: nat, ops: seq<Op<T>>, size: Key -> nat) {
    forall i :: 0 <= i < |ops| && ops[i].StoreOp? ==>
      var v := Run(max, ops[..i]);
      && |ops[i].kv.data| == size(ops[i].kv.key)
      && ops[i].kv.key !in v.store
      && HeldBytes(v.store) + |ops[i].kv.data| < WORD
  }

  /** Every queue entry in a disciplined run carries its key's one size. */
  ghost predicate QueueSizes(order: seq<Entry>, size: Key -> nat) {
    forall i :: 0 <= i < |order| ==> order[i].size == size(order[i].key)
  }

  lemma StoreKeepsQueueSizes<T>(v: Vault<T>, kv: Tensor<T>, size: Key -> nat)
    requires QueueSizes(v.order, size) && |kv.data| == size(kv.key)
    ensures QueueSizes(Store(v, kv).order, size)
  {
    var w, r := Pushed(v, kv), Store(v, kv);
    EvictOrder(w);
    forall i | 0 <= i < |r.order| ensures r.order[i].size == size(r.order[i].key) {
      assert r.order[i] in r.order;
      assert r.order[i] in w.order;
      var j :| 0 <= j < |w.order| && w.order[j] == r.order[i];
    }
  }

  /** In every disciplined run the count is exact, never underflows, and is within the limit. */
  lemma {:induction false} DisciplinedRunsStaySound<T>(max: nat, ops: seq<Op<T>>, size: Key -> nat)
    requires Disciplined(max, ops, size)
    ensures Sound(Run(max, ops)) && Run(max, ops).max == max && QueueSizes(Run(max, ops).order, size)
  {
    if ops != [] {
      var init, op := ops[..|ops| - 1], ops[|ops| - 1];
      forall i | 0 <= i < |init| ensures init[..i] == ops[..i] && init[i] == ops[i] {}
      DisciplinedRunsStaySound(max, init, size);
      var v := Run(max, init);
      match op
      case StoreOp(kv) =>
        assert ops[|ops| - 1].StoreOp? && ops[..|ops| - 1] == init;
        StoreKeepsQueueSizes(v, kv, size);
        StoreStaysSoundIff(v, kv);
        hide Sound, QueueSizes;
        assert StoreAllowed(v, kv) by { StaleSizesMatch(v, kv, size); }
        assert Store(v, kv).max == max by { StoreKeepsMax(v, kv); }
      case PromoteOp(key) => PromoteKeepsSound(v, key);
      case BatchOp(token, layers) => BatchPromoteConserves(v, token, layers);
      case FlushOp =>
    }
  }

  lemma StaleSizesMatch<T>(v: Vault<T>, kv: Tensor<T>, size: Key -> nat)
    requires QueueSizes(v.order, size) && |kv.data| == size(kv.key) && kv.key !in v.store
    ensures StoreAllowed(v, kv)
  {
  }

  lemma {:induction false} EvictKeepsMax<T>(v: Vault<T>)
    ensures Evict(v).max == v.max
    decreases |v.order|
  {
    if v.current > v.max && v.order != [] {
      EvictKeepsMax(Pop(v));
    }
  }

  lemma {:induction false} BatchKeepsMax<T>(v: Vault<T>, token: nat, layers: seq<nat>)
    ensures BatchPromote(v, token, layers).1.max == v.max && BatchPromote(v, token, layers).1.order == v.order
    decreases |layers|
  {
    if layers != [] {
      BatchKeepsMax(Promote(v, Key(token, layers[0])).1, token, layers[1..]);
    }
  }

  lemma StoreKeepsMax<T>(v: Vault<T>, kv: Tensor<T>)
    ensures Store(v, kv).max == v.max
  {
    EvictKeepsMax(Pushed(v, kv));
  }

  /** Storing two bytes twice under one key, then promoting it: nothing is held, two bytes are counted. */
  lemma OverwriteWitness()
    ensures var kv := Tensor(Key(0, 0), [7, 7], 1);
      var v := Run(0, [StoreOp(kv), StoreOp(kv), PromoteOp(kv.key)]);
      v.store == map[] && v.current == 2
  {
    hide Evict, BatchPromote;
    var kv := Tensor(Key(0, 0), [7, 7], 1);
    var store, promote := StoreOp(kv), PromoteOp(kv.key);
    RunStep(0, [], store);
    RunStep(0, [store], store);
    RunStep(0, [store, store], promote);
    assert [] + [store] == [store] && [store] + [store] == [store, store];
    assert [store, store] + [promote] == [store, store, promote];
    hide Run;
    var v1 := Store(Empty(0), kv);
    assert v1.store == map[kv.key := kv] && v1.current == 2;
    var v2 := Store(v1, kv);
    assert v2.store == map[kv.key := kv] && v2.current == 4;
    assert Promote(v2, kv.key).1.store == map[];
  }

  lemma RunStep<T>(max: nat, ops: seq<Op<T>>, op: Op<T>)
    ensures Run(max, ops + [op]) == Act(Run(max, ops), op)
  {
    assert (ops + [op])[..|ops|] == ops;
  }

  // ---- the server ----------------------------------------------------------------------------

  class ColdVault<T> {
    const maxBytes: nat
    var store: map<Key, Tensor<T>>
    var order: seq<Entry>
    var currentBytes: word

    ghost function View(): Vault<T> reads this { Vault(maxBytes, store, order, currentBytes) }

    constructor (maxBytes: nat)
      ensures View() == Empty<T>(maxBytes)
    {
      this.maxBytes := maxBytes;
      store, order, currentBytes := map[], [], 0;
    }

    method StoreTensor(kv: Tensor<T>)
      modifies this
      ensures View() == Store(old(View()), kv)
    {
      var size := |kv.data|;
      store := store[kv.key := kv];
      order := order + [Entry(kv.key, size)];
      currentBytes := Wrap(currentBytes + size);
      if maxBytes > 0 && currentBytes > maxBytes {
        ghost var before := View();
        while currentBytes > maxBytes
          invariant Evict(View()) == Evict(before)
          decreases |order|
        {
          if |order| == 0 {
            break;
          }
          var oldest := order[0];
          order := order[1..];
          if oldest.key in store {
            store := store - {oldest.key};
            currentBytes := Wrap(currentBytes - oldest.size);
          }
        }
      }
    }

    method PromoteTensor(key: Key) returns (found: Option<Tensor<T>>)
      modifies this
      ensures (found, View()) == Promote(old(View()), key)
    {
      if key in store {
        found := Some(store[key]);
        currentBytes := Wrap(currentBytes - |store[key].data|);
        store := store - {key};
      } else {
        found := None;
      }
    }

    method BatchPromoteTensors(token: nat, layers: seq<nat>) returns (tensors: seq<Tensor<T>>)
      modifies this
      ensures (tensors, View()) == BatchPromote(old(View()), token, layers)
    {
      tensors := [];
      for i := 0 to |layers|
        invariant tensors + BatchPromote(View(), token, layers[i..]).0 == BatchPromote(old(View()), token, layers).0
        invariant BatchPromote(View(), token, layers[i..]).1 == BatchPromote(old(View()), token, layers).1
      {
        var key := Key(token, layers[i]);
        var found := PromoteTensor(key);
        assert layers[i..][1..] == layers[i + 1..];
        match found
        case Some(kv) => tensors := tensors + [kv];
        case None => tensors := tensors + [Tensor(key, [], 0)];
      }
      assert layers[|layers|..] == [];
      assert tensors + [] == tensors;
    }

    method Flush() returns (flushed: word)
      modifies this
      ensures View() == Empty<T>(maxBytes) && flushed == old(currentBytes)
    {
      flushed := currentBytes;
      store := map[];
      order := [];
      currentBytes := 0;
    }
  }
}
