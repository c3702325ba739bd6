/**
 * The two-tier cache: a quantising hot tier in front of the EXO cold vault. Evictions travel to the
 * vault as background messages that may be delayed, reordered or lost.
 */
module TieredCache {
  import opened Common
  import opened ExoVault
  import opened HotTier
  import opened TurboQuant

  type Bytes = seq<Byte>
  type HotList = seq<Hot<Bytes>>

  datatype State = State(hot: HotList, flying: seq<Tensor<Byte>>, cold: Vault<Byte>, capacity: nat, dim: nat)

  datatype Event =
    | Insert(key: Key, data: Bytes)
    | Deliver(i: nat)
    | Lose(i: nat)
    | Get(key: Key, coldUp: bool)
    | GetBatch(token: nat, layers: seq<nat>, coldUp: bool)

  /** What the caller sees: `Raised` is an exception. */
  datatype Output =
    | Nothing
    | Raised
    | Data(bytes: Bytes)
    | Batch(found: seq<(nat, Bytes)>)

  /** `rows` floats, filled from the decoding as far as it goes. */
  function Unpack(compressed: Bytes, rows: nat, dim: nat): Option<Bytes>
    requires dim > 0
  {
    match Decode(compressed, dim)
    case Err => None
    case Ok(d) =>
      var n := Min(rows * 4, |d|);
      Some(d[..n] + seq(rows * 4 - n, _ => Raw(0)))
  }

  // ---- single gets ---------------------------------------------------------------------------

  /** A tensor that comes back from the vault: re-inserted hot (its victim is dropped), and decoded. */
  function Promoted(hot: HotList, key: Key, kv: Tensor<Byte>, capacity: nat, dim: nat): (HotList, Bytes)
    requires dim > 0
  {
    if kv.data == [] then (hot, []) else
      (Inserted(hot, Hot(key, kv.data, kv.rows), capacity).0,
       match Unpack(kv.data, kv.rows, dim) case Some(b) => b case None => [])
  }

  function GetStep(s: State, key: Key, coldUp: bool): (State, Output)
    requires s.dim > 0
  {
    match Find(s.hot, key)
    case Some(h) =>
      (s.(hot := Touched(s.hot, key)),
       match Unpack(h.data, h.dim, s.dim) case Some(b) => Data(b) case None => Raised)
    case None =>
      if !coldUp then (s, Data([])) else
        var (found, cold) := Promote(s.cold, key);
        match found
        case None => (s, Data([]))
        case Some(kv) =>
          var (hot, bytes) := Promoted(s.hot, key, kv, s.capacity, s.dim);
          (s.(hot := hot, cold := cold), Data(bytes))
  }

  // ---- batch gets ----------------------------------------------------------------------------

  /** The first loop: hot layers are decoded at once, the others are collected; a decoding error ends it. */
  datatype Pass = Pass(hot: HotList, found: seq<(nat, Bytes)>, misses: seq<nat>, raised: bool)

  function HotPass(hot: HotList, token: nat, layers: seq<nat>, dim: nat): Pass
    requires dim > 0
  {
    if layers == [] then Pass(hot, [], [], false) else
      var p := HotPass(hot, token, layers[..|layers| - 1], dim);
      if p.raised then p else HotLayer(p, token, layers[|layers| - 1], dim)
  }

  function HotLayer(p: Pass, token: nat, layer: nat, dim: nat): Pass
    requires dim > 0
  {
    var key := Key(token, layer);
    match Find(p.hot, key)
    case None => p.(misses := p.misses + [layer])
    case Some(h) =>
      var q := p.(hot := Touched(p.hot, key));
      match Unpack(h.data, h.dim, dim)
      case None => q.(raised := true)
      case Some(b) => q.(found := p.found + [(layer, b)])
  }

  /** The second loop: promoted tensors are re-inserted one after the other. */
  function ColdPass(hot: HotList, token: nat, tensors: seq<Tensor<Byte>>, capacity: nat, dim: nat)
    : (HotList, seq<(nat, Bytes)>)
    requires dim > 0
  {
    if tensors == [] then (hot, []) else
      var (h, found) := ColdPass(hot, token, tensors[..|tensors| - 1], capacity, dim);
      var kv := tensors[|tensors| - 1];
      var (h', bytes) := Promoted(h, Key(token, kv.key.layer), kv, capacity, dim);
      (h', found + [(kv.key.layer, bytes)])
  }

  function InsertByLayer(l: seq<(nat, Bytes)>, x: (nat, Bytes)): seq<(nat, Bytes)> {
    if l == [] || l[|l| - 1].0 <= x.0 then l + [x] else InsertByLayer(l[..|l| - 1], x) + [l[|l| - 1]]
  }

  function SortByLayer(l: seq<(nat, Bytes)>): seq<(nat, Bytes)> {
    if l == [] then [] else InsertByLayer(SortByLayer(l[..|l| - 1]), l[|l| - 1])
  }

  function GetBatchStep(s: State, token: nat, layers: seq<nat>, coldUp: bool): (State, Output)
    requires s.dim > 0
  {
    var p := HotPass(s.hot, token, layers, s.dim);
    if p.raised then (s.(hot := p.hot), Raised)
    else if p.misses == [] || !coldUp then (s.(hot := p.hot), Batch(SortByLayer(p.found)))
    else
      var (tensors, cold) := BatchPromote(s.cold, token, p.misses);
      var (hot, found) := ColdPass(p.hot, token, tensors, s.capacity, s.dim);
      (s.(hot := hot, cold := cold), Batch(SortByLayer(p.found + found)))
  }

  // ---- the whole cache -----------------------------------------------------------------------

  function InsertStep(s: State, key: Key, data: Bytes): (State, Output)
    requires s.dim > 0
  {
    match Encode(data, s.dim)
    case Err => (s, Raised)
    case Ok(compressed) =>
      var (hot, evicted) := Inserted(s.hot, Hot(key, compressed, |data| / 4), s.capacity);
      match evicted
      case None => (s.(hot := hot), Nothing)
      case Some(h) => (s.(hot := hot, flying := s.flying + [Tensor(h.key, h.data, h.dim)]), Nothing)
  }

  function Step(s: State, e: Event): (State, Output)
    requires s.dim > 0
  {
    match e
    case Insert(key, data) => InsertStep(s, key, data)
    case Deliver(i) =>
      if i >= |s.flying| then (s, Nothing) else
        (s.(flying := s.flying[..i] + s.flying[i + 1..], cold := Store(s.cold, s.flying[i])), Nothing)
    case Lose(i) =>
      if i >= |s.flying| then (s, Nothing) else (s.(flying := s.flying[..i] + s.flying[i + 1..]), Nothing)
    case Get(key, coldUp) => GetStep(s, key, coldUp)
    case GetBatch(token, layers, coldUp) => GetBatchStep(s, token, layers, coldUp)
  }

  function Init(capacity: nat, max: nat, dim: nat): State { State([], [], Empty(max), capacity, dim) }

  function Run(capacity: nat, max: nat, dim: nat, events: seq<Event>): (s: State)
    requires dim > 0
    ensures s.dim == dim
  {
    if events == [] then Init(capacity, max, dim)
    else Step(Run(capacity, max, dim, events[..|events| - 1]), events[|events| - 1]).0
  }

  // ---- agreement -----------------------------------------------------------------------------

  /** A value that can be stored: whole floats in whole groups, at least one. */
  predicate Storable(data: Bytes, dim: nat) {
    dim > 0 && data != [] && |data| % 4 == 0 && |data| / 4 % dim == 0
  }

  function Packed(data: Bytes, dim: nat): Bytes
    requires Storable(data, dim)
  {
    Encode(data, dim).value
  }

  /** What a caller may ever get back for a key inserted with `data`. */
  function RoundTripped(data: Bytes, dim: nat): Bytes
    requires Storable(data, dim)
  {
    EncodeIsProjection(data, dim);
    Decode(Encode(data, dim).value, dim).value
  }

  lemma UnpackPacked(data: Bytes, dim: nat)
    requires Storable(data, dim)
    ensures Packed(data, dim) != []
    ensures Unpack(Packed(data, dim), |data| / 4, dim) == Some(RoundTripped(data, dim))
  {
    EncodeIsProjection(data, dim);
    hide Encode, Decode, F32ToBytes;
    NothingDecodes(dim);
    UnpackWhole(Packed(data, dim), RoundTripped(data, dim), |data| / 4, dim);
  }

  lemma NothingDecodes(dim: nat)
    requires dim > 0
    ensures Decode([], dim).Err?
  {
  }

  lemma UnpackWhole(compressed: Bytes, d: Bytes, rows: nat, dim: nat)
    requires dim > 0 && Decode(compressed, dim) == Ok(d) && |d| == 4 * rows
    ensures Unpack(compressed, rows, dim) == Some(d)
  {
    hide Decode;
    assert d[..|d|] + seq(0, _ => Raw(0)) == d;
  }

  ghost predicate AllStorable(val: Key -> Bytes, dim: nat) { dim > 0 && forall k :: Storable(val(k), dim) }

  ghost predicate IsPacked(val: Key -> Bytes, dim: nat, k: Key, data: Bytes, rows: nat)
    requires AllStorable(val, dim)
  {
    data == Packed(val(k), dim) && rows == |val(k)| / 4
  }

  ghost predicate HotAgrees(hot: HotList, val: Key -> Bytes, dim: nat)
    requires AllStorable(val, dim)
  {
    forall h :: h in hot ==> IsPacked(val, dim, h.key, h.data, h.dim)
  }

  ghost predicate TensorAgrees(kv: Tensor<Byte>, val: Key -> Bytes, dim: nat)
    requires AllStorable(val, dim)
  {
    IsPacked(val, dim, kv.key, kv.data, kv.rows)
  }

  ghost predicate ColdAgrees(store: map<Key, Tensor<Byte>>, val: Key -> Bytes, dim: nat)
    requires AllStorable(val, dim)
  {
    forall k :: k in store ==> store[k].key == k && TensorAgrees(store[k], val, dim)
  }

  /** Whatever is held anywhere under a key is the packing of that key's value. */
  ghost predicate Agreeing(s: State, val: Key -> Bytes)
    requires AllStorable(val, s.dim)
  {
    && UniqueKeys(s.hot) && |s.hot| <= s.capacity
    && HotAgrees(s.hot, val, s.dim)
    && (forall kv :: kv in s.flying ==> TensorAgrees(kv, val, s.dim))
    && ColdAgrees(s.cold.store, val, s.dim)
  }

  /** Non-empty answers are the round trip of the key's value. */
  ghost predicate AnswerAgrees(bytes: Bytes, k: Key, val: Key -> Bytes, dim: nat)
    requires AllStorable(val, dim)
  {
    bytes == [] || bytes == RoundTripped(val(k), dim)
  }

  lemma {:induction false} EvictKeepsValues<T>(v: Vault<T>)
    ensures forall k :: k in Evict(v).store ==> k in v.store && Evict(v).store[k] == v.store[k]
    decreases |v.order|
  {
    if v.current > v.max && v.order != [] {
      var e := v.order[0];
      if e.key in v.store {
        EvictKeepsValues(Vault(v.max, v.store - {e.key}, v.order[1..], Wrap(v.current - e.size)));
      } else {
        EvictKeepsValues(v.(order := v.order[1..]));
      }
    }
  }

  lemma PromotedAgrees(hot: HotList, key: Key, kv: Tensor<Byte>, capacity: nat, dim: nat, val: Key -> Bytes)
    requires AllStorable(val, dim) && HotAgrees(hot, val, dim) && UniqueKeys(hot) && |hot| <= capacity
    requires kv.data != [] ==> IsPacked(val, dim, key, kv.data, kv.rows)
    ensures var (h, bytes) := Promoted(hot, key, kv, capacity, dim);
      && HotAgrees(h, val, dim) && UniqueKeys(h) && |h| <= capacity
      && AnswerAgrees(bytes, key, val, dim)
  {
    if kv.data != [] {
      InsertedFacts(hot, Hot(key, kv.data, kv.rows), capacity);
      UnpackPacked(val(key), dim);
    }
  }

  lemma GetAgrees(s: State, key: Key, coldUp: bool, val: Key -> Bytes)
    requires AllStorable(val, s.dim) && Agreeing(s, val)
    ensures var (s', out) := GetStep(s, key, coldUp);
      Agreeing(s', val) && out.Data? && AnswerAgrees(out.bytes, key, val, s.dim)
      && s'.dim == s.dim
  {
    FindFacts(s.hot, key);
    TouchedFacts(s.hot, key);
    match Find(s.hot, key)
    case Some(h) => UnpackPacked(val(key), s.dim);
    case None =>
      if coldUp && key in s.cold.store {
        PromotedAgrees(s.hot, key, s.cold.store[key], s.capacity, s.dim, val);
      }
  }

  ghost predicate FoundAgrees(found: seq<(nat, Bytes)>, token: nat, val: Key -> Bytes, dim: nat)
    requires AllStorable(val, dim)
  {
    forall x :: x in found ==> AnswerAgrees(x.1, Key(token, x.0), val, dim)
  }

  lemma {:induction false} HotPassAgrees(hot: HotList, token: nat, layers: seq<nat>, capacity: nat, dim: nat, val: Key -> Bytes)
    requires AllStorable(val, dim) && HotAgrees(hot, val, dim) && UniqueKeys(hot) && |hot| <= capacity
    ensures var p := HotPass(hot, token, layers, dim);
      && HotAgrees(p.hot, val, dim) && UniqueKeys(p.hot) && |p.hot| <= capacity
      && !p.raised && FoundAgrees(p.found, token, val, dim)
  {
    if layers != [] {
      var layer := layers[|layers| - 1];
      HotPassAgrees(hot, token, layers[..|layers| - 1], capacity, dim, val);
      var p := HotPass(hot, token, layers[..|layers| - 1], dim);
      var key := Key(token, layer);
      FindFacts(p.hot, key);
      TouchedFacts(p.hot, key);
      UnpackPacked(val(key), dim);
      hide Unpack, Storable, Packed, RoundTripped;
    }
  }

  lemma {:induction false} ColdPassAgrees(hot: HotList, token: nat, tensors: seq<Tensor<Byte>>, capacity: nat, dim: nat, val: Key -> Bytes)
    requires AllStorable(val, dim) && HotAgrees(hot, val, dim) && UniqueKeys(hot) && |hot| <= capacity
    requires forall kv :: kv in tensors && kv.data != [] ==> kv.key.token == token && TensorAgrees(kv, val, dim)
    ensures var (h, found) := ColdPass(hot, token, tensors, capacity, dim);
      && HotAgrees(h, val, dim) && UniqueKeys(h) && |h| <= capacity
      && FoundAgrees(found, token, val, dim)
  {
    if tensors != [] {
      var n := |tensors| - 1;
      ColdPassAgrees(hot, token, tensors[..n], capacity, dim, val);
      var (h, found) := ColdPass(hot, token, tensors[..n], capacity, dim);
      var kv := tensors[n];
      assert kv in tensors;
      assert kv.data != [] ==> kv.key == Key(token, kv.key.layer);
      PromotedAgrees(h, Key(token, kv.key.layer), kv, capacity, dim, val);
    }
  }

  lemma {:induction false} InsertByLayerFacts(l: seq<(nat, Bytes)>, x: (nat, Bytes))
    requires SortedByLayer(l)
    ensures SortedByLayer(InsertByLayer(l, x)) && multiset(InsertByLayer(l, x)) == multiset(l) + multiset{x}
  {
    if l != [] && l[|l| - 1].0 > x.0 {
      var init, last := l[..|l| - 1], l[|l| - 1];
      InsertByLayerFacts(init, x);
      var r := InsertByLayer(init, x);
      assert l == init + [last];
      forall i | 0 <= i < |r| ensures r[i].0 <= last.0 {
        assert r[i] in multiset(r);
        assert r[i] in multiset(init) || r[i] == x;
        if r[i] in multiset(init) {
          assert r[i] in init;
        }
      }
    }
  }

  ghost predicate SortedByLayer(l: seq<(nat, Bytes)>) {
    forall i, j :: 0 <= i < j < |l| ==> l[i].0 <= l[j].0
  }

  /** The entries of one layer, in order. */
  function OfLayer(l: seq<(nat, Bytes)>, layer: nat): seq<(nat, Bytes)> {
    if l == [] then [] else
      OfLayer(l[..|l| - 1], layer) + if l[|l| - 1].0 == layer then [l[|l| - 1]] else []
  }

  lemma OfLayerAppend(l: seq<(nat, Bytes)>, x: (nat, Bytes), layer: nat)
    ensures OfLayer(l + [x], layer) == OfLayer(l, layer) + if x.0 == layer then [x] else []
  {
    assert (l + [x])[..|l|] == l;
  }

  lemma {:induction false} InsertByLayerIsStable(l: seq<(nat, Bytes)>, x: (nat, Bytes), layer: nat)
    ensures OfLayer(InsertByLayer(l, x), layer) == OfLayer(l, layer) + if x.0 == layer then [x] else []
  {
    if l == [] || l[|l| - 1].0 <= x.0 {
      OfLayerAppend(l, x, layer);
    } else {
      var init, last := l[..|l| - 1], l[|l| - 1];
      InsertByLayerIsStable(init, x, layer);
      OfLayerAppend(InsertByLayer(init, x), last, layer);
    }
  }

  /** Entries of one layer keep their order. */
  lemma {:induction false} SortByLayerIsStable(l: seq<(nat, Bytes)>, layer: nat)
    ensures OfLayer(SortByLayer(l), layer) == OfLayer(l, layer)
  {
    if l != [] {
      SortByLayerIsStable(l[..|l| - 1], layer);
      InsertByLayerIsStable(SortByLayer(l[..|l| - 1]), l[|l| - 1], layer);
    }
  }

  /** The batch answer is sorted by layer and loses nothing in sorting. */
  lemma {:induction false} SortByLayerFacts(l: seq<(nat, Bytes)>)
    ensures SortedByLayer(SortByLayer(l)) && multiset(SortByLayer(l)) == multiset(l)
    ensures forall x :: x in SortByLayer(l) <==> x in l
  {
    if l != [] {
      var init, last := l[..|l| - 1], l[|l| - 1];
      SortByLayerFacts(init);
      InsertByLayerFacts(SortByLayer(init), last);
      assert l == init + [last];
    }
    forall x ensures x in SortByLayer(l) <==> x in l {
      assert x in SortByLayer(l) <==> x in multiset(SortByLayer(l));
      assert x in l <==> x in multiset(l);
    }
  }

  ghost predicate OutputAgrees(e: Event, out: Output, val: Key -> Bytes, dim: nat)
    requires AllStorable(val, dim)
  {
    match e
    case Get(key, _) => out.Data? && AnswerAgrees(out.bytes, key, val, dim)
    case GetBatch(token, _, _) => out.Batch? && SortedByLayer(out.found) && FoundAgrees(out.found, token, val, dim)
    case _ => out.Nothing?
  }

  lemma GetBatchAgrees(s: State, token: nat, layers: seq<nat>, coldUp: bool, val: Key -> Bytes)
    requires AllStorable(val, s.dim) && Agreeing(s, val)
    ensures var (s', out) := GetBatchStep(s, token, layers, coldUp);
      s'.dim == s.dim && Agreeing(s', val) && out.Batch? && SortedByLayer(out.found) && FoundAgrees(out.found, token, val, s.dim)
  {
    hide IsPacked, AnswerAgrees, Unpack, Promoted;
    HotPassAgrees(s.hot, token, layers, s.capacity, s.dim, val);
    var p := HotPass(s.hot, token, layers, s.dim);
    if p.misses == [] || !coldUp {
      SortByLayerFacts(p.found);
    } else {
      var (tensors, cold) := BatchPromote(s.cold, token, p.misses);
      BatchAgrees(s.cold, token, p.misses, val, s.dim);
      ColdPassAgrees(p.hot, token, tensors, s.capacity, s.dim, val);
      var found := ColdPass(p.hot, token, tensors, s.capacity, s.dim).1;
      SortByLayerFacts(p.found + found);
    }
  }

  lemma BatchAgrees(cold: Vault<Byte>, token: nat, layers: seq<nat>, val: Key -> Bytes, dim: nat)
    requires AllStorable(val, dim) && ColdAgrees(cold.store, val, dim)
    ensures var (tensors, cold') := BatchPromote(cold, token, layers);
      && ColdAgrees(cold'.store, val, dim)
      && forall kv :: kv in tensors && kv.data != [] ==> kv.key.token == token && TensorAgrees(kv, val, dim)
  {
    BatchPromoteAnswers(cold, token, layers);
    hide BatchPromote;
    var (tensors, cold') := BatchPromote(cold, token, layers);
    forall kv | kv in tensors && kv.data != [] ensures kv.key.token == token && TensorAgrees(kv, val, dim) {
      var i :| 0 <= i < |tensors| && tensors[i] == kv;
      assert kv == Answer(cold, token, layers, i);
    }
  }

  lemma InsertAgrees(s: State, key: Key, val: Key -> Bytes)
    requires AllStorable(val, s.dim) && Agreeing(s, val)
    ensures var (s', out) := InsertStep(s, key, val(key));
      s'.dim == s.dim && Agreeing(s', val) && out.Nothing?
  {
    EncodeIsProjection(val(key), s.dim);
    hide Encode, Decode, Inserted, UniqueKeys, HotAgrees, ColdAgrees;
    InsertedAgrees(s.hot, Hot(key, Packed(val(key), s.dim), |val(key)| / 4), s.capacity, val, s.dim);
  }

  lemma InsertedAgrees(hot: HotList, h: Hot<Bytes>, capacity: nat, val: Key -> Bytes, dim: nat)
    requires AllStorable(val, dim) && HotAgrees(hot, val, dim) && IsPacked(val, dim, h.key, h.data, h.dim)
    requires UniqueKeys(hot) && |hot| <= capacity
    ensures var (r, out) := Inserted(hot, h, capacity);
      && HotAgrees(r, val, dim) && UniqueKeys(r) && |r| <= capacity
      && (out.Some? ==> IsPacked(val, dim, out.value.key, out.value.data, out.value.dim))
  {
    InsertedFacts(hot, h, capacity);
    hide Inserted, UniqueKeys, IsPacked;
  }

  lemma DeliverAgrees(s: State, i: nat, val: Key -> Bytes)
    requires AllStorable(val, s.dim) && Agreeing(s, val) && i < |s.flying|
    ensures Agreeing(Step(s, Deliver(i)).0, val) && Agreeing(Step(s, Lose(i)).0, val)
  {
    hide IsPacked, Evict, UniqueKeys, HotAgrees, ColdAgrees, Pushed;
    StoreAgrees(s.cold, s.flying[i], val, s.dim);
  }

  lemma StoreAgrees(cold: Vault<Byte>, kv: Tensor<Byte>, val: Key -> Bytes, dim: nat)
    requires AllStorable(val, dim) && ColdAgrees(cold.store, val, dim) && TensorAgrees(kv, val, dim)
    ensures ColdAgrees(Store(cold, kv).store, val, dim)
  {
    EvictKeepsValues(Pushed(cold, kv));
    hide IsPacked, Evict;
  }

  /** Messages delayed, reordered or lost, vault full or down: no step hands out, or keeps, anything else. */
  lemma StepAgrees(s: State, e: Event, val: Key -> Bytes)
    requires AllStorable(val, s.dim) && Agreeing(s, val)
    requires e.Insert? ==> e.data == val(e.key)
    ensures var (s', out) := Step(s, e); s'.dim == s.dim && Agreeing(s', val) && OutputAgrees(e, out, val, s.dim)
  {
    hide Agreeing, AnswerAgrees, FoundAgrees, GetStep, GetBatchStep, InsertStep, Store;
    match e
    case Insert(key, data) => InsertAgrees(s, key, val);
    case Deliver(i) => if i < |s.flying| { DeliverAgrees(s, i, val); }
    case Lose(i) => if i < |s.flying| { DeliverAgrees(s, i, val); }
    case Get(key, coldUp) => GetAgrees(s, key, coldUp, val);
    case GetBatch(token, layers, coldUp) => GetBatchAgrees(s, token, layers, coldUp, val);
  }

  /** If every key is only ever inserted with one value, then in any run any data returned is that value's round trip. */
  lemma {:induction false} RunsAgree(capacity: nat, max: nat, dim: nat, events: seq<Event>, val: Key -> Bytes, e: Event)
    requires AllStorable(val, dim)
    requires forall x :: x in events + [e] && x.Insert? ==> x.data == val(x.key)
    ensures var s := Run(capacity, max, dim, events);
      Agreeing(s, val) && OutputAgrees(e, Step(s, e).1, val, dim)
  {
    hide Agreeing, OutputAgrees, Step;
    var s := Run(capacity, max, dim, events);
    if events == [] {
      InitAgrees(capacity, max, dim, val);
    } else {
      var init, last := events[..|events| - 1], events[|events| - 1];
      assert forall x :: x in init + [last] ==> x in events + [e];
      RunsAgree(capacity, max, dim, init, val, last);
      StepAgrees(Run(capacity, max, dim, init), last, val);
    }
    assert e in events + [e];
    StepAgrees(s, e, val);
  }

  lemma InitAgrees(capacity: nat, max: nat, dim: nat, val: Key -> Bytes)
    requires AllStorable(val, dim)
    ensures Agreeing(Init(capacity, max, dim), val)
  {
  }

  // ---- conservation --------------------------------------------------------------------------

  ghost function HotKeys(hot: HotList): set<Key> { set h | h in hot :: h.key }

  /** Every key some tier still has, or that is on its way to the vault. */
  ghost function AllKeys(s: State): set<Key> {
    HotKeys(s.hot) + (set kv | kv in s.flying :: kv.key) + s.cold.store.Keys
  }

  /** The hot entry a promotion of `kv` pushes out; nothing ships it to the vault. */
  function Victim(hot: HotList, key: Key, kv: Tensor<Byte>, capacity: nat): seq<Key> {
    if kv.data == [] then [] else
      match Inserted(hot, Hot(key, kv.data, kv.rows), capacity).1
      case None => []
      case Some(h) => [h.key]
  }

  function BatchVictims(hot: HotList, token: nat, tensors: seq<Tensor<Byte>>, capacity: nat, dim: nat): seq<Key>
    requires dim > 0
  {
    if tensors == [] then [] else
      var init, kv := tensors[..|tensors| - 1], tensors[|tensors| - 1];
      BatchVictims(hot, token, init, capacity, dim)
        + Victim(ColdPass(hot, token, init, capacity, dim).0, Key(token, kv.key.layer), kv, capacity)
  }

  ghost function Elements(ks: seq<Key>): set<Key> { set k | k in ks }

  /** The keys a step may drop: at most one hot entry for each promoted tensor. */
  function Victims(s: State, e: Event): seq<Key>
    requires s.dim > 0
  {
    match e
    case Get(key, coldUp) =>
      if Find(s.hot, key).Some? || !coldUp || key !in s.cold.store then []
      else Victim(s.hot, key, s.cold.store[key], s.capacity)
    case GetBatch(token, layers, coldUp) =>
      var p := HotPass(s.hot, token, layers, s.dim);
      if p.raised || p.misses == [] || !coldUp then []
      else BatchVictims(p.hot, token, BatchPromote(s.cold, token, p.misses).0, s.capacity, s.dim)
    case _ => []
  }

  /** How many tensors the step brings back from the vault. */
  function Promotions(ts: seq<Tensor<Byte>>): nat {
    if ts == [] then 0 else Promotions(ts[..|ts| - 1]) + if ts[|ts| - 1].data == [] then 0 else 1
  }

  lemma {:induction false} VictimsAreFew(hot: HotList, token: nat, tensors: seq<Tensor<Byte>>, capacity: nat, dim: nat)
    requires dim > 0
    ensures |BatchVictims(hot, token, tensors, capacity, dim)| <= Promotions(tensors)
  {
    if tensors != [] {
      VictimsAreFew(hot, token, tensors[..|tensors| - 1], capacity, dim);
    }
  }

  lemma InsertedKeys(hot: HotList, h: Hot<Bytes>, capacity: nat)
    requires UniqueKeys(hot) && |hot| <= capacity
    ensures var (r, out) := Inserted(hot, h, capacity);
      HotKeys(hot) + {h.key} <= HotKeys(r) + (if out.Some? then {out.value.key} else {})
  {
    InsertedFacts(hot, h, capacity);
    var (r, out) := Inserted(hot, h, capacity);
    hide Inserted;
    forall k | k in HotKeys(hot) && k != h.key ensures k in HotKeys(r) || (out.Some? && out.value.key == k) {
      var x :| x in hot && x.key == k;
      assert x in r || out == Some(x);
    }
    assert h in r || out == Some(h);
  }

  lemma TouchedKeys(hot: HotList, k: Key)
    requires UniqueKeys(hot)
    ensures HotKeys(Touched(hot, k)) == HotKeys(hot)
  {
    TouchedFacts(hot, k);
  }

  lemma {:induction false} HotPassKeys(hot: HotList, token: nat, layers: seq<nat>, capacity: nat, dim: nat)
    requires dim > 0 && UniqueKeys(hot) && |hot| <= capacity
    ensures var p := HotPass(hot, token, layers, dim);
      HotKeys(p.hot) == HotKeys(hot) && UniqueKeys(p.hot) && |p.hot| <= capacity
  {
    if layers != [] {
      var init, layer := layers[..|layers| - 1], layers[|layers| - 1];
      HotPassKeys(hot, token, init, capacity, dim);
      var p := HotPass(hot, token, init, dim);
      hide Unpack, HotKeys;
      TouchedKeys(p.hot, Key(token, layer));
      TouchedFacts(p.hot, Key(token, layer));
    }
  }

  /** The keys of the tensors that actually carry data. */
  ghost function CarriedKeys(token: nat, tensors: seq<Tensor<Byte>>): set<Key> {
    set kv | kv in tensors && kv.data != [] :: Key(token, kv.key.layer)
  }

  lemma {:induction false} ColdPassKeys(hot: HotList, token: nat, tensors: seq<Tensor<Byte>>, capacity: nat, dim: nat)
    requires dim > 0 && UniqueKeys(hot) && |hot| <= capacity
    ensures var h := ColdPass(hot, token, tensors, capacity, dim).0;
      && UniqueKeys(h) && |h| <= capacity
      && HotKeys(hot) + CarriedKeys(token, tensors)
         <= HotKeys(h) + Elements(BatchVictims(hot, token, tensors, capacity, dim))
  {
    hide Inserted, HotKeys, CarriedKeys, UniqueKeys, Unpack, Elements, Victim, Promoted;
    if tensors == [] {
      NothingCarried(token);
    } else {
      var init, kv := tensors[..|tensors| - 1], tensors[|tensors| - 1];
      ColdPassKeys(hot, token, init, capacity, dim);
      var h, vs := ColdPass(hot, token, init, capacity, dim).0, BatchVictims(hot, token, init, capacity, dim);
      var key := Key(token, kv.key.layer);
      assert tensors == init + [kv];
      CarriedSplit(token, init, kv);
      ElementsAppend(vs, Victim(h, key, kv, capacity));
      PromotedKeys(h, key, kv, capacity, dim);
    }
  }

  lemma NothingCarried(token: nat)
    ensures CarriedKeys(token, []) == {}
  {
  }

  /** Promoting one tensor: its key is held afterwards, and at most the victim's is lost. */
  lemma PromotedKeys(hot: HotList, key: Key, kv: Tensor<Byte>, capacity: nat, dim: nat)
    requires dim > 0 && UniqueKeys(hot) && |hot| <= capacity
    ensures var r := Promoted(hot, key, kv, capacity, dim).0;
      && UniqueKeys(r) && |r| <= capacity
      && HotKeys(hot) + (if kv.data == [] then {} else {key}) <= HotKeys(r) + Elements(Victim(hot, key, kv, capacity))
  {
    hide Inserted, HotKeys, UniqueKeys, Unpack;
    if kv.data != [] {
      InsertedKeys(hot, Hot(key, kv.data, kv.rows), capacity);
      InsertedFacts(hot, Hot(key, kv.data, kv.rows), capacity);
    }
  }

  lemma ElementsAppend(a: seq<Key>, b: seq<Key>)
    ensures Elements(a + b) == Elements(a) + Elements(b)
    ensures |b| == 1 ==> Elements(b) == {b[0]}
  {
  }

  lemma CarriedSplit(token: nat, init: seq<Tensor<Byte>>, kv: Tensor<Byte>)
    ensures CarriedKeys(token, init + [kv]) ==
      CarriedKeys(token, init) + if kv.data == [] then {} else {Key(token, kv.key.layer)}
  {
    assert forall x :: x in init + [kv] <==> x in init || x == kv;
  }

  /** Nothing is lost without a reason: delivery is lossless, the vault has no limit, and only promotions drop hot entries. */
  lemma StepConserves(s: State, e: Event, val: Key -> Bytes)
    requires AllStorable(val, s.dim) && Agreeing(s, val) && s.cold.max == 0 && !e.Lose?
    ensures AllKeys(s) <= AllKeys(Step(s, e).0) + Elements(Victims(s, e))
    ensures e.Get? ==> |Victims(s, e)| <= 1
    ensures e.GetBatch? && Victims(s, e) != [] ==>
      |Victims(s, e)| <= Promotions(BatchPromote(s.cold, e.token, HotPass(s.hot, e.token, e.layers, s.dim).misses).0)
  {
    match e
    case Insert(key, data) => InsertConserves(s, key, data);
    case Deliver(i) =>
      if i < |s.flying| {
        DeliverConserves(s, i);
      }
    case Get(key, coldUp) => GetConserves(s, key, coldUp);
    case GetBatch(token, layers, coldUp) => GetBatchConserves(s, token, layers, coldUp, val);
  }

  lemma InsertConserves(s: State, key: Key, data: Bytes)
    requires s.dim > 0 && UniqueKeys(s.hot) && |s.hot| <= s.capacity
    ensures AllKeys(s) <= AllKeys(InsertStep(s, key, data).0)
    ensures Encode(data, s.dim).Ok? ==> key in AllKeys(InsertStep(s, key, data).0)
  {
    hide Encode, Inserted;
    if Encode(data, s.dim).Ok? {
      var h := Hot(key, Encode(data, s.dim).value, |data| / 4);
      InsertedKeys(s.hot, h, s.capacity);
      var (r, out) := Inserted(s.hot, h, s.capacity);
      var s' := InsertStep(s, key, data).0;
      if out.Some? {
        assert s'.flying[|s.flying|] in s'.flying;
        assert forall kv :: kv in s.flying ==> kv in s'.flying;
      }
    }
  }

  lemma DeliverConserves(s: State, i: nat)
    requires s.dim > 0 && s.cold.max == 0 && i < |s.flying|
    ensures AllKeys(s) <= AllKeys(Step(s, Deliver(i)).0)
  {
    var s' := Step(s, Deliver(i)).0;
    forall kv | kv in s.flying ensures kv in s'.flying || kv == s.flying[i] {
      var j :| 0 <= j < |s.flying| && s.flying[j] == kv;
      if j < i {
        assert s'.flying[j] == kv;
      } else if j > i {
        assert s'.flying[j - 1] == kv;
      }
    }
  }

  lemma GetConserves(s: State, key: Key, coldUp: bool)
    requires s.dim > 0 && UniqueKeys(s.hot) && |s.hot| <= s.capacity
    requires forall k :: k in s.cold.store ==> s.cold.store[k].data != []
    ensures AllKeys(s) <= AllKeys(GetStep(s, key, coldUp).0) + Elements(Victims(s, Get(key, coldUp)))
  {
    TouchedKeys(s.hot, key);
    if Find(s.hot, key).None? && coldUp && key in s.cold.store {
      var kv := s.cold.store[key];
      InsertedKeys(s.hot, Hot(key, kv.data, kv.rows), s.capacity);
      hide Inserted, Unpack;
    }
  }

  lemma GetBatchConserves(s: State, token: nat, layers: seq<nat>, coldUp: bool, val: Key -> Bytes)
    requires AllStorable(val, s.dim) && Agreeing(s, val)
    ensures AllKeys(s) <= AllKeys(GetBatchStep(s, token, layers, coldUp).0) + Elements(Victims(s, GetBatch(token, layers, coldUp)))
    ensures Victims(s, GetBatch(token, layers, coldUp)) != [] ==>
      |Victims(s, GetBatch(token, layers, coldUp))| <= Promotions(BatchPromote(s.cold, token, HotPass(s.hot, token, layers, s.dim).misses).0)
  {
    hide HotPass, ColdPass, BatchPromote, BatchVictims, HotKeys, CarriedKeys, SortByLayer, HotAgrees, ColdAgrees, Promotions;
    HotPassKeys(s.hot, token, layers, s.capacity, s.dim);
    var p := HotPass(s.hot, token, layers, s.dim);
    if !p.raised && p.misses != [] && coldUp {
      BatchConserves(s, p, token, val);
    }
  }

  lemma BatchConserves(s: State, p: Pass, token: nat, val: Key -> Bytes)
    requires AllStorable(val, s.dim) && ColdAgrees(s.cold.store, val, s.dim)
    requires UniqueKeys(p.hot) && |p.hot| <= s.capacity
    ensures var (tensors, cold) := BatchPromote(s.cold, token, p.misses);
      var victims := BatchVictims(p.hot, token, tensors, s.capacity, s.dim);
      && |victims| <= Promotions(tensors)
      && HotKeys(p.hot) + s.cold.store.Keys
         <= HotKeys(ColdPass(p.hot, token, tensors, s.capacity, s.dim).0) + cold.store.Keys + Elements(victims)
  {
    hide ColdPass, BatchPromote, BatchVictims, HotKeys, CarriedKeys;
    var tensors := BatchPromote(s.cold, token, p.misses).0;
    VictimsAreFew(p.hot, token, tensors, s.capacity, s.dim);
    ColdPassKeys(p.hot, token, tensors, s.capacity, s.dim);
    PromotedKeysCarried(s.cold, token, p.misses, val, s.dim);
  }

  /** What batch promotion takes out of the vault, it hands over with data. */
  lemma PromotedKeysCarried(cold: Vault<Byte>, token: nat, layers: seq<nat>, val: Key -> Bytes, dim: nat)
    requires AllStorable(val, dim) && ColdAgrees(cold.store, val, dim)
    ensures var (tensors, cold') := BatchPromote(cold, token, layers);
      cold.store.Keys <= cold'.store.Keys + CarriedKeys(token, tensors)
  {
    BatchPromoteAnswers(cold, token, layers);
    hide BatchPromote;
    var (tensors, cold') := BatchPromote(cold, token, layers);
    forall k | k in cold.store && k !in cold'.store ensures k in CarriedKeys(token, tensors) {
      var i := FirstIndex(layers, k.layer);
      assert tensors[i] == Answer(cold, token, layers, i);
      assert tensors[i] == cold.store[k];
      UnpackPacked(val(k), dim);
      assert tensors[i] in tensors;
    }
  }

  lemma FirstIndex(layers: seq<nat>, layer: nat) returns (i: nat)
    requires layer in layers
    ensures i < |layers| && layers[i] == layer && layer !in layers[..i]
  {
    i := 0;
    while layers[i] != layer
      invariant i < |layers| && layer !in layers[..i]
      decreases |layers| - i
    {
      i := i + 1;
    }
  }

  lemma StepKeepsConfig(s: State, e: Event)
    requires s.dim > 0
    ensures var s' := Step(s, e).0; s'.cold.max == s.cold.max && s'.capacity == s.capacity && s'.dim == s.dim
  {
    hide Encode, Unpack, HotPass, ColdPass, Evict, BatchPromote, Inserted, SortByLayer;
    match e
    case Insert(key, data) =>
    case Deliver(i) => if i < |s.flying| { StoreKeepsMax(s.cold, s.flying[i]); }
    case Lose(i) =>
    case Get(key, coldUp) =>
    case GetBatch(token, layers, coldUp) => BatchKeepsMax(s.cold, token, HotPass(s.hot, token, layers, s.dim).misses);
  }

  lemma {:induction false} RunKeepsConfig(capacity: nat, max: nat, dim: nat, events: seq<Event>)
    requires dim > 0
    ensures Run(capacity, max, dim, events).cold.max == max && Run(capacity, max, dim, events).capacity == capacity
  {
    hide Step;
    if events != [] {
      var init, last := events[..|events| - 1], events[|events| - 1];
      RunKeepsConfig(capacity, max, dim, init);
      StepKeepsConfig(Run(capacity, max, dim, init), last);
    }
  }

  /** After any run against an unlimited vault, a step other than losing a message drops no key but a promotion's victims. */
  lemma RunsConserve(capacity: nat, dim: nat, events: seq<Event>, val: Key -> Bytes, e: Event)
    requires AllStorable(val, dim) && !e.Lose?
    requires forall x :: x in events + [e] && x.Insert? ==> x.data == val(x.key)
    ensures var s := Run(capacity, 0, dim, events);
      && AllKeys(s) <= AllKeys(Step(s, e).0) + Elements(Victims(s, e))
      && (e.Get? ==> |Victims(s, e)| <= 1)
      && (e.Insert? || e.Deliver? ==> Victims(s, e) == [])
      && (e.GetBatch? && Victims(s, e) != [] ==>
            |Victims(s, e)| <= Promotions(BatchPromote(s.cold, e.token, HotPass(s.hot, e.token, e.layers, dim).misses).0))
  {
    hide Step, Victims, AllKeys;
    RunKeepsConfig(capacity, 0, dim, events);
    RunsAgree(capacity, 0, dim, events, val, e);
    StepConserves(Run(capacity, 0, dim, events), e, val);
    NoVictims(Run(capacity, 0, dim, events), e);
  }

  lemma NoVictims(s: State, e: Event)
    requires s.dim > 0
    ensures e.Insert? || e.Deliver? ==> Victims(s, e) == []
  {
  }

  // ---- the class -----------------------------------------------------------------------------

  class TieredKVCache {
    const dim: nat
    const hot: HotTier<Bytes>
    const cold: ColdVault<Byte>
    /** Background stores that have not arrived yet. */
    var flying: seq<Tensor<Byte>>

    ghost predicate Valid() reads this, hot { dim > 0 && hot.Valid() }

    ghost function View(): State
      requires Valid()
      reads this, hot, cold
    {
      State(hot.Recency(), flying, cold.View(), hot.capacity, dim)
    }

    constructor (capacity: nat, maxBytes: nat, dim: nat)
      requires dim > 0
      ensures Valid() && fresh(hot) && fresh(cold) && View() == Init(capacity, maxBytes, dim)
    {
      var h := new HotTier<Bytes>(capacity);
      var c := new ColdVault<Byte>(maxBytes);
      this.dim, hot, cold, flying := dim, h, c, [];
    }

    method InsertKv(key: Key, data: Bytes) returns (out: Output)
      requires Valid()
      modifies this, hot
      ensures Valid() && (View(), out) == Step(old(View()), Insert(key, data))
    {
      hide Encode, Inserted;
      var compressed := Encode(data, dim);
      if compressed.Err? {
        return Raised;
      }
      var evicted := hot.Insert(key, compressed.value, |data| / 4);
      if evicted.Some? {
        flying := flying + [Tensor(evicted.value.key, evicted.value.data, evicted.value.dim)];
      }
      out := Nothing;
    }

    /** A background task reaches the vault, or finds it down. */
    method Arrive(i: nat, up: bool)
      requires Valid() && i < |flying|
      modifies this, cold
      ensures Valid() && View() == Step(old(View()), if up then Deliver(i) else Lose(i)).0
    {
      hide Store;
      var kv := flying[i];
      flying := flying[..i] + flying[i + 1..];
      if up {
        cold.StoreTensor(kv);
      }
    }

    method GetKv(key: Key, coldUp: bool) returns (out: Output)
      requires Valid()
      modifies hot, cold
      ensures Valid() && (View(), out) == Step(old(View()), Get(key, coldUp))
    {
      hide Unpack, Inserted, Touched, Find;
      var hit := hot.Get(key);
      if hit.Some? {
        match Unpack(hit.value.0, hit.value.1, dim)
        case Some(b) => return Data(b);
        case None => return Raised;
      }
      TouchMissed(old(hot.Recency()), key);
      if !coldUp {
        return Data([]);
      }
      var found := cold.PromoteTensor(key);
      if found.None? || found.value.data == [] {
        return Data([]);
      }
      var _ := hot.Insert(key, found.value.data, found.value.rows);
      match Unpack(found.value.data, found.value.rows, dim)
      case Some(b) => return Data(b);
      case None => return Data([]);
    }

    /** The first loop of `get_batch`. */
    method CollectHot(token: nat, layers: seq<nat>) returns (results: seq<(nat, Bytes)>, coldLayers: seq<nat>, raised: bool)
      requires Valid()
      modifies hot
      ensures Valid() && Pass(hot.Recency(), results, coldLayers, raised) == HotPass(old(hot.Recency()), token, layers, dim)
    {
      hide Unpack, Touched, Find;
      results, coldLayers, raised := [], [], false;
      ghost var hot0 := hot.Recency();
      assert layers[..0] == [];
      for i := 0 to |layers|
        invariant Valid() && !raised
        invariant Pass(hot.Recency(), results, coldLayers, false) == HotPass(hot0, token, layers[..i], dim)
      {
        var layer := layers[i];
        assert layers[..i + 1][..i] == layers[..i];
        ghost var before := hot.Recency();
        TouchMissed(before, Key(token, layer));
        var hit := hot.Get(Key(token, layer));
        if hit.Some? {
          match Unpack(hit.value.0, hit.value.1, dim)
          case Some(b) => results := results + [(layer, b)];
          case None =>
            RaisedPass(hot0, token, layers, i + 1, dim);
            return results, coldLayers, true;
        } else {
          coldLayers := coldLayers + [layer];
        }
      }
      assert layers[..|layers|] == layers;
    }

    /** The second loop of `get_batch`. */
    method ReinsertCold(token: nat, tensors: seq<Tensor<Byte>>) returns (results: seq<(nat, Bytes)>)
      requires Valid()
      modifies hot
      ensures Valid() && (hot.Recency(), results) == ColdPass(old(hot.Recency()), token, tensors, hot.capacity, dim)
    {
      hide Unpack, Inserted;
      results := [];
      ghost var hot0 := hot.Recency();
      assert tensors[..0] == [];
      for i := 0 to |tensors|
        invariant Valid()
        invariant (hot.Recency(), results) == ColdPass(hot0, token, tensors[..i], hot.capacity, dim)
      {
        var kv := tensors[i];
        assert tensors[..i + 1][..i] == tensors[..i];
        var bytes := [];
        if kv.data != [] {
          var _ := hot.Insert(Key(token, kv.key.layer), kv.data, kv.rows);
          match Unpack(kv.data, kv.rows, dim)
          case Some(b) => bytes := b;
          case None =>
        }
        results := results + [(kv.key.layer, bytes)];
      }
      assert tensors[..|tensors|] == tensors;
    }

    method GetBatchKv(token: nat, layers: seq<nat>, coldUp: bool) returns (out: Output)
      requires Valid()
      modifies hot, cold
      ensures Valid() && (View(), out) == Step(old(View()), GetBatch(token, layers, coldUp))
    {
      hide HotPass, ColdPass, SortByLayer, BatchPromote;
      var results, coldLayers, raised := CollectHot(token, layers);
      if raised {
        return Raised;
      }
      if coldLayers != [] && coldUp {
        var tensors := cold.BatchPromoteTensors(token, coldLayers);
        var more := ReinsertCold(token, tensors);
        results := results + more;
      }
      out := Batch(SortByLayer(results));
    }
  }

  /** Once a layer fails to decode the first loop is over. */
  lemma {:induction false} RaisedPass(hot: HotList, token: nat, layers: seq<nat>, n: nat, dim: nat)
    requires dim > 0 && n <= |layers| && HotPass(hot, token, layers[..n], dim).raised
    ensures HotPass(hot, token, layers, dim) == HotPass(hot, token, layers[..n], dim)
    decreases |layers|
  {
    if n == |layers| {
      assert layers[..n] == layers;
    } else {
      var init := layers[..|layers| - 1];
      assert init[..n] == layers[..n];
      RaisedPass(hot, token, init, n, dim);
    }
  }

  lemma TouchMissed(l: HotList, k: Key)
    ensures Find(l, k).None? ==> Touched(l, k) == l
  {
  }
}
