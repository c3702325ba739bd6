/**
 * What a batch request answers, in every state a run can reach and whatever values are stored: for which
 * layers there is an entry, and what is in it.
 */
module BatchAnswers {
  import opened Common
  import opened ExoVault
  import opened HotTier
  import opened TurboQuant
  import opened TieredCache
  import Tiers = TieredCache

  /** The layers of these entries, with multiplicity. */
  function Layers(l: seq<(nat, Bytes)>): multiset<nat> {
    if l == [] then multiset{} else Layers(l[..|l| - 1]) + multiset{l[|l| - 1].0}
  }

  lemma {:induction false} LayersConcat(a: seq<(nat, Bytes)>, b: seq<(nat, Bytes)>)
    ensures Layers(a + b) == Layers(a) + Layers(b)
  {
    if b == [] {
      assert a + b == a;
    } else {
      assert (a + b)[..|a + b| - 1] == a + b[..|b| - 1];
      LayersConcat(a, b[..|b| - 1]);
    }
  }

  lemma {:induction false} InsertByLayerLayers(l: seq<(nat, Bytes)>, x: (nat, Bytes))
    ensures Layers(InsertByLayer(l, x)) == Layers(l) + multiset{x.0}
  {
    if l != [] && l[|l| - 1].0 > x.0 {
      InsertByLayerLayers(l[..|l| - 1], x);
    }
  }

  lemma {:induction false} SortByLayerLayers(l: seq<(nat, Bytes)>)
    ensures Layers(SortByLayer(l)) == Layers(l)
  {
    if l != [] {
      SortByLayerLayers(l[..|l| - 1]);
      InsertByLayerLayers(SortByLayer(l[..|l| - 1]), l[|l| - 1]);
    }
  }

  /** Looking keys up never changes what any of them is found with. */
  ghost predicate SameFinds(a: HotList, b: HotList) { forall k :: Find(a, k) == Find(b, k) }

  lemma TouchedFinds(l: HotList, k: Key)
    requires UniqueKeys(l)
    ensures SameFinds(Touched(l, k), l) && UniqueKeys(Touched(l, k))
  {
    TouchedFacts(l, k);
    hide Touched;
    forall q ensures Find(Touched(l, k), q) == Find(l, q) {
      FindFacts(l, q);
      FindFacts(Touched(l, k), q);
    }
  }

  /** The layers the hot tier has nothing for, in order. */
  function NotHot(hot: HotList, token: nat, layers: seq<nat>): seq<nat> {
    if layers == [] then [] else
      var l := layers[|layers| - 1];
      NotHot(hot, token, layers[..|layers| - 1]) + if Find(hot, Key(token, l)).None? then [l] else []
  }

  lemma {:induction false} NotHotFacts(hot: HotList, token: nat, layers: seq<nat>)
    ensures forall l :: l in NotHot(hot, token, layers) <==> l in layers && Find(hot, Key(token, l)).None?
    ensures NotHot(hot, token, layers) == [] <==> forall l :: l in layers ==> Find(hot, Key(token, l)).Some?
  {
    hide Find;
    if layers != [] {
      var init := layers[..|layers| - 1];
      NotHotFacts(hot, token, init);
      assert layers == init + [layers[|layers| - 1]];
    }
  }

  lemma {:induction false} NotHotAmong(hot: HotList, token: nat, layers: seq<nat>)
    ensures multiset(NotHot(hot, token, layers)) <= multiset(layers)
  {
    hide Find;
    if layers != [] {
      var init, layer := layers[..|layers| - 1], layers[|layers| - 1];
      NotHotAmong(hot, token, init);
      assert layers == init + [layer];
      assert multiset(NotHot(hot, token, init) + [layer]) == multiset(NotHot(hot, token, init)) + multiset{layer};
    }
  }

  predicate Undecodable(hot: HotList, token: nat, layer: nat, dim: nat)
    requires dim > 0
  {
    match Find(hot, Key(token, layer)) case None => false case Some(h) => Unpack(h.data, h.dim, dim).None?
  }

  lemma {:induction false} HotPassFinds(hot: HotList, token: nat, layers: seq<nat>, dim: nat)
    requires dim > 0 && UniqueKeys(hot)
    ensures SameFinds(HotPass(hot, token, layers, dim).hot, hot) && UniqueKeys(HotPass(hot, token, layers, dim).hot)
  {
    if layers != [] {
      HotPassFinds(hot, token, layers[..|layers| - 1], dim);
      TouchedFinds(HotPass(hot, token, layers[..|layers| - 1], dim).hot, Key(token, layers[|layers| - 1]));
      hide Unpack, Touched, UniqueKeys;
    }
  }

  /** One layer of the first loop, by what the hot tier held when the loop began. */
  lemma HotLayerIs(p: Pass, hot: HotList, token: nat, layer: nat, dim: nat)
    requires dim > 0 && SameFinds(p.hot, hot)
    ensures var q := HotLayer(p, token, layer, dim);
      && (Find(hot, Key(token, layer)).None? ==> q == p.(misses := p.misses + [layer]))
      && (Undecodable(hot, token, layer, dim) ==> q.raised && q.found == p.found)
      && (Find(hot, Key(token, layer)).Some? && !Undecodable(hot, token, layer, dim) ==>
            HotAnswer(hot, token, layer, dim).Some? && q.misses == p.misses && q.raised == p.raised
            && q.found == p.found + [(layer, HotAnswer(hot, token, layer, dim).value)])
  {
    hide Unpack, Touched, Find;
  }

  /** The first loop raises exactly if it comes across something undecodable. */
  lemma {:induction false} HotPassRaises(hot: HotList, token: nat, layers: seq<nat>, dim: nat)
    requires dim > 0 && UniqueKeys(hot)
    ensures HotPass(hot, token, layers, dim).raised <==> exists l :: l in layers && Undecodable(hot, token, l, dim)
  {
    if layers != [] {
      var init, layer := layers[..|layers| - 1], layers[|layers| - 1];
      HotPassRaises(hot, token, init, dim);
      HotPassFinds(hot, token, init, dim);
      HotLayerIs(HotPass(hot, token, init, dim), hot, token, layer, dim);
      hide HotLayer, Undecodable, SameFinds, UniqueKeys, Find, HotAnswer;
      if l :| l in layers && Undecodable(hot, token, l, dim) {
        assert l in init || l == layer;
      }
      if l :| l in init && Undecodable(hot, token, l, dim) {
        assert l in layers;
      }
    }
  }

  lemma {:induction false} HotPassMisses(hot: HotList, token: nat, layers: seq<nat>, dim: nat)
    requires dim > 0 && UniqueKeys(hot) && !HotPass(hot, token, layers, dim).raised
    ensures HotPass(hot, token, layers, dim).misses == NotHot(hot, token, layers)
  {
    if layers != [] {
      var init, layer := layers[..|layers| - 1], layers[|layers| - 1];
      HotPassMisses(hot, token, init, dim);
      HotPassFinds(hot, token, init, dim);
      HotLayerIs(HotPass(hot, token, init, dim), hot, token, layer, dim);
      hide HotLayer, Undecodable, SameFinds, UniqueKeys, Find, HotAnswer;
    }
  }

  /** And if it does not, each layer is found or missed. */
  lemma {:induction false} HotPassLayers(hot: HotList, token: nat, layers: seq<nat>, dim: nat)
    requires dim > 0 && !HotPass(hot, token, layers, dim).raised
    ensures var p := HotPass(hot, token, layers, dim); Layers(p.found) + multiset(p.misses) == multiset(layers)
  {
    if layers != [] {
      var init, layer := layers[..|layers| - 1], layers[|layers| - 1];
      HotPassLayers(hot, token, init, dim);
      HotLayerCounts(HotPass(hot, token, init, dim), token, layer, dim);
      hide HotLayer, Layers;
      assert layers == init + [layer];
      assert multiset(init + [layer]) == multiset(init) + multiset{layer};
    }
  }

  lemma HotLayerCounts(p: Pass, token: nat, layer: nat, dim: nat)
    requires dim > 0 && !HotLayer(p, token, layer, dim).raised
    ensures var q := HotLayer(p, token, layer, dim);
      !p.raised && Layers(q.found) + multiset(q.misses) == Layers(p.found) + multiset(p.misses) + multiset{layer}
  {
    hide Unpack, Touched, Find, Layers;
    var q := HotLayer(p, token, layer, dim);
    if q.found != p.found {
      LayersSnoc(p.found, q.found[|p.found|]);
    } else {
      assert multiset(p.misses + [layer]) == multiset(p.misses) + multiset{layer};
    }
  }

  lemma LayersSnoc(l: seq<(nat, Bytes)>, x: (nat, Bytes))
    ensures Layers(l + [x]) == Layers(l) + multiset{x.0}
  {
    assert (l + [x])[..|l|] == l;
  }

  lemma {:induction false} HotPassFound(hot: HotList, token: nat, layers: seq<nat>, dim: nat)
    requires dim > 0 && UniqueKeys(hot)
    ensures forall x :: x in HotPass(hot, token, layers, dim).found ==> x.0 in layers && HotAnswer(hot, token, x.0, dim) == Some(x.1)
  {
    if layers != [] {
      var init, layer := layers[..|layers| - 1], layers[|layers| - 1];
      HotPassFound(hot, token, init, dim);
      HotPassFinds(hot, token, init, dim);
      HotLayerIs(HotPass(hot, token, init, dim), hot, token, layer, dim);
      hide HotLayer, Undecodable, SameFinds, UniqueKeys, Find, HotAnswer;
    }
  }

  /** What the hot tier has for a layer; `None` if it has nothing, or nothing that decodes. */
  function HotAnswer(hot: HotList, token: nat, layer: nat, dim: nat): Option<Bytes>
    requires dim > 0
  {
    match Find(hot, Key(token, layer)) case None => None case Some(h) => Unpack(h.data, h.dim, dim)
  }

  /** What a tensor from the vault is answered with. */
  function ColdAnswer(kv: Tensor<Byte>, dim: nat): Bytes
    requires dim > 0
  {
    if kv.data == [] then [] else match Unpack(kv.data, kv.rows, dim) case Some(b) => b case None => []
  }

  /** The second loop: an entry for each tensor, in order. */
  lemma {:induction false} ColdPassFound(hot: HotList, token: nat, tensors: seq<Tensor<Byte>>, capacity: nat, dim: nat)
    requires dim > 0
    ensures var found := ColdPass(hot, token, tensors, capacity, dim).1;
      |found| == |tensors| && forall i :: 0 <= i < |tensors| ==> found[i] == (tensors[i].key.layer, ColdAnswer(tensors[i], dim))
  {
    if tensors != [] {
      ColdPassFound(hot, token, tensors[..|tensors| - 1], capacity, dim);
      ColdPassOne(hot, token, tensors, capacity, dim);
      hide ColdPass, ColdAnswer;
    }
  }

  lemma {:induction false} LayersAre(l: seq<(nat, Bytes)>, layers: seq<nat>)
    requires |l| == |layers| && forall i :: 0 <= i < |l| ==> l[i].0 == layers[i]
    ensures Layers(l) == multiset(layers)
  {
    if l != [] {
      var n := |l| - 1;
      LayersAre(l[..n], layers[..n]);
      assert layers == layers[..n] + [layers[n]];
      assert multiset(layers[..n] + [layers[n]]) == multiset(layers[..n]) + multiset{layers[n]};
    }
  }

  lemma ColdPassOne(hot: HotList, token: nat, tensors: seq<Tensor<Byte>>, capacity: nat, dim: nat)
    requires dim > 0 && tensors != []
    ensures var kv := tensors[|tensors| - 1];
      ColdPass(hot, token, tensors, capacity, dim).1 ==
        ColdPass(hot, token, tensors[..|tensors| - 1], capacity, dim).1 + [(kv.key.layer, ColdAnswer(kv, dim))]
  {
    hide Unpack, Inserted;
  }

  /** What the two tiers have for a layer when a request comes; nothing if neither has it. */
  function AnswerOf(s: State, token: nat, layer: nat): Bytes
    requires s.dim > 0
  {
    var key := Key(token, layer);
    match Find(s.hot, key)
    case Some(h) => (match Unpack(h.data, h.dim, s.dim) case Some(b) => b case None => [])
    case None => if key in s.cold.store then ColdAnswer(s.cold.store[key], s.dim) else []
  }

  ghost predicate Repeats(layers: seq<nat>, layer: nat) {
    exists i, j :: 0 <= i < j < |layers| && layers[i] == layers[j] == layer
  }

  /** What holds of every state of a run, whatever values are stored. */
  ghost predicate Kept(s: State) {
    UniqueKeys(s.hot) && |s.hot| <= s.capacity && s.dim > 0 && OwnKeys(s.cold.store)
  }

  ghost predicate OwnKeys(store: map<Key, Tensor<Byte>>) { forall k :: k in store ==> store[k].key == k }

  // ---- one request ---------------------------------------------------------------------------

  /** The entries that come from the vault: one for each missed layer, in order. */
  lemma ColdHalf(cold: Vault<Byte>, hot: HotList, token: nat, misses: seq<nat>, capacity: nat, dim: nat)
    requires dim > 0 && OwnKeys(cold.store)
    ensures var found := ColdPass(hot, token, BatchPromote(cold, token, misses).0, capacity, dim).1;
      && Layers(found) == multiset(misses) && |found| == |misses|
      && forall i :: 0 <= i < |misses| ==> found[i] == (misses[i], ColdAnswer(Answer(cold, token, misses, i), dim))
  {
    BatchPromoteAnswers(cold, token, misses);
    hide BatchPromote, ColdAnswer, ColdPass;
    var tensors := BatchPromote(cold, token, misses).0;
    forall i | 0 <= i < |misses| ensures tensors[i].key.layer == misses[i] {
      assert tensors[i] == Answer(cold, token, misses, i);
    }
    ColdPassFound(hot, token, tensors, capacity, dim);
    LayersAre(ColdPass(hot, token, tensors, capacity, dim).1, misses);
  }

  /** An entry is what the tiers had, or an empty one behind an earlier entry of a layer that was asked for twice. */
  ghost predicate EntryOk(s: State, token: nat, layers: seq<nat>, x: (nat, Bytes))
    requires s.dim > 0
  {
    x.0 in layers && (x.1 == AnswerOf(s, token, x.0) || (x.1 == [] && Repeats(layers, x.0)))
  }

  lemma HotEntryOk(s: State, token: nat, layers: seq<nat>, x: (nat, Bytes))
    requires s.dim > 0 && x.0 in layers && HotAnswer(s.hot, token, x.0, s.dim) == Some(x.1)
    ensures EntryOk(s, token, layers, x)
  {
    hide Unpack, Find, ColdAnswer;
  }

  lemma ColdEntryOk(s: State, token: nat, misses: seq<nat>, i: nat)
    requires s.dim > 0 && i < |misses| && Find(s.hot, Key(token, misses[i])).None?
    ensures EntryOk(s, token, misses, (misses[i], ColdAnswer(Answer(s.cold, token, misses, i), s.dim)))
  {
    hide Unpack, Find;
    if misses[i] in misses[..i] {
      var j :| 0 <= j < i && misses[..i][j] == misses[i];
      assert misses[j] == misses[i];
    }
  }

  lemma RepeatsOnlyWhatRepeats(a: seq<nat>, b: seq<nat>, layer: nat)
    requires Repeats(a, layer) && multiset(a) <= multiset(b)
    ensures Repeats(b, layer)
  {
    TwiceIff(a, layer);
    TwiceIff(b, layer);
  }

  lemma {:induction false} TwiceIff(a: seq<nat>, layer: nat)
    ensures Repeats(a, layer) <==> multiset(a)[layer] >= 2
  {
    if a != [] {
      var n := |a| - 1;
      var init := a[..n];
      TwiceIff(init, layer);
      RepeatsOneMore(init, a[n], layer);
      assert a == init + [a[n]];
      assert multiset(init + [a[n]]) == multiset(init) + multiset{a[n]};
      hide Repeats;
    }
  }

  lemma RepeatsOneMore(a: seq<nat>, x: nat, layer: nat)
    ensures Repeats(a + [x], layer) <==> Repeats(a, layer) || (x == layer && layer in a)
  {
    var all := a + [x];
    if x == layer && layer in a {
      var i :| 0 <= i < |a| && a[i] == layer;
      assert all[i] == all[|a|] == layer;
    }
    if i, j :| 0 <= i < j < |a| && a[i] == a[j] == layer {
      assert all[i] == all[j] == layer;
    }
    if i, j :| 0 <= i < j < |all| && all[i] == all[j] == layer {
      assert a[i] == layer;
    }
  }
  /**
   * A request raises exactly if the hot tier holds something undecodable for one of the layers. Otherwise there is
   * an entry for each requested layer, except for those that are not hot if the vault does not answer.
   */
  lemma BatchContents(s: State, token: nat, layers: seq<nat>, coldUp: bool)
    requires Kept(s)
    ensures var out := GetBatchStep(s, token, layers, coldUp).1;
      && (out.Raised? <==> exists l :: l in layers && Undecodable(s.hot, token, l, s.dim))
      && (!out.Raised? ==>
        && out.Batch? && SortedByLayer(out.found)
        && Layers(out.found) == (if coldUp then multiset(layers) else multiset(layers) - multiset(NotHot(s.hot, token, layers)))
        && forall x :: x in out.found ==> EntryOk(s, token, layers, x))
  {
    hide Unpack, Find, HotPass, ColdPass, BatchPromote, SortByLayer, SortedByLayer, Layers, EntryOk, HotAnswer, ColdAnswer, Undecodable, NotHot;
    var p := HotPass(s.hot, token, layers, s.dim);
    HotPassRaises(s.hot, token, layers, s.dim);
    NotHotFacts(s.hot, token, layers);
    if !p.raised {
      HotPassMisses(s.hot, token, layers, s.dim);
      HotPassLayers(s.hot, token, layers, s.dim);
      HotPassFound(s.hot, token, layers, s.dim);
      forall x | x in p.found ensures EntryOk(s, token, layers, x) {
        HotEntryOk(s, token, layers, x);
      }
      var all := p.found;
      if p.misses != [] && coldUp {
        var found := ColdPass(p.hot, token, BatchPromote(s.cold, token, p.misses).0, s.capacity, s.dim).1;
        ColdHalf(s.cold, p.hot, token, p.misses, s.capacity, s.dim);
        ColdEntriesOk(s, token, layers, found);
        LayersConcat(p.found, found);
        all := p.found + found;
      }
      SortByLayerFacts(all);
      SortByLayerLayers(all);
    }
  }

  lemma ColdEntriesOk(s: State, token: nat, layers: seq<nat>, found: seq<(nat, Bytes)>)
    requires s.dim > 0 && |found| == |NotHot(s.hot, token, layers)|
    requires var misses := NotHot(s.hot, token, layers);
      forall i :: 0 <= i < |misses| ==> found[i] == (misses[i], ColdAnswer(Answer(s.cold, token, misses, i), s.dim))
    ensures forall x :: x in found ==> EntryOk(s, token, layers, x)
  {
    hide Find, ColdAnswer, Answer, AnswerOf, Repeats, NotHot;
    var misses := NotHot(s.hot, token, layers);
    NotHotFacts(s.hot, token, layers);
    forall x | x in found ensures EntryOk(s, token, layers, x) {
      var i :| 0 <= i < |found| && found[i] == x;
      ColdEntryOk(s, token, misses, i);
      if Repeats(misses, x.0) {
        NotHotAmong(s.hot, token, layers);
        RepeatsOnlyWhatRepeats(misses, layers, x.0);
      }
    }
  }

  ghost predicate AllHot(s: State, token: nat, layers: seq<nat>) {
    forall l :: l in layers ==> Find(s.hot, Key(token, l)).Some?
  }

  /** The documented promise, an entry for each requested layer, is kept exactly if the vault answers or every layer is hot. */
  lemma EveryLayerAnsweredIff(s: State, token: nat, layers: seq<nat>, coldUp: bool)
    requires Kept(s)
    ensures var out := GetBatchStep(s, token, layers, coldUp).1;
      out.Batch? ==> (Layers(out.found) == multiset(layers) <==> coldUp || AllHot(s, token, layers))
  {
    BatchContents(s, token, layers, coldUp);
    NotHotFacts(s.hot, token, layers);
    NotHotAmong(s.hot, token, layers);
    LessSome(multiset(layers), NotHot(s.hot, token, layers));
    hide Find, Layers, NotHot, GetBatchStep, Undecodable, EntryOk, Kept, SortedByLayer;
  }

  lemma LessSome(a: multiset<nat>, b: seq<nat>)
    requires multiset(b) <= a
    ensures a - multiset(b) == a <==> b == []
  {
    if b != [] {
      assert b[0] in multiset(b);
      assert (a - multiset(b))[b[0]] < a[b[0]];
    }
  }

  /** It is not always kept: with the vault out of reach the answer to a request may be empty. */
  lemma NothingAnswered(capacity: nat, max: nat, dim: nat, token: nat, layer: nat)
    requires dim > 0
    ensures Step(Init(capacity, max, dim), GetBatch(token, [layer], false)).1 == Batch([])
  {
    assert [layer][..0] == [];
    assert HotPass([], token, [], dim) == Pass([], [], [], false);
    assert HotPass([], token, [layer], dim) == HotLayer(Pass([], [], [], false), token, layer, dim);
  }

  // ---- every run -----------------------------------------------------------------------------

  lemma {:induction false} ColdPassKept(hot: HotList, token: nat, tensors: seq<Tensor<Byte>>, capacity: nat, dim: nat)
    requires dim > 0 && UniqueKeys(hot) && |hot| <= capacity
    ensures var h := ColdPass(hot, token, tensors, capacity, dim).0; UniqueKeys(h) && |h| <= capacity
  {
    if tensors != [] {
      var kv := tensors[|tensors| - 1];
      ColdPassKept(hot, token, tensors[..|tensors| - 1], capacity, dim);
      var h := ColdPass(hot, token, tensors[..|tensors| - 1], capacity, dim).0;
      InsertedFacts(h, Hot(Key(token, kv.key.layer), kv.data, kv.rows), capacity);
      hide UniqueKeys, Inserted, Unpack;
    }
  }

  lemma StoreOwnKeys(v: Vault<Byte>, kv: Tensor<Byte>)
    requires OwnKeys(v.store)
    ensures OwnKeys(Store(v, kv).store)
  {
    EvictKeepsValues(Pushed(v, kv));
    hide Evict;
  }

  lemma GetBatchKept(s: State, token: nat, layers: seq<nat>, coldUp: bool)
    requires Kept(s)
    ensures Kept(GetBatchStep(s, token, layers, coldUp).0)
  {
    hide UniqueKeys, HotPass, ColdPass, BatchPromote, SortByLayer, HotKeys;
    HotPassKeys(s.hot, token, layers, s.capacity, s.dim);
    var p := HotPass(s.hot, token, layers, s.dim);
    BatchPromoteAnswers(s.cold, token, p.misses);
    ColdPassKept(p.hot, token, BatchPromote(s.cold, token, p.misses).0, s.capacity, s.dim);
  }

  lemma StepKept(s: State, e: Event)
    requires Kept(s)
    ensures Kept(Step(s, e).0)
  {
    hide Evict, Encode, Unpack, Inserted, Touched;
    match e
    case Insert(key, data) =>
      if Encode(data, s.dim).Ok? {
        InsertedFacts(s.hot, Hot(key, Encode(data, s.dim).value, |data| / 4), s.capacity);
      }
      hide UniqueKeys;
    case Deliver(i) =>
      if i < |s.flying| {
        StoreOwnKeys(s.cold, s.flying[i]);
      }
      hide UniqueKeys, Store;
    case Lose(i) =>
    case Get(key, coldUp) =>
      TouchedFacts(s.hot, key);
      if key in s.cold.store {
        InsertedFacts(s.hot, Hot(key, s.cold.store[key].data, s.cold.store[key].rows), s.capacity);
      }
      hide UniqueKeys;
    case GetBatch(token, layers, coldUp) =>
      GetBatchKept(s, token, layers, coldUp);
      hide GetBatchStep, Kept;
  }

  lemma {:induction false} RunsKept(capacity: nat, max: nat, dim: nat, events: seq<Event>)
    requires dim > 0
    ensures Kept(Tiers.Run(capacity, max, dim, events))
  {
    hide Step;
    if events != [] {
      RunsKept(capacity, max, dim, events[..|events| - 1]);
      StepKept(Tiers.Run(capacity, max, dim, events[..|events| - 1]), events[|events| - 1]);
      hide Kept;
    }
  }

  /** So after every run, whatever was inserted, delivered or lost. */
  lemma RunsAnswerEveryLayerIff(capacity: nat, max: nat, dim: nat, events: seq<Event>, token: nat, layers: seq<nat>, coldUp: bool)
    requires dim > 0
    ensures var s := Tiers.Run(capacity, max, dim, events);
      var out := Step(s, GetBatch(token, layers, coldUp)).1;
      && (out.Raised? <==> exists l :: l in layers && Undecodable(s.hot, token, l, dim))
      && (!out.Raised? ==>
        && out.Batch?
        && (Layers(out.found) == multiset(layers) <==> coldUp || AllHot(s, token, layers))
        && forall x :: x in out.found ==> EntryOk(s, token, layers, x))
  {
    RunsKept(capacity, max, dim, events);
    var s := Tiers.Run(capacity, max, dim, events);
    BatchContents(s, token, layers, coldUp);
    EveryLayerAnsweredIff(s, token, layers, coldUp);
    hide Tiers.Run, GetBatchStep, Undecodable, EntryOk, AllHot, Layers, NotHot, Kept, SortedByLayer;
  }
}
