/**
 * The connector's own methods: what it does with registry, store handler and GPU caches when a request is
 * finished, and how they carry out the steps of the ownership protocol.
 */
module Connector {
  import opened Common
  import opened Registry
  import opened GpuBlocks
  import opened GpuDevice
  import opened Planning
  import O = Ownership
  import StoreHandler
  import VllmVault

  /** What the worker is told about one block. */
  datatype BlockSpec = BlockSpec(hash: Hash, ids: Ids, layerType: string, numTokens: nat)

  function HashesOf(specs: seq<BlockSpec>): seq<Hash> {
    seq(|specs|, i requires 0 <= i < |specs| => specs[i].hash)
  }

  /** The last position of a request at which this hash occurs. */
  ghost predicate LastPosition(hashes: seq<Option<Hash>>, h: Hash, i: nat) {
    i < |hashes| && hashes[i] == Some(h) && forall j :: i < j < |hashes| ==> hashes[j] != Some(h)
  }

  function IdsAt(primary: seq<nat>, secondary: seq<nat>, i: nat): Ids {
    var pid := if i < |primary| then primary[i] else 0;
    Ids(pid, if i < |secondary| then secondary[i] else pid)
  }

  /** Each known hash gets the ids at its last position. */
  method BlockIds(hashes: seq<Option<Hash>>, primary: seq<nat>, secondary: seq<nat>) returns (ids: map<Hash, Ids>)
    ensures forall h :: h in ids <==> Some(h) in hashes
    ensures forall h, i: nat :: LastPosition(hashes, h, i) ==> h in ids && ids[h] == IdsAt(primary, secondary, i)
  {
    ids := map[];
    for i := 0 to |hashes|
      invariant forall h :: h in ids <==> Some(h) in hashes[..i]
      invariant forall h, k: nat :: LastPosition(hashes[..i], h, k) ==> h in ids && ids[h] == IdsAt(primary, secondary, k)
    {
      ghost var front := hashes[..i + 1];
      ghost var before := ids;
      assert front == hashes[..i] + [hashes[i]];
      if hashes[i].Some? {
        ids := ids[hashes[i].value := IdsAt(primary, secondary, i)];
      }
      forall h, k: nat | LastPosition(front, h, k) ensures h in ids && ids[h] == IdsAt(primary, secondary, k) {
        if k < i {
          assert LastPosition(hashes[..i], h, k) by {
            forall j | k < j < i ensures hashes[..i][j] != Some(h) {
              assert front[j] == hashes[j];
            }
          }
          assert front[i] != Some(h);
        }
      }
    }
    assert hashes[..|hashes|] == hashes;
  }

  /** A spec made for position `i` of a request. */
  ghost predicate SpecFor(spec: BlockSpec, hashes: seq<Option<Hash>>, i: nat, tokens: seq<nat>, layerTypes: map<nat, string>,
                          ids: map<Hash, Ids>)
  {
    && i < |hashes| && hashes[i] == Some(spec.hash)
    && spec.numTokens == (if i < |tokens| then tokens[i] else 0)
    && spec.layerType == (if i in layerTypes then layerTypes[i] else "full_attention")
    && spec.hash in ids && spec.ids == ids[spec.hash]
  }

  method MakeSpecs(pending: seq<BlockRecord>, ids: map<Hash, Ids>, ghost hashes: seq<Option<Hash>>, ghost made: seq<nat>,
                   ghost tokens: seq<nat>, ghost layerTypes: map<nat, string>, ghost now: int) returns (specs: seq<BlockSpec>)
    requires AllMade(pending, made, hashes, tokens, layerTypes, now)
    requires forall h :: Some(h) in hashes ==> h in ids
    ensures AllSpecs(specs, made, hashes, tokens, layerTypes, ids)
  {
    specs := [];
    for k := 0 to |pending|
      invariant |specs| == k && forall j :: 0 <= j < k ==> SpecFor(specs[j], hashes, made[j], tokens, layerTypes, ids)
    {
      var r := pending[k];
      assert MadeFor(r, hashes[made[k]], made[k], tokens, layerTypes, now);
      assert hashes[made[k]] in hashes;
      specs := specs + [BlockSpec(r.blockHash, ids[r.blockHash], r.layerType, r.numTokens)];
    }
  }

  /** Spec `k` is for the `k`-th of these positions. */
  ghost predicate AllSpecs(specs: seq<BlockSpec>, made: seq<nat>, hashes: seq<Option<Hash>>, tokens: seq<nat>,
                           layerTypes: map<nat, string>, ids: map<Hash, Ids>)
  {
    |specs| == |made| && forall k :: 0 <= k < |made| ==> SpecFor(specs[k], hashes, made[k], tokens, layerTypes, ids)
  }

  /** The ids a request's blocks are stored under: those of its two leading groups. */
  ghost predicate IdsOfRequest(ids: map<Hash, Ids>, hashes: seq<Option<Hash>>, groups: seq<seq<nat>>,
                               primary: seq<nat>, secondary: seq<nat>)
  {
    && (groups == [] ==> primary == secondary == [])
    && (groups != [] ==> exists p: nat :: IsSplit(groups, p, primary, secondary, |hashes|))
    && forall h, i: nat :: LastPosition(hashes, h, i) ==> h in ids && ids[h] == IdsAt(primary, secondary, i)
  }

  method RequestIds(hashes: seq<Option<Hash>>, groups: seq<seq<nat>>) returns (ids: map<Hash, Ids>)
    ensures forall h :: h in ids <==> Some(h) in hashes
    ensures exists primary, secondary :: IdsOfRequest(ids, hashes, groups, primary, secondary)
  {
    hide IsSplit;
    var primary, secondary := SplitGroups(groups, |hashes|);
    ids := BlockIds(hashes, primary, secondary);
    assert IdsOfRequest(ids, hashes, groups, primary, secondary);
  }

  lemma {:induction false} WantedIsPosition(registry: BlockRegistry, hashes: seq<Option<Hash>>, n: nat)
    requires n <= |hashes|
    ensures (exists i :: 0 <= i < n && Wanted(registry, hashes[i])) <==> Positions(registry, hashes, n) != []
  {
    if n > 0 {
      WantedIsPosition(registry, hashes, n - 1);
    }
  }

  /** What the worker has in memory after the gathers: the bytes of each block's last gather that gave any. */
  ghost function Tensors(specs: seq<BlockSpec>, caches: seq<Cache<Plane>>, blockSize: nat, toBytes: Plane -> seq<byte>): map<Hash, seq<byte>>
    requires AllSized(caches)
  {
    if specs == [] then map[] else
      var before := Tensors(specs[..|specs| - 1], caches, blockSize, toBytes);
      var spec := specs[|specs| - 1];
      match GatherBlock(caches, spec.ids, blockSize)
      case None => before
      case Some(flat) => before[spec.hash := toBytes(flat)]
  }

  /** The last gather of `h` that gave bytes. */
  ghost predicate LastGather(specs: seq<BlockSpec>, caches: seq<Cache<Plane>>, blockSize: nat, h: Hash, i: nat)
    requires AllSized(caches)
  {
    && i < |specs| && specs[i].hash == h && GatherBlock(caches, specs[i].ids, blockSize).Some?
    && forall j :: i < j < |specs| && specs[j].hash == h ==> GatherBlock(caches, specs[j].ids, blockSize).None?
  }

  /** A block is held exactly if one of its gathers gave bytes, and then with the bytes of the last one that did. */
  lemma {:induction false} TensorsHold(specs: seq<BlockSpec>, caches: seq<Cache<Plane>>, blockSize: nat, toBytes: Plane -> seq<byte>, h: Hash)
    requires AllSized(caches)
    ensures h in Tensors(specs, caches, blockSize, toBytes) <==> exists i: nat :: LastGather(specs, caches, blockSize, h, i)
    ensures forall i: nat :: LastGather(specs, caches, blockSize, h, i) ==>
      h in Tensors(specs, caches, blockSize, toBytes) &&
      Tensors(specs, caches, blockSize, toBytes)[h] == toBytes(GatherBlock(caches, specs[i].ids, blockSize).value)
  {
    hide GatherBlock, AllSized;
    if specs != [] {
      var n := |specs| - 1;
      var front := specs[..n];
      TensorsHold(front, caches, blockSize, toBytes, h);
      if specs[n].hash == h && GatherBlock(caches, specs[n].ids, blockSize).Some? {
        assert LastGather(specs, caches, blockSize, h, n);
      } else {
        forall i: nat | i < n ensures LastGather(specs, caches, blockSize, h, i) <==> LastGather(front, caches, blockSize, h, i) {
          forall j | 0 <= j < n ensures front[j] == specs[j] {}
        }
      }
    }
  }

  lemma {:induction false} WantedHasPosition(registry: BlockRegistry, hashes: seq<Option<Hash>>, n: nat, i: nat)
    requires i < n <= |hashes| && Wanted(registry, hashes[i])
    ensures i in Positions(registry, hashes, n)
  {
    if i < n - 1 {
      WantedHasPosition(registry, hashes, n - 1, i);
    }
  }

  lemma {:induction false} FiledHas(records: map<Hash, BlockRecord>, pending: seq<BlockRecord>, k: nat)
    requires k < |pending|
    ensures pending[k].blockHash in Filed(records, pending) && Filed(records, pending)[pending[k].blockHash] in pending
  {
    if k < |pending| - 1 {
      FiledHas(records, pending[..|pending| - 1], k);
    }
  }

  /** After the registration a wanted block has a pending record. */
  lemma WantedIsPending(records: map<Hash, BlockRecord>, pending: seq<BlockRecord>, made: seq<nat>, hashes: seq<Option<Hash>>,
                        tokens: seq<nat>, layerTypes: map<nat, string>, now: int, i: nat)
    requires AllMade(pending, made, hashes, tokens, layerTypes, now) && i < |hashes| && hashes[i].Some? && i in made
    ensures hashes[i].value in Filed(records, pending) && Filed(records, pending)[hashes[i].value].status == Pending
  {
    hide Filed;
    var k :| 0 <= k < |made| && made[k] == i;
    assert MadeFor(pending[k], hashes[i], i, tokens, layerTypes, now);
    FiledHas(records, pending, k);
    var r := Filed(records, pending)[hashes[i].value];
    var j :| 0 <= j < |pending| && pending[j] == r;
    assert MadeFor(pending[j], hashes[made[j]], made[j], tokens, layerTypes, now);
  }

  class Connector {
    const registry: BlockRegistry
    const handler: StoreHandler.StoreHandler
    const blockSize: nat
    var storePlans: map<O.ReqId, seq<BlockSpec>>
    var finishedSending: set<O.ReqId>

    ghost predicate Valid() reads registry, handler.kvVault, handler.ssmVault {
      handler.registry == registry && handler.Valid() && blockSize > 0
    }

    /** The part of the ownership protocol's state that lives in this object. */
    ghost predicate Shows(s: O.State) reads this {
      s.storePlans == PlanHashes(storePlans) && s.finishedSending == finishedSending
    }

    constructor (handler: StoreHandler.StoreHandler, blockSize: nat)
      requires handler.Valid() && blockSize > 0
      ensures Valid() && this.handler == handler && registry == handler.registry && this.blockSize == blockSize
      ensures storePlans == map[] && Shows(O.Init(true))
    {
      this.handler, this.registry, this.blockSize := handler, handler.registry, blockSize;
      storePlans, finishedSending := map[], {};
    }

    /**
     * Each known block that is not stored gets a pending record and a spec with its own tokens, layer type and
     * ids: those of its last position in the request's two leading groups.
     */
    method RegisterBlocks(hashes: seq<Option<Hash>>, total: nat, groups: seq<seq<nat>>, layerTypes: map<nat, string>, now: int)
      returns (specs: seq<BlockSpec>, ghost ids: map<Hash, Ids>)
      requires Valid()
      modifies registry
      ensures Valid()
      ensures AllSpecs(specs, old(Positions(registry, hashes, |hashes|)), hashes,
        TokensPerBlock(total, blockSize, |hashes|), layerTypes, ids)
      ensures exists primary, secondary :: IdsOfRequest(ids, hashes, groups, primary, secondary)
      ensures forall i :: 0 <= i < |hashes| && old(Wanted(registry, hashes[i])) ==>
        hashes[i].value in registry.records && registry.records[hashes[i].value].status == Pending
      ensures forall h :: registry.IsStored(h) <==> old(registry.IsStored(h))
    {
      hide AllMade, AllSpecs, IdsOfRequest, TokensPerBlock, LastPosition, Filed, Wanted;
      ghost var made := Positions(registry, hashes, |hashes|);
      forall i | 0 <= i < |hashes| && Wanted(registry, hashes[i]) ensures i in made && hashes[i].Some? {
        WantedHasPosition(registry, hashes, |hashes|, i);
      }
      var tokens := TokensPerBlock(total, blockSize, |hashes|);
      var blockIds := RequestIds(hashes, groups);
      var pending := RegisterPending(registry, hashes, tokens, layerTypes, now);
      specs := MakeSpecs(pending, blockIds, hashes, made, tokens, layerTypes, now);
      forall i | i in made && 0 <= i < |hashes| && hashes[i].Some?
        ensures hashes[i].value in registry.records && registry.records[hashes[i].value].status == Pending
      {
        WantedIsPending(old(registry.records), pending, made, hashes, tokens, layerTypes, now, i);
      }
      ids := blockIds;
    }

    /**
     * True exactly when some known block of the request is not stored; then the specs of all such blocks wait
     * for the next metadata.
     */
    method RequestFinished(req: O.ReqId, hashes: seq<Option<Hash>>, total: nat, groups: seq<seq<nat>>,
                           layerTypes: map<nat, string>, now: int)
      returns (owned: bool, ghost ids: map<Hash, Ids>)
      requires Valid()
      modifies this`storePlans, registry
      ensures Valid()
      ensures owned <==> exists i :: 0 <= i < |hashes| && old(Wanted(registry, hashes[i]))
      ensures !owned ==> storePlans == old(storePlans) && unchanged(registry)
      ensures owned ==> req in storePlans && storePlans == old(storePlans)[req := storePlans[req]]
      ensures owned ==> AllSpecs(storePlans[req], old(Positions(registry, hashes, |hashes|)), hashes,
        TokensPerBlock(total, blockSize, |hashes|), layerTypes, ids)
      ensures owned ==> exists primary, secondary :: IdsOfRequest(ids, hashes, groups, primary, secondary)
      ensures owned ==> forall i :: 0 <= i < |hashes| && old(Wanted(registry, hashes[i])) ==>
        hashes[i].value in registry.records && registry.records[hashes[i].value].status == Pending
      ensures owned ==> forall s :: old(Shows(s)) && O.Enabled(s, O.RequestFinished(req, HashesOf(storePlans[req]))) ==>
        Shows(O.Apply(s, O.RequestFinished(req, HashesOf(storePlans[req]))))
    {
      hide AllSpecs, IdsOfRequest, TokensPerBlock, HashesOf, Wanted, Positions;
      ids := map[];
      var wanted := ShouldStore(registry, hashes);
      WantedIff(registry, hashes);
      if !wanted {
        return false, ids;
      }
      var specs, blockIds := RegisterBlocks(hashes, total, groups, layerTypes, now);
      storePlans := storePlans[req := specs];
      owned, ids := true, blockIds;
    }

    ghost predicate Split(meta: map<O.ReqId, seq<BlockSpec>>, left: map<O.ReqId, seq<BlockSpec>>, all: map<O.ReqId, seq<BlockSpec>>) {
      meta.Keys !! left.Keys && meta + left == all
    }

    lemma SplitMore(meta: map<O.ReqId, seq<BlockSpec>>, left: map<O.ReqId, seq<BlockSpec>>, all: map<O.ReqId, seq<BlockSpec>>, r: O.ReqId)
      requires Split(meta, left, all) && r in left
      ensures Split(meta[r := left[r]], left - {r}, all) && (left - {r}).Keys == left.Keys - {r}
    {
    }

    /** Every waiting plan moves into the metadata, and none stays behind. */
    method BuildConnectorMeta() returns (meta: map<O.ReqId, seq<BlockSpec>>)
      modifies this`storePlans
      ensures meta == old(storePlans) && storePlans == map[]
      ensures forall s :: old(Shows(s)) ==>
        Shows(O.Apply(s, O.BuildMeta)) && O.Apply(s, O.BuildMeta).metas == s.metas + [PlanHashes(meta)]
    {
      hide HashesOf;
      meta := map[];
      var todo := storePlans.Keys;
      while todo != {}
        invariant todo == storePlans.Keys && Split(meta, storePlans, old(storePlans))
        decreases |todo|
      {
        var req :| req in todo;
        SplitMore(meta, storePlans, old(storePlans), req);
        meta := meta[req := storePlans[req]];
        storePlans := storePlans - {req};
        todo := todo - {req};
      }
      assert storePlans == map[] && meta + map[] == meta;
    }

    /** `None` when nothing is finished; otherwise all of it, and it is handed out once. */
    method GetFinished() returns (done: Option<set<O.ReqId>>)
      modifies this`finishedSending
      ensures finishedSending == {}
      ensures done == if old(finishedSending) == {} then None else Some(old(finishedSending))
      ensures forall s :: old(Shows(s)) && done.Some? ==>
        Shows(O.Apply(s, O.GetFinished)) && O.Apply(s, O.GetFinished).reports == s.reports + [done.value]
    {
      if finishedSending == {} {
        return None;
      }
      done := Some(finishedSending);
      finishedSending := {};
    }

    /** Without caches every block of the plan is marked failed. */
    method FailSpecs(specs: seq<BlockSpec>)
      requires registry.Valid()
      modifies registry.records.Values
      ensures forall i :: 0 <= i < |specs| ==> Failing(specs[i].hash)
    {
      for i := 0 to |specs|
        invariant forall j :: 0 <= j < i ==> Failing(specs[j].hash)
      {
        registry.MarkFailed(specs[i].hash);
      }
    }

    ghost predicate Failing(h: Hash) reads registry, registry.records.Values {
      h in registry.records ==> registry.records[h].status == Failed
    }

    /** Marking a block does not touch the caches. */
    method FailAside(h: Hash, caches: Device)
      requires registry.Valid()
      modifies registry.records.Values
      ensures Failing(h) && View(caches) == old(View(caches))
      ensures forall g :: old(Failing(g)) ==> Failing(g)
    {
      label before:
      registry.MarkFailed(h);
      forall a | a in Footprint(caches) ensures unchanged@before(a) {}
    }

    /** Reads every block out of the caches; what cannot be read is marked failed. */
    method GatherSpecs(specs: seq<BlockSpec>, caches: Device, toBytes: Plane -> seq<byte>) returns (tensors: map<Hash, seq<byte>>)
      requires registry.Valid() && AllSized(View(caches))
      modifies registry.records.Values
      ensures View(caches) == old(View(caches)) && tensors == Tensors(specs, View(caches), blockSize, toBytes)
      ensures forall i :: 0 <= i < |specs| && specs[i].hash !in tensors ==> Failing(specs[i].hash)
    {
      hide GatherBlock, AllSized, View, Footprint;
      tensors := map[];
      ghost var view := View(caches);
      for i := 0 to |specs|
        invariant View(caches) == view && tensors == Tensors(specs[..i], view, blockSize, toBytes)
        invariant forall j :: 0 <= j < i && specs[j].hash !in tensors ==> Failing(specs[j].hash)
      {
        assert specs[..i + 1][..i] == specs[..i];
        var flat := GatherCaches(caches, specs[i].ids, blockSize);
        if flat.Some? {
          tensors := tensors[specs[i].hash := toBytes(flat.value)];
        } else {
          FailAside(specs[i].hash, caches);
        }
      }
      assert specs[..|specs|] == specs;
    }

    /** The records rebuilt for the blocks that were read: pending, without a key and without a payload hash. */
    method RebuildRecords(specs: seq<BlockSpec>, tensors: map<Hash, seq<byte>>, now: int) returns (pending: seq<BlockRecord>)
      ensures forall r :: r in pending ==> fresh(r) && Rebuilt(r, now)
      ensures BlockHashes(pending) == O.Records(HashesOf(specs), tensors.Keys)
      ensures forall r :: r in pending ==> exists i :: 0 <= i < |specs| && MadeOf(r, specs[i])
    {
      pending := [];
      for i := 0 to |specs|
        invariant forall r :: r in pending ==> fresh(r) && Rebuilt(r, now)
        invariant BlockHashes(pending) == O.Records(HashesOf(specs[..i]), tensors.Keys)
        invariant forall r :: r in pending ==> exists i :: 0 <= i < |specs| && MadeOf(r, specs[i])
      {
        HashesOfMore(specs, i);
        if specs[i].hash in tensors {
          var record := new BlockRecord(specs[i].hash, specs[i].layerType, specs[i].numTokens, now);
          assert MadeOf(record, specs[i]);
          assert BlockHashes(pending + [record]) == BlockHashes(pending) + [specs[i].hash];
          pending := pending + [record];
        }
      }
      assert specs[..|specs|] == specs;
    }

    ghost predicate AllFailing(specs: seq<BlockSpec>) reads registry, registry.records.Values {
      forall i :: 0 <= i < |specs| ==> Failing(specs[i].hash)
    }

    ghost predicate AllSettled(specs: seq<BlockSpec>, tensors: map<Hash, seq<byte>>)
      reads registry, registry.records.Values, handler, handler.registry, handler.registry.records.Values, handler.kvVault, handler.ssmVault
    {
      forall i :: 0 <= i < |specs| ==> handler.Settled(specs[i].hash, tensors)
    }

    /** Records are rebuilt for what was read and stored one by one; the others have been marked already. */
    method StoreSpecs(specs: seq<BlockSpec>, tensors: map<Hash, seq<byte>>, rpc: nat -> StoreHandler.Rpc, now: int)
      requires Valid() && forall i :: 0 <= i < |specs| && specs[i].hash !in tensors ==> Failing(specs[i].hash)
      modifies registry, registry.records.Values, handler.kvVault, handler.ssmVault
      ensures Valid() && registry.records == old(registry.records) && AllSettled(specs, tensors)
    {
      hide O.Records, MadeOf, Rebuilt, HashesOf, StoreHandler.StoreHandler.SettledAs;
      var pending := RebuildRecords(specs, tensors, now);
      forall i | 0 <= i < |specs| && specs[i].hash !in tensors ensures handler.Settled(specs[i].hash, tensors) {
        assert Failing(specs[i].hash);
        handler.FailedIsSettled(specs[i].hash, tensors);
      }
      RebuiltCovers(specs, tensors.Keys, pending);
      hide StoreHandler.StoreHandler.Settled, StoreHandler.StoreHandler.Valid;
      handler.StoreAll(pending, tensors, rpc);
    }

    method GatherAndStore(specs: seq<BlockSpec>, caches: Device, toBytes: Plane -> seq<byte>, rpc: nat -> StoreHandler.Rpc, now: int)
      requires Valid() && AllSized(View(caches))
      modifies registry, registry.records.Values, handler.kvVault, handler.ssmVault
      ensures Valid() && registry.records == old(registry.records)
      ensures AllSettled(specs, old(Tensors(specs, View(caches), blockSize, toBytes)))
    {
      hide Tensors, AllSized, View, Footprint, AllSettled, Failing, HashesOf;
      hide VllmVault.Agrees, VllmVault.Retain, VllmVault.Distinct;
      var tensors := GatherSpecs(specs, caches, toBytes);
      StoreSpecs(specs, tensors, rpc, now);
    }

    /**
     * A worker task. With caches every block of the plan is settled in the end, as failed or as stored with the
     * bytes read from the caches, and the request is finished. Without caches all are failed, and it is not.
     */
    method WorkerExecuteStore(req: O.ReqId, specs: seq<BlockSpec>, caches: Option<Device>, toBytes: Plane -> seq<byte>,
                              rpc: nat -> StoreHandler.Rpc, now: int)
      requires Valid() && (caches.Some? ==> AllSized(View(caches.value)))
      modifies this`finishedSending, registry, registry.records.Values, handler.kvVault, handler.ssmVault
      ensures Valid() && registry.records == old(registry.records)
      ensures finishedSending == if caches.Some? then old(finishedSending) + {req} else old(finishedSending)
      ensures caches.None? ==> AllFailing(specs)
      ensures caches.Some? ==> AllSettled(specs, old(Tensors(specs, View(caches.value), blockSize, toBytes)))
      ensures caches.Some? ==> forall s :: old(Shows(s)) && O.Enabled(s, O.Free(req)) ==> Shows(O.Apply(s, O.Free(req)))
    {
      hide Tensors, AllSized, View, Footprint, AllSettled, Failing, HashesOf;
      hide VllmVault.Agrees, VllmVault.Retain, VllmVault.Distinct;
      if caches.None? {
        FailSpecs(specs);
        return;
      }
      GatherAndStore(specs, caches.value, toBytes, rpc, now);
      finishedSending := finishedSending + {req};
    }
  }

  function BlockHashes(pending: seq<BlockRecord>): seq<Hash> {
    seq(|pending|, i requires 0 <= i < |pending| => pending[i].blockHash)
  }

  ghost predicate Rebuilt(r: BlockRecord, now: int) reads r {
    r.status == Pending && r.vaultKey == "" && r.tensorHash == [] && r.evictedAt == now
  }

  ghost predicate MadeOf(r: BlockRecord, spec: BlockSpec) {
    r.blockHash == spec.hash && r.layerType == spec.layerType && r.numTokens == spec.numTokens
  }

  lemma HashesOfMore(specs: seq<BlockSpec>, i: nat)
    requires i < |specs|
    ensures HashesOf(specs[..i + 1]) == HashesOf(specs[..i]) + [specs[i].hash]
    ensures HashesOf(specs[..i + 1])[..i] == HashesOf(specs[..i])
  {
  }

  /** Every block that was read has a record among the rebuilt ones. */
  lemma RebuiltCovers(specs: seq<BlockSpec>, tensors: set<Hash>, pending: seq<BlockRecord>)
    requires BlockHashes(pending) == O.Records(HashesOf(specs), tensors)
    ensures forall i :: 0 <= i < |specs| && specs[i].hash in tensors ==>
      exists k :: 0 <= k < |pending| && pending[k].blockHash == specs[i].hash
  {
    O.RecordsFacts(HashesOf(specs), tensors);
    forall i | 0 <= i < |specs| && specs[i].hash in tensors
      ensures exists k :: 0 <= k < |pending| && pending[k].blockHash == specs[i].hash
    {
      assert HashesOf(specs)[i] == specs[i].hash;
      var k :| 0 <= k < |BlockHashes(pending)| && BlockHashes(pending)[k] == specs[i].hash;
    }
  }

  lemma WantedIff(registry: BlockRegistry, hashes: seq<Option<Hash>>)
    ensures (exists i :: 0 <= i < |hashes| && hashes[i].Some? && !registry.IsStored(hashes[i].value)) <==>
      exists i :: 0 <= i < |hashes| && Wanted(registry, hashes[i])
    ensures (exists i :: 0 <= i < |hashes| && Wanted(registry, hashes[i])) ==> Positions(registry, hashes, |hashes|) != []
  {
    WantedIsPosition(registry, hashes, |hashes|);
  }

  function PlanHashes(plans: map<O.ReqId, seq<BlockSpec>>): O.StorePlans {
    map r | r in plans :: HashesOf(plans[r])
  }
}
