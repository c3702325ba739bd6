/**
 * The block registry and the two handlers that work on it. Records are mutable objects shared by the
 * registry, the plans and the store tasks.
 */
module Registry {
  import opened Common

  class BlockRecord {
    const blockHash: Hash
    const layerType: string
    const numTokens: nat
    const evictedAt: int
    var vaultKey: string
    var status: Status
    var tensorHash: seq<byte>

    constructor (blockHash: Hash, layerType: string, numTokens: nat, evictedAt: int)
      ensures this.blockHash == blockHash && this.layerType == layerType
      ensures this.numTokens == numTokens && this.evictedAt == evictedAt
      ensures vaultKey == "" && status == Pending && tensorHash == []
    {
      this.blockHash, this.layerType, this.numTokens, this.evictedAt := blockHash, layerType, numTokens, evictedAt;
      vaultKey, status, tensorHash := "", Pending, [];
    }
  }

  ghost function Failing(statuses: map<Hash, Status>, hashes: set<Hash>): map<Hash, Status> {
    map h | h in statuses :: if h in hashes then Failed else statuses[h]
  }

  class BlockRegistry {
    var records: map<Hash, BlockRecord>
    var vaultIndex: map<string, Hash>

    /** Every record is filed under its own hash, so distinct hashes have distinct records. */
    ghost predicate Valid() reads this {
      forall h :: h in records ==> records[h].blockHash == h
    }

    /** Any record with a vault key can be found by it. */
    ghost predicate Indexed() reads this, records.Values {
      forall h :: h in records && records[h].vaultKey != "" ==>
        records[h].vaultKey in vaultIndex && vaultIndex[records[h].vaultKey] == h
    }

    constructor ()
      ensures Valid() && Indexed() && records == map[] && vaultIndex == map[]
    {
      records, vaultIndex := map[], map[];
    }

    method Register(record: BlockRecord)
      requires Valid()
      modifies this
      ensures Valid()
      ensures records == old(records)[record.blockHash := record]
      ensures vaultIndex == if record.vaultKey != "" then old(vaultIndex)[record.vaultKey := record.blockHash] else old(vaultIndex)
    {
      records := records[record.blockHash := record];
      if record.vaultKey != "" {
        vaultIndex := vaultIndex[record.vaultKey := record.blockHash];
      }
    }

    /** Only the named record's status changes, and nothing if there is none. */
    method MarkStored(blockHash: Hash)
      requires Valid()
      modifies if blockHash in records then {records[blockHash]} else {}
      ensures blockHash in records ==> records[blockHash].status == Stored
      ensures blockHash in records ==> records[blockHash].vaultKey == old(records[blockHash].vaultKey)
      ensures blockHash in records ==> records[blockHash].tensorHash == old(records[blockHash].tensorHash)
    {
      if blockHash in records {
        records[blockHash].status := Stored;
      }
    }

    method MarkFailed(blockHash: Hash)
      requires Valid()
      modifies if blockHash in records then {records[blockHash]} else {}
      ensures blockHash in records ==> records[blockHash].status == Failed
      ensures blockHash in records ==> records[blockHash].vaultKey == old(records[blockHash].vaultKey)
      ensures blockHash in records ==> records[blockHash].tensorHash == old(records[blockHash].tensorHash)
    {
      if blockHash in records {
        records[blockHash].status := Failed;
      }
    }

    ghost predicate IsStored(blockHash: Hash) reads this, records.Values {
      blockHash in records && records[blockHash].status == Stored
    }

    method LookupStored(blockHash: Hash) returns (r: BlockRecord?)
      requires Valid()
      ensures r != null <==> IsStored(blockHash)
      ensures r != null ==> r == records[blockHash]
    {
      if blockHash in records && records[blockHash].status == Stored {
        r := records[blockHash];
      } else {
        r := null;
      }
    }

    method LookupByVaultKey(vaultKey: string) returns (r: BlockRecord?)
      requires Valid()
      ensures r != null <==> vaultKey in vaultIndex && vaultIndex[vaultKey] != [] && vaultIndex[vaultKey] in records
      ensures r != null ==> r == records[vaultIndex[vaultKey]]
    {
      r := null;
      if vaultKey in vaultIndex {
        var blockHash := vaultIndex[vaultKey];
        if blockHash != [] && blockHash in records {
          r := records[blockHash];
        }
      }
    }

    /** Removes the record, and the index entry of its key. */
    method Remove(blockHash: Hash)
      requires Valid()
      modifies this
      ensures Valid()
      ensures records == old(records) - {blockHash}
      ensures vaultIndex ==
        if blockHash in old(records) && old(records)[blockHash].vaultKey != ""
        then old(vaultIndex) - {old(records)[blockHash].vaultKey} else old(vaultIndex)
    {
      if blockHash in records {
        var rec := records[blockHash];
        records := records - {blockHash};
        if rec.vaultKey != "" {
          vaultIndex := vaultIndex - {rec.vaultKey};
        }
      }
    }

    /** Keys handed out by the vaults are never empty and never shared, so the index stays complete. */
    method UpdateVaultKey(blockHash: Hash, vaultKey: string)
      requires Valid()
      modifies this, if blockHash in records then {records[blockHash]} else {}
      ensures Valid() && records == old(records)
      ensures blockHash in records ==> records[blockHash].vaultKey == vaultKey
      ensures blockHash in records ==> records[blockHash].status == old(records[blockHash].status)
      ensures blockHash in records ==> records[blockHash].tensorHash == old(records[blockHash].tensorHash)
      ensures vaultIndex ==
        if blockHash !in records then old(vaultIndex)
        else (old(vaultIndex) - old({records[blockHash].vaultKey} - {""}))[vaultKey := blockHash]
      ensures vaultKey != "" && old(Indexed()) && (forall h :: h in records && h != blockHash ==> records[h].vaultKey != vaultKey)
        ==> Indexed()
    {
      if blockHash in records {
        var rec := records[blockHash];
        if rec.vaultKey != "" {
          vaultIndex := vaultIndex - {rec.vaultKey};
        }
        rec.vaultKey := vaultKey;
        vaultIndex := vaultIndex[vaultKey := blockHash];
      }
    }

    ghost predicate Overdue(h: Hash, cutoff: int) reads this, records.Values {
      h in records && records[h].status == Pending && records[h].evictedAt < cutoff
    }

    ghost function AllOverdue(cutoff: int): set<Hash> reads this, records.Values {
      set h | h in records && Overdue(h, cutoff)
    }

    ghost function Statuses(): map<Hash, Status> reads this, records.Values { map h | h in records :: records[h].status }

    ghost function VaultKeys(): map<Hash, string> reads this, records.Values { map h | h in records :: records[h].vaultKey }

    method ExpireOne(h: Hash, cutoff: int) returns (hit: bool)
      requires Valid() && h in records
      modifies (records[h] as BlockRecord)`status
      ensures hit <==> old(Overdue(h, cutoff))
      ensures Statuses() == if hit then old(Statuses())[h := Failed] else old(Statuses())
      ensures VaultKeys() == old(VaultKeys())
    {
      hit := records[h].status == Pending && records[h].evictedAt < cutoff;
      if hit {
        records[h].status := Failed;
      }
    }

    /** Exactly the pending records older than the cutoff become failed; stored ones are never touched. */
    method ExpirePending(cutoff: int) returns (expired: nat)
      requires Valid()
      modifies records.Values`status
      ensures Statuses() == Failing(old(Statuses()), old(AllOverdue(cutoff)))
      ensures VaultKeys() == old(VaultKeys())
      ensures expired == |old(AllOverdue(cutoff))|
    {
      expired := 0;
      ghost var overdue := AllOverdue(cutoff);
      var todo := records.Keys;
      while todo != {}
        invariant todo <= records.Keys && expired == |overdue - todo|
        invariant Statuses() == Failing(old(Statuses()), overdue - todo) && VaultKeys() == old(VaultKeys())
        decreases |todo|
      {
        var h :| h in todo;
        assert Statuses()[h] == old(Statuses())[h];
        var hit := ExpireOne(h, cutoff);
        if hit {
          expired := expired + 1;
        }
        OneMoreFails(old(Statuses()), overdue, todo, h);
        todo := todo - {h};
      }
      assert overdue - todo == overdue;
    }

    lemma OneMoreFails(statuses: map<Hash, Status>, overdue: set<Hash>, todo: set<Hash>, h: Hash)
      requires h in todo && h in statuses
      ensures |overdue - (todo - {h})| == |overdue - todo| + if h in overdue then 1 else 0
      ensures Failing(statuses, overdue - (todo - {h})) ==
        if h in overdue then Failing(statuses, overdue - todo)[h := Failed] else Failing(statuses, overdue - todo)
    {
      assert overdue - (todo - {h}) == (overdue - todo) + if h in overdue then {h} else {};
    }

    function Stale(cutoff: int): set<Hash> reads this, records.Values {
      set h | h in records && records[h].evictedAt < cutoff && records[h].status != Pending
    }

    /** The keys by which these records can be found. */
    ghost function KeysOf(hashes: set<Hash>): set<string>
      requires hashes <= records.Keys
      reads this, records.Values
    {
      set h | h in hashes && records[h].vaultKey != "" :: records[h].vaultKey
    }

    /** Exactly the failed and stored records older than the cutoff go, and with them their index entries. */
    method PurgeStale(cutoff: int) returns (removed: nat)
      requires Valid()
      modifies this
      ensures Valid()
      ensures records == old(records) - old(Stale(cutoff)) && removed == |old(Stale(cutoff))|
      ensures vaultIndex == old(vaultIndex) - old(KeysOf(Stale(cutoff)))
    {
      var stale := Stale(cutoff);
      removed := |stale|;
      var todo := stale;
      while todo != {}
        invariant Valid() && todo <= stale
        invariant records == old(records) - (stale - todo)
        invariant vaultIndex == old(vaultIndex) - old(KeysOf(stale - todo))
        decreases |todo|
      {
        var h :| h in todo;
        assert old(KeysOf(stale - (todo - {h}))) == old(KeysOf(stale - todo)) + old({records[h].vaultKey} - {""});
        Remove(h);
        todo := todo - {h};
      }
    }
  }

  // ---- restore planning ----------------------------------------------------------------------

  /** The walk: stops at the first hash that is not stored. */
  method StoredPrefix(registry: BlockRegistry, hashes: seq<Hash>) returns (plan: seq<BlockRecord>)
    requires registry.Valid()
    ensures |plan| <= |hashes|
    ensures forall i :: 0 <= i < |plan| ==> registry.IsStored(hashes[i]) && plan[i] == registry.records[hashes[i]]
    ensures |plan| < |hashes| ==> !registry.IsStored(hashes[|plan|])
  {
    plan := [];
    while |plan| < |hashes|
      invariant |plan| <= |hashes|
      invariant forall i :: 0 <= i < |plan| ==> registry.IsStored(hashes[i]) && plan[i] == registry.records[hashes[i]]
    {
      var record := registry.LookupStored(hashes[|plan|]);
      if record == null {
        break;
      }
      plan := plan + [record];
    }
  }

  method TokenTotal(plan: seq<BlockRecord>) returns (matched: nat)
    ensures matched == TokenSum(plan)
  {
    matched := 0;
    for i := 0 to |plan|
      invariant matched == TokenSum(plan[..i])
    {
      assert plan[..i + 1][..i] == plan[..i];
      matched := matched + plan[i].numTokens;
    }
    assert plan[..|plan|] == plan;
  }

  /** `RestoreHandler.plan`: the longest prefix of hashes stored when the call was made, and its tokens. */
  method Plan(registry: BlockRegistry, hashes: seq<Hash>, now: int, ttl: int) returns (matched: nat, plan: seq<BlockRecord>)
    requires registry.Valid()
    modifies registry.records.Values
    ensures registry.Valid()
    ensures |plan| <= |hashes|
    ensures forall i :: 0 <= i < |plan| ==> old(registry.IsStored(hashes[i])) && plan[i] == registry.records[hashes[i]]
    ensures |plan| < |hashes| ==> !old(registry.IsStored(hashes[|plan|]))
    ensures matched == TokenSum(plan)
    ensures forall h :: h in registry.records ==> (registry.IsStored(h) <==> old(registry.IsStored(h)))
  {
    var _ := registry.ExpirePending(now - ttl);
    forall h ensures registry.IsStored(h) <==> old(registry.IsStored(h)) {
      if h in registry.records {
        assert registry.Statuses()[h] == registry.records[h].status;
        assert old(registry.Statuses())[h] == old(registry.records[h].status);
      }
    }
    plan := StoredPrefix(registry, hashes);
    matched := TokenTotal(plan);
  }

  function TokenSum(plan: seq<BlockRecord>): nat {
    if plan == [] then 0 else TokenSum(plan[..|plan| - 1]) + plan[|plan| - 1].numTokens
  }

  // ---- storing -------------------------------------------------------------------------------

  /** `should_store`: some hash is known, and not all known hashes are stored already. */
  method ShouldStore(registry: BlockRegistry, hashes: seq<Option<Hash>>) returns (r: bool)
    requires registry.Valid()
    ensures r <==> exists i :: 0 <= i < |hashes| && hashes[i].Some? && !registry.IsStored(hashes[i].value)
  {
    for i := 0 to |hashes|
      invariant forall j :: 0 <= j < i && hashes[j].Some? ==> registry.IsStored(hashes[j].value)
    {
      if hashes[i].Some? {
        var record := registry.LookupStored(hashes[i].value);
        if record == null {
          return true;
        }
      }
    }
    r := false;
  }

  /** Which positions `register_pending` makes a record for. */
  ghost predicate Wanted(registry: BlockRegistry, h: Option<Hash>)
    reads registry, registry.records.Values
  {
    h.Some? && !registry.IsStored(h.value)
  }

  /** The wanted positions among the first `n`, in order. */
  ghost function Positions(registry: BlockRegistry, hashes: seq<Option<Hash>>, n: nat): (ps: seq<nat>)
    requires n <= |hashes|
    reads registry, registry.records.Values
    ensures forall k :: 0 <= k < |ps| ==> ps[k] < n && hashes[ps[k]].Some?
  {
    if n == 0 then []
    else if Wanted(registry, hashes[n - 1]) then Positions(registry, hashes, n - 1) + [n - 1]
    else Positions(registry, hashes, n - 1)
  }

  /** The record that is made for position `i`: pending, and without a key. */
  ghost predicate MadeFor(r: BlockRecord, h: Option<Hash>, i: nat, tokens: seq<nat>, layerTypes: map<nat, string>, now: int)
    reads r
  {
    && r.status == Pending && r.vaultKey == "" && r.tensorHash == []
    && h == Some(r.blockHash)
    && r.numTokens == (if i < |tokens| then tokens[i] else 0)
    && r.layerType == (if i in layerTypes then layerTypes[i] else "full_attention")
    && r.evictedAt == now
  }

  /** The records after registering these in order: of two for one hash, the later one stays. */
  ghost function Filed(records: map<Hash, BlockRecord>, pending: seq<BlockRecord>): map<Hash, BlockRecord> {
    if pending == [] then records
    else Filed(records, pending[..|pending| - 1])[pending[|pending| - 1].blockHash := pending[|pending| - 1]]
  }

  method RegisterOne(registry: BlockRegistry, blockHash: Hash, i: nat, tokens: seq<nat>, layerTypes: map<nat, string>, now: int)
    returns (record: BlockRecord)
    requires registry.Valid() && !registry.IsStored(blockHash)
    modifies registry
    ensures registry.Valid() && fresh(record) && MadeFor(record, Some(blockHash), i, tokens, layerTypes, now)
    ensures registry.records == old(registry.records)[blockHash := record] && registry.vaultIndex == old(registry.vaultIndex)
    ensures forall h :: registry.IsStored(h) <==> old(registry.IsStored(h))
  {
    var layerType := if i in layerTypes then layerTypes[i] else "full_attention";
    record := new BlockRecord(blockHash, layerType, if i < |tokens| then tokens[i] else 0, now);
    registry.Register(record);
  }

  /** Record `k` was made for the `k`-th of these positions. */
  ghost predicate AllMade(pending: seq<BlockRecord>, made: seq<nat>, hashes: seq<Option<Hash>>, tokens: seq<nat>,
                          layerTypes: map<nat, string>, now: int)
    reads pending
  {
    |pending| == |made| && forall k :: 0 <= k < |made| ==>
      made[k] < |hashes| && MadeFor(pending[k], hashes[made[k]], made[k], tokens, layerTypes, now)
  }

  lemma FiledOne(records: map<Hash, BlockRecord>, pending: seq<BlockRecord>, r: BlockRecord)
    ensures Filed(records, pending + [r]) == Filed(records, pending)[r.blockHash := r]
  {
    assert (pending + [r])[..|pending|] == pending;
  }

  /** One fresh pending record, without a key, for each known hash that is not stored, in order; all of them are filed. */
  method RegisterPending(registry: BlockRegistry, hashes: seq<Option<Hash>>, tokens: seq<nat>, layerTypes: map<nat, string>, now: int)
    returns (pending: seq<BlockRecord>)
    requires registry.Valid()
    modifies registry
    ensures registry.Valid()
    ensures AllMade(pending, old(Positions(registry, hashes, |hashes|)), hashes, tokens, layerTypes, now)
    ensures forall r :: r in pending ==> fresh(r)
    ensures registry.records == Filed(old(registry.records), pending)
    ensures forall h :: registry.IsStored(h) <==> old(registry.IsStored(h))
    ensures registry.vaultIndex == old(registry.vaultIndex)
  {
    hide MadeFor, Filed, AllMade;
    pending := [];
    NothingMade(registry.records, hashes, tokens, layerTypes, now);
    for i := 0 to |hashes|
      invariant registry.Valid() && registry.vaultIndex == old(registry.vaultIndex)
      invariant registry.records == Filed(old(registry.records), pending)
      invariant forall h :: registry.IsStored(h) <==> old(registry.IsStored(h))
      invariant forall r :: r in pending ==> fresh(r)
      invariant AllMade(pending, old(Positions(registry, hashes, i)), hashes, tokens, layerTypes, now)
    {
      if hashes[i].None? {
        continue;
      }
      var stored := registry.LookupStored(hashes[i].value);
      if stored != null {
        continue;
      }
      var record := RegisterOne(registry, hashes[i].value, i, tokens, layerTypes, now);
      MadeForHash(record, hashes[i], i, tokens, layerTypes, now);
      FiledOne(old(registry.records), pending, record);
      OneMoreMade(pending, old(Positions(registry, hashes, i)), hashes, tokens, layerTypes, now, record, i);
      pending := pending + [record];
    }
  }

  lemma NothingMade(records: map<Hash, BlockRecord>, hashes: seq<Option<Hash>>, tokens: seq<nat>, layerTypes: map<nat, string>, now: int)
    ensures AllMade([], [], hashes, tokens, layerTypes, now) && Filed(records, []) == records
  {
  }

  lemma OneMoreMade(pending: seq<BlockRecord>, made: seq<nat>, hashes: seq<Option<Hash>>, tokens: seq<nat>,
                    layerTypes: map<nat, string>, now: int, r: BlockRecord, i: nat)
    requires AllMade(pending, made, hashes, tokens, layerTypes, now)
    requires i < |hashes| && MadeFor(r, hashes[i], i, tokens, layerTypes, now)
    ensures AllMade(pending + [r], made + [i], hashes, tokens, layerTypes, now)
  {
    hide MadeFor;
  }

  lemma MadeForHash(r: BlockRecord, h: Option<Hash>, i: nat, tokens: seq<nat>, layerTypes: map<nat, string>, now: int)
    requires MadeFor(r, h, i, tokens, layerTypes, now)
    ensures h == Some(r.blockHash)
  {
  }
}
