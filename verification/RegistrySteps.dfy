/**
 * The registry of the end-to-end protocol is the registry class: whenever the class's objects show a protocol
 * state, each call leaves them showing the state after the protocol's step.
 */
module RegistrySteps {
  import opened Common
  import opened Registry
  import P = Protocol
  import RestoreTimes

  function IsSsm(layerType: string): bool { layerType in ["ssm", "mamba", "linear_attention"] }

  ghost predicate ShowsRec(o: BlockRecord, r: P.Rec) reads o {
    && o.blockHash == r.hash && IsSsm(o.layerType) == r.ssm && o.numTokens == r.numTokens && o.evictedAt == r.evictedAt
    && o.vaultKey == r.vaultKey && o.status == r.status && o.tensorHash == r.tensorHash
  }

  /** All records ever made, whether the registry still has them or not, each one an object of its own. */
  ghost predicate ShowsRecs(objects: seq<BlockRecord>, recs: seq<P.Rec>) reads objects {
    && |objects| == |recs|
    && (forall i :: 0 <= i < |objects| ==> ShowsRec(objects[i], recs[i]))
    && (forall i, j :: 0 <= i < j < |objects| ==> objects[i] != objects[j])
  }

  ghost predicate ShowsMap(objects: seq<BlockRecord>, records: map<Hash, BlockRecord>, registry: map<Hash, P.RecId>) {
    && records.Keys == registry.Keys
    && (forall h :: h in registry ==> registry[h] < |objects| && records[h] == objects[registry[h]])
  }

  ghost predicate Shows(registry: BlockRegistry, objects: seq<BlockRecord>, s: P.State)
    reads registry, objects
  {
    registry.Valid() && ShowsRecs(objects, s.recs) && ShowsMap(objects, registry.records, s.registry) && registry.vaultIndex == s.index
  }

  /** A record the registry still has is the one its own hash leads to. */
  lemma OwnRecord(registry: BlockRegistry, objects: seq<BlockRecord>, s: P.State, i: nat)
    requires Shows(registry, objects, s) && i < |objects|
    ensures objects[i] in registry.records.Values <==> s.recs[i].hash in s.registry && s.registry[s.recs[i].hash] == i
  {
    if objects[i] in registry.records.Values {
      var h :| h in registry.records && registry.records[h] == objects[i];
      assert ShowsRec(objects[i], s.recs[i]);
    }
  }

  method Register(registry: BlockRegistry, ghost objects: seq<BlockRecord>, ghost c: P.Config, ghost s: P.State,
                  hash: Hash, layerType: string, numTokens: nat, now: int) returns (record: BlockRecord)
    requires Shows(registry, objects, s) && !P.IsStored(s, hash)
    modifies registry
    ensures Shows(registry, objects + [record], P.Apply(c, s, P.Register(hash, IsSsm(layerType), numTokens, now)))
  {
    record := new BlockRecord(hash, layerType, numTokens, now);
    registry.Register(record);
  }

  /** `mark_stored` and `mark_failed`. */
  method Mark(registry: BlockRegistry, ghost objects: seq<BlockRecord>, ghost s: P.State, hash: Hash, stored: bool)
    requires Shows(registry, objects, s)
    modifies if hash in registry.records then {registry.records[hash]} else {}
    ensures Shows(registry, objects, P.SetStatus(s, hash, if stored then Stored else Failed))
  {
    if stored {
      registry.MarkStored(hash);
    } else {
      registry.MarkFailed(hash);
    }
  }

  method UpdateVaultKey(registry: BlockRegistry, ghost objects: seq<BlockRecord>, ghost s: P.State, hash: Hash, key: string)
    requires Shows(registry, objects, s)
    modifies registry, if hash in registry.records then {registry.records[hash]} else {}
    ensures Shows(registry, objects, P.Rekeyed(s, hash, key))
  {
    hide P.KeyFor, BlockRegistry.Indexed, IsSsm;
    registry.UpdateVaultKey(hash, key);
  }

  method Remove(registry: BlockRegistry, ghost objects: seq<BlockRecord>, ghost c: P.Config, ghost s: P.State, hash: Hash)
    requires Shows(registry, objects, s)
    modifies registry
    ensures Shows(registry, objects, P.Apply(c, s, P.Remove(hash)))
  {
    registry.Remove(hash);
  }

  method Expire(registry: BlockRegistry, ghost objects: seq<BlockRecord>, ghost c: P.Config, ghost s: P.State, cutoff: int)
    requires Shows(registry, objects, s)
    modifies registry.records.Values`status
    ensures Shows(registry, objects, P.Apply(c, s, P.Expire(cutoff)))
  {
    ExpiredStep(c, s, cutoff);
    ExpireRecords(registry, objects, s, cutoff);
  }

  method ExpireEach(registry: BlockRegistry, cutoff: int)
    requires registry.Valid()
    modifies registry.records.Values`status
    ensures forall h :: h in registry.records ==>
      registry.records[h].status == if old(registry.Overdue(h, cutoff)) then Failed else old(registry.records[h].status)
  {
    hide BlockRegistry.Overdue;
    ghost var statuses := registry.Statuses();
    assert forall h :: h in registry.records ==> statuses[h] == registry.records[h].status;
    var _ := registry.ExpirePending(cutoff);
    forall h | h in registry.records
      ensures registry.records[h].status == if old(registry.Overdue(h, cutoff)) then Failed else old(registry.records[h].status)
    {
      assert registry.Statuses()[h] == registry.records[h].status;
    }
  }

  method ExpireRecords(registry: BlockRegistry, ghost objects: seq<BlockRecord>, ghost s: P.State, cutoff: int)
    requires Shows(registry, objects, s)
    modifies registry.records.Values`status
    ensures ShowsRecs(objects, P.Expired(s.recs, s.registry, cutoff))
  {
    hide P.Expired, P.Apply, IsSsm;
    forall i | 0 <= i < |objects|
      ensures objects[i] in registry.records.Values <==> s.recs[i].hash in s.registry && s.registry[s.recs[i].hash] == i
    {
      OwnRecord(registry, objects, s, i);
    }
    ExpireEach(registry, cutoff);
    ExpiredAt(s.recs, s.registry, cutoff);
    forall i | 0 <= i < |objects| ensures objects[i].status == P.Expired(s.recs, s.registry, cutoff)[i].status {
      assert old(ShowsRec(objects[i], s.recs[i]));
      var h := s.recs[i].hash;
      if h in s.registry && s.registry[h] == i {
        assert registry.records[h] == objects[i];
      }
    }
  }

  lemma ExpiredAt(recs: seq<P.Rec>, registry: map<Hash, P.RecId>, cutoff: int)
    ensures |P.Expired(recs, registry, cutoff)| == |recs|
    ensures forall i :: 0 <= i < |recs| ==>
      var r := recs[i];
      P.Expired(recs, registry, cutoff)[i] ==
        if r.status == Pending && r.evictedAt < cutoff && r.hash in registry && registry[r.hash] == i
        then r.(status := Failed) else r
  {
  }

  lemma ExpiredStep(c: P.Config, s: P.State, cutoff: int)
    ensures P.Apply(c, s, P.Expire(cutoff)) == s.(recs := P.Expired(s.recs, s.registry, cutoff))
    ensures |P.Expired(s.recs, s.registry, cutoff)| == |s.recs|
  {
  }

  method LookUp(registry: BlockRegistry, ghost objects: seq<BlockRecord>, ghost s: P.State, key: string) returns (r: BlockRecord?)
    requires Shows(registry, objects, s)
    ensures match P.Lookup(s, key) case None => r == null case Some(id) => id < |objects| && r == objects[id]
  {
    r := registry.LookupByVaultKey(key);
  }

  method LookUpStored(registry: BlockRegistry, ghost objects: seq<BlockRecord>, ghost s: P.State, hash: Hash) returns (r: BlockRecord?)
    requires Shows(registry, objects, s)
    ensures r != null <==> P.IsStored(s, hash)
    ensures r != null ==> s.registry[hash] < |objects| && r == objects[s.registry[hash]]
  {
    r := registry.LookupStored(hash);
  }

  /** The token total that `RestoreHandler.plan` reports for planned records is that of the protocol's plan. */
  lemma {:induction false} ReportedTokens(registry: BlockRegistry, objects: seq<BlockRecord>, s: P.State, plan: seq<P.RecId>)
    requires Shows(registry, objects, s) && forall i :: 0 <= i < |plan| ==> plan[i] < |objects|
    ensures TokenSum(seq(|plan|, i requires 0 <= i < |plan| => objects[plan[i]])) == RestoreTimes.PlannedTokens(s.recs, plan)
  {
    if plan != [] {
      var n := |plan| - 1;
      ReportedTokens(registry, objects, s, plan[..n]);
      var all := seq(|plan|, i requires 0 <= i < |plan| => objects[plan[i]]);
      assert all[..n] == seq(n, i requires 0 <= i < n => objects[plan[..n][i]]);
      assert ShowsRec(objects[plan[n]], s.recs[plan[n]]);
    }
  }
}
