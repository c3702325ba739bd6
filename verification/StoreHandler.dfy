/**
 * The worker's side of storing: one block after another is quantised, shipped and recorded. Nothing
 * that goes wrong with one block keeps the others from being settled.
 */
module StoreHandler {
  import opened Common
  import opened VaultKeys
  import opened VllmVault
  import opened Registry

  /** What becomes of one store RPC: the vault may have stored the block although the answer never came. */
  datatype Rpc = Answered | Unreached | AnswerLost

  class StoreHandler {
    const registry: BlockRegistry
    const kvVault: VllmColdVault
    /** The same object as `kvVault` where there is only one vault. */
    const ssmVault: VllmColdVault
    const turboQuant: bool
    const encode: seq<byte> -> Option<seq<byte>>
    const sha: seq<byte> -> seq<byte>

    constructor (registry: BlockRegistry, kvVault: VllmColdVault, ssmVault: VllmColdVault?,
                 turboQuant: bool, encode: seq<byte> -> Option<seq<byte>>, sha: seq<byte> -> seq<byte>)
      ensures this.registry == registry && this.kvVault == kvVault
      ensures this.ssmVault == if ssmVault == null then kvVault else ssmVault
      ensures this.turboQuant == turboQuant && this.encode == encode && this.sha == sha
    {
      this.registry, this.kvVault := registry, kvVault;
      this.ssmVault := if ssmVault == null then kvVault else ssmVault;
      this.turboQuant, this.encode, this.sha := turboQuant, encode, sha;
    }

    function VaultFor(layerType: string): VllmColdVault {
      if layerType in ["ssm", "mamba", "linear_attention"] then ssmVault else kvVault
    }

    /** What is shipped for a block's tensor bytes; `None` when the encoder raises. */
    function Shipment(h: Hash, tensor: seq<byte>): (b: Option<Block>)
      ensures b.Some? ==> b.value.hashHex == Hex(h)
    {
      if !turboQuant then Some(Block(Hex(h), tensor, false))
      else match encode(tensor) case None => None case Some(p) => Some(Block(Hex(h), p, true))
    }

    ghost predicate Valid() reads registry, kvVault, ssmVault {
      registry.Valid() && kvVault.Valid() && ssmVault.Valid()
    }

    /** What the vault of this layer type has been asked to store since its last flush. */
    ghost function Shipped(layerType: string): seq<StoredBlock> reads VaultFor(layerType) {
      VaultFor(layerType).history
    }

    method StoreOne(record: BlockRecord, tensor: seq<byte>, rpc: Rpc) returns (ok: bool)
      requires Valid()
      modifies registry, record, VaultFor(record.layerType)
      modifies if record.blockHash in registry.records then {registry.records[record.blockHash]} else {}
      ensures Valid() && registry.records == old(registry.records)
      ensures ok <==> Shipment(record.blockHash, tensor).Some? && rpc == Answered
      ensures Shipped(record.layerType) == old(Shipped(record.layerType)) +
        if Shipment(record.blockHash, tensor).None? || rpc == Unreached then []
        else [StoredBlock(old(VaultFor(record.layerType).counter), Shipment(record.blockHash, tensor).value)]
      ensures !ok ==> unchanged(registry) && unchanged(record)
      ensures !ok && record.blockHash in registry.records ==> unchanged(registry.records[record.blockHash])
      ensures ok ==> record.tensorHash == sha(Shipment(record.blockHash, tensor).value.payload)
      ensures ok && record.blockHash in registry.records ==>
        var rec := registry.records[record.blockHash];
        rec.status == Stored && rec.vaultKey == VaultKey(Hex(record.blockHash), old(VaultFor(record.layerType).counter))
    {
      hide VaultKey, Hex, Agrees, Retain, Distinct;
      var block := Shipment(record.blockHash, tensor);
      if block.None? || rpc == Unreached {
        return false;
      }
      var vault := VaultFor(record.layerType);
      var key := vault.StoreBlock(block.value.hashHex, block.value.payload, block.value.quantized);
      if rpc == AnswerLost {
        return false;
      }
      record.tensorHash := sha(block.value.payload);
      registry.UpdateVaultKey(record.blockHash, key);
      registry.MarkStored(record.blockHash);
      ok := true;
    }

    /** A record that is failed, or stored under a key that leads to the block's own bytes. */
    ghost predicate SettledAs(h: Hash, status: Status, key: string, tensors: map<Hash, seq<byte>>, shipped: seq<StoredBlock>) {
      || status == Failed
      || (status == Stored && h in tensors &&
          exists x :: x in shipped && x.Key() == key && Shipment(h, tensors[h]) == Some(x.block))
    }

    /** Whatever record the registry has for `h` is settled. */
    ghost predicate Settled(h: Hash, tensors: map<Hash, seq<byte>>)
      reads registry, registry.records.Values, kvVault, ssmVault
    {
      h in registry.records ==>
        SettledAs(h, registry.records[h].status, registry.records[h].vaultKey, tensors, AllShipped())
    }

    ghost function AllShipped(): seq<StoredBlock> reads kvVault, ssmVault {
      kvVault.history + ssmVault.history
    }

    lemma StaysSettled(h: Hash, status: Status, key: string, tensors: map<Hash, seq<byte>>,
                       shipped: seq<StoredBlock>, more: seq<StoredBlock>)
      requires SettledAs(h, status, key, tensors, shipped) && forall x :: x in shipped ==> x in more
      ensures SettledAs(h, status, key, tensors, more)
    {
      hide VaultKey, Hex;
    }

    /** One round of the loop: a block without bytes, or one that raises, is marked failed. */
    method StoreOrFail(record: BlockRecord, tensors: map<Hash, seq<byte>>, rpc: Rpc) returns (ok: bool)
      requires Valid()
      modifies registry, record, VaultFor(record.layerType)
      modifies if record.blockHash in registry.records then {registry.records[record.blockHash]} else {}
      ensures Valid() && registry.records == old(registry.records)
      ensures Settled(record.blockHash, tensors)
      ensures ok <==> record.blockHash in tensors && rpc == Answered && Shipment(record.blockHash, tensors[record.blockHash]).Some?
      ensures old(kvVault.history) <= kvVault.history && old(ssmVault.history) <= ssmVault.history
    {
      hide VaultKey, Hex, Agrees, Retain, Distinct, SettledAs, Shipment;
      var h := record.blockHash;
      if h !in tensors {
        registry.MarkFailed(h);
        FailedIsSettled(h, tensors);
        return false;
      }
      ok := StoreOne(record, tensors[h], rpc);
      if !ok {
        registry.MarkFailed(h);
        FailedIsSettled(h, tensors);
      } else {
        LastShipped(h, record.layerType, tensors);
      }
    }

    lemma FailedIsSettled(h: Hash, tensors: map<Hash, seq<byte>>)
      requires h in registry.records ==> registry.records[h].status == Failed
      ensures Settled(h, tensors)
    {
    }

    lemma LastShipped(h: Hash, layerType: string, tensors: map<Hash, seq<byte>>)
      requires h in tensors && Shipment(h, tensors[h]).Some? && Shipped(layerType) != []
      requires var x := Shipped(layerType)[|Shipped(layerType)| - 1];
        && x.block == Shipment(h, tensors[h]).value
        && (h in registry.records ==> registry.records[h].status == Stored && registry.records[h].vaultKey == x.Key())
      ensures Settled(h, tensors)
    {
      hide VaultKey, Hex;
      var x := Shipped(layerType)[|Shipped(layerType)| - 1];
      assert x in AllShipped();
    }

    /**
     * Whatever fails, in the end every block of the batch is settled, none is left pending for good; and
     * what was settled before stays so. `rpc` says what becomes of each RPC.
     */
    method StoreAll(pending: seq<BlockRecord>, tensors: map<Hash, seq<byte>>, rpc: nat -> Rpc)
      requires Valid()
      modifies registry, kvVault, ssmVault, registry.records.Values, set r | r in pending
      ensures Valid() && registry.records == old(registry.records)
      ensures forall i :: 0 <= i < |pending| ==> Settled(pending[i].blockHash, tensors)
      ensures forall g :: old(Settled(g, tensors)) ==> Settled(g, tensors)
      ensures old(kvVault.history) <= kvVault.history && old(ssmVault.history) <= ssmVault.history
    {
      hide VaultKey, Hex, Agrees, Retain, Distinct, SettledAs, Shipment;
      for i := 0 to |pending|
        invariant Valid() && registry.records == old(registry.records)
        invariant forall j :: 0 <= j < i ==> Settled(pending[j].blockHash, tensors)
        invariant forall g :: old(Settled(g, tensors)) ==> Settled(g, tensors)
        invariant old(kvVault.history) <= kvVault.history && old(ssmVault.history) <= ssmVault.history
      {
        ghost var before := AllShipped();
        ghost var done := set g | g in registry.records && Settled(g, tensors);
        var _ := StoreOrFail(pending[i], tensors, rpc(i));
        forall g | g in done ensures Settled(g, tensors) {
          if g != pending[i].blockHash {
            StaysSettled(g, registry.records[g].status, registry.records[g].vaultKey, tensors, before, AllShipped());
          }
        }
        forall g | g !in registry.records ensures Settled(g, tensors) {}
      }
    }
  }
}
