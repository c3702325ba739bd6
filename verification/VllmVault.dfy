/**
 * The vLLM cold vault: a bounded in-memory block store with insertion-order eviction.
 * What it holds is specified against the history of all stores since the last flush.
 */
module VllmVault {
  import opened Common
  import opened VaultKeys

  datatype Block = Block(hashHex: string, payload: seq<byte>, quantized: bool)

  /** What a promotion answers for a key that is not held. */
  const MISSING := Block("", [], false)

  /** One entry of the insertion-order queue. */
  datatype QueueEntry = QueueEntry(key: string, size: nat)

  /** One store that has been pushed on the queue: the counter value it drew and its block. */
  datatype StoredBlock = StoredBlock(seqNo: nat, block: Block) {
    function Key(): string { VaultKey(block.hashHex, seqNo) }
    function Size(): nat { |block.payload| }
    function Entry(): QueueEntry { QueueEntry(Key(), Size()) }
  }

  function Bytes(h: seq<StoredBlock>): nat {
    if h == [] then 0 else h[0].Size() + Bytes(h[1..])
  }

  function Entries(h: seq<StoredBlock>): seq<QueueEntry> {
    seq(|h|, i requires 0 <= i < |h| => h[i].Entry())
  }

  ghost function Keys(h: seq<StoredBlock>): set<string> {
    set x | x in h :: x.Key()
  }

  ghost predicate Distinct(h: seq<StoredBlock>) {
    forall i, j :: 0 <= i < j < |h| ==> h[i].seqNo != h[j].seqNo
  }

  /** `0` means no limit; otherwise drop from the front until the rest fits. */
  function Retain(h: seq<StoredBlock>, max: nat): seq<StoredBlock> {
    if max == 0 || Bytes(h) <= max then h else Retain(h[1..], max)
  }

  lemma {:induction false} BytesAppend(h: seq<StoredBlock>, x: StoredBlock)
    ensures Bytes(h + [x]) == Bytes(h) + x.Size()
  {
    if h == [] {
      assert h + [x] == [x];
    } else {
      assert (h + [x])[1..] == h[1..] + [x];
      BytesAppend(h[1..], x);
    }
  }

  /** `Retain` is the longest suffix that fits: every longer one is over the limit. */
  lemma {:induction false} RetainIsLongestFittingSuffix(h: seq<StoredBlock>, max: nat)
    ensures |Retain(h, max)| <= |h| && Retain(h, max) == h[|h| - |Retain(h, max)|..]
    ensures max == 0 ==> Retain(h, max) == h
    ensures max > 0 ==> Bytes(Retain(h, max)) <= max
    ensures max > 0 ==> forall j :: 0 <= j < |h| - |Retain(h, max)| ==> Bytes(h[j..]) > max
  {
    if max > 0 && Bytes(h) > max {
      RetainIsLongestFittingSuffix(h[1..], max);
      var r := Retain(h, max);
      forall j | 0 <= j < |h| - |r| ensures Bytes(h[j..]) > max {
        if j == 0 {
          assert h[0..] == h;
        } else {
          assert h[j..] == h[1..][j - 1..];
        }
      }
    }
  }

  /** Evicting after every store comes to the same as evicting once at the end. */
  lemma {:induction false} RetainIncremental(h: seq<StoredBlock>, x: StoredBlock, max: nat)
    ensures Retain(Retain(h, max) + [x], max) == Retain(h + [x], max)
  {
    if max > 0 && Bytes(h) > max {
      BytesAppend(h, x);
      assert (h + [x])[1..] == h[1..] + [x];
      RetainIncremental(h[1..], x, max);
    }
  }

  lemma DistinctKeys(h: seq<StoredBlock>)
    requires Distinct(h)
    ensures forall i, j :: 0 <= i < j < |h| ==> h[i].Key() != h[j].Key()
  {
    forall i, j | 0 <= i < j < |h| ensures h[i].Key() != h[j].Key() {
      if h[i].Key() == h[j].Key() {
        VaultKeyInjective(h[i].block.hashHex, h[i].seqNo, h[j].block.hashHex, h[j].seqNo);
      }
    }
  }

  /** Dropping the oldest entry takes exactly its key out of the key set. */
  lemma KeysDropFirst(h: seq<StoredBlock>)
    requires Distinct(h) && h != []
    ensures Keys(h[1..]) == Keys(h) - {h[0].Key()}
  {
    DistinctKeys(h);
    forall x | x in h[1..] ensures x.Key() != h[0].Key() {
      var j :| 0 <= j < |h[1..]| && h[1..][j] == x;
      assert h[j + 1] == x;
    }
    forall k | k in Keys(h) - {h[0].Key()} ensures k in Keys(h[1..]) {
      var x :| x in h && x.Key() == k;
      assert x != h[0];
      assert x in h[1..];
    }
  }

  /** The three containers tell the same story: exactly the stores in `live`, oldest first. */
  ghost predicate Agrees(store: map<string, Block>, order: seq<QueueEntry>, bytes: int, live: seq<StoredBlock>) {
    && order == Entries(live)
    && bytes == Bytes(live)
    && store.Keys == Keys(live)
    && forall x :: x in live ==> x.Key() in store && store[x.Key()] == x.block
  }

  lemma FreshKey(h: seq<StoredBlock>, x: StoredBlock)
    requires forall y :: y in h ==> y.seqNo != x.seqNo
    ensures x.Key() !in Keys(h)
    ensures Keys(h + [x]) == Keys(h) + {x.Key()}
  {
    if x.Key() in Keys(h) {
      var y :| y in h && y.Key() == x.Key();
      VaultKeyInjective(x.block.hashHex, x.seqNo, y.block.hashHex, y.seqNo);
    }
    forall k | k in Keys(h) + {x.Key()} ensures k in Keys(h + [x]) {
      if k == x.Key() {
        assert x in h + [x];
      } else {
        var y :| y in h && y.Key() == k;
        assert y in h + [x];
      }
    }
  }

  lemma AgreesPush(store: map<string, Block>, order: seq<QueueEntry>, bytes: int, live: seq<StoredBlock>, x: StoredBlock)
    requires Agrees(store, order, bytes, live)
    requires forall y :: y in live ==> y.seqNo != x.seqNo
    ensures x.Key() !in store
    ensures Agrees(store[x.Key() := x.block], order + [x.Entry()], bytes + x.Size(), live + [x])
  {
    FreshKey(live, x);
    BytesAppend(live, x);
    forall y | y in live ensures y.Key() != x.Key() {
      assert y.Key() in Keys(live);
    }
  }

  lemma AgreesPop(store: map<string, Block>, order: seq<QueueEntry>, bytes: int, live: seq<StoredBlock>)
    requires Agrees(store, order, bytes, live) && Distinct(live) && live != []
    ensures order[0] == live[0].Entry() && order[0].key in store
    ensures Agrees(store - {order[0].key}, order[1..], bytes - order[0].size, live[1..])
  {
    assert order[0] == live[0].Entry();
    KeysDropFirst(live);
    assert live[0] in live;
    forall y | y in live[1..] ensures y in live && y.Key() != live[0].Key() {
      assert y.Key() in Keys(live[1..]);
    }
  }

  lemma AgreesEmpty(store: map<string, Block>, order: seq<QueueEntry>, bytes: int, live: seq<StoredBlock>)
    requires Agrees(store, order, bytes, live) && bytes > 0
    ensures order != [] && live != []
  {
  }

  /** What one store brings about, before and after eviction. */
  lemma StorePushed(store: map<string, Block>, order: seq<QueueEntry>, bytes: int,
                    history: seq<StoredBlock>, x: StoredBlock, max: nat)
    requires Agrees(store, order, bytes, Retain(history, max))
    requires Distinct(history) && forall y :: y in history ==> y.seqNo < x.seqNo
    ensures Distinct(history + [x]) && forall y :: y in history + [x] ==> y.seqNo < x.seqNo + 1
    ensures x.Key() !in store
    ensures var live := Retain(history, max) + [x];
      && Agrees(store[x.Key() := x.block], order + [x.Entry()], bytes + x.Size(), live)
      && Distinct(live)
      && Retain(live, max) == Retain(history + [x], max)
      && (max == 0 || bytes + x.Size() <= max ==> Retain(live, max) == live)
  {
    hide Agrees, Retain, Bytes, VaultKey, Entries;
    RetainIsLongestFittingSuffix(history, max);
    RetainIncremental(history, x, max);
    var held := Retain(history, max);
    SuffixAppend(history, |history| - |held|, x);
    AgreesPush(store, order, bytes, held, x);
    FitsWhole(store[x.Key() := x.block], order + [x.Entry()], bytes + x.Size(), held + [x], max);
  }

  lemma SuffixAppend(h: seq<StoredBlock>, i: nat, x: StoredBlock)
    requires i <= |h| && Distinct(h) && forall y :: y in h ==> y.seqNo < x.seqNo
    ensures Distinct(h + [x]) && Distinct(h[i..] + [x])
    ensures forall y :: y in h[i..] ==> y in h && y.seqNo != x.seqNo
    ensures forall y :: y in h + [x] ==> y.seqNo < x.seqNo + 1
  {
  }

  lemma FitsWhole(store: map<string, Block>, order: seq<QueueEntry>, bytes: int, live: seq<StoredBlock>, max: nat)
    requires Agrees(store, order, bytes, live)
    ensures max == 0 || bytes <= max ==> Retain(live, max) == live
  {
    hide VaultKey, Entries, Bytes;
  }

  /** To whoever only sees the store, storing a block is adding it and then dropping some keys. */
  lemma StoreIsAddThenDrop(store: map<string, Block>, order: seq<QueueEntry>, bytes: int, history: seq<StoredBlock>, x: StoredBlock, max: nat,
                           store': map<string, Block>, order': seq<QueueEntry>, bytes': int)
    requires Agrees(store, order, bytes, Retain(history, max))
    requires Distinct(history) && forall y :: y in history ==> y.seqNo < x.seqNo
    requires Agrees(store', order', bytes', Retain(history + [x], max))
    ensures store' == store[x.Key() := x.block] - (store.Keys + {x.Key()} - store'.Keys)
  {
    hide Agrees, Retain, Bytes, VaultKey, Distinct;
    StorePushed(store, order, bytes, history, x, max);
    var live := Retain(history, max) + [x];
    RetainIsLongestFittingSuffix(live, max);
    StoreOfFewer(store[x.Key() := x.block], order + [x.Entry()], bytes + x.Size(), live, store', order', bytes', Retain(live, max));
  }

  lemma StoreOfFewer(store: map<string, Block>, order: seq<QueueEntry>, bytes: int, live: seq<StoredBlock>,
                     store': map<string, Block>, order': seq<QueueEntry>, bytes': int, kept: seq<StoredBlock>)
    requires Agrees(store, order, bytes, live) && Agrees(store', order', bytes', kept)
    requires forall y :: y in kept ==> y in live
    ensures store' == store - (store.Keys - store'.Keys)
  {
    hide VaultKey, Bytes, Entries;
    forall k | k in store' ensures k in store && store'[k] == store[k] {
      var y :| y in kept && y.Key() == k;
      assert y in live;
    }
  }

  class VllmColdVault {
    const maxBytes: nat
    var store: map<string, Block>
    var order: seq<QueueEntry>
    var currentBytes: nat
    var counter: nat
    /** Every store since the last flush, oldest first. */
    ghost var history: seq<StoredBlock>

    ghost function Held(): seq<StoredBlock> reads this { Retain(history, maxBytes) }

    /** The containers agree, and hold the longest suffix of the history that fits. */
    ghost predicate Valid() reads this {
      && Agrees(store, order, currentBytes, Held())
      && Distinct(history)
      && forall x :: x in history ==> x.seqNo < counter
    }

    constructor (maxBytes: nat)
      ensures Valid() && this.maxBytes == maxBytes && history == [] && counter == 0
    {
      this.maxBytes := maxBytes;
      store, order, currentBytes, counter := map[], [], 0, 0;
      history := [];
    }

    /** Pops the queue until the total fits again; the queue cannot run dry before it does. */
    method EvictOldest(ghost live: seq<StoredBlock>)
      requires Agrees(store, order, currentBytes, live) && Distinct(live) && maxBytes > 0
      modifies this`store, this`order, this`currentBytes
      ensures Agrees(store, order, currentBytes, Retain(live, maxBytes)) && currentBytes <= maxBytes
    {
      ghost var rest := live;
      while currentBytes > maxBytes
        invariant Agrees(store, order, currentBytes, rest) && Distinct(rest)
        invariant Retain(rest, maxBytes) == Retain(live, maxBytes)
        decreases |order|
      {
        AgreesEmpty(store, order, currentBytes, rest);
        if |order| == 0 {
          break;
        }
        AgreesPop(store, order, currentBytes, rest);
        var oldest := order[0];
        order := order[1..];
        if oldest.key in store {
          store := store - {oldest.key};
          currentBytes := currentBytes - oldest.size;
        }
        rest := rest[1..];
      }
    }

    method StoreBlock(hashHex: string, payload: seq<byte>, quantized: bool) returns (key: string)
      requires Valid()
      modifies this
      ensures Valid()
      ensures counter == old(counter) + 1
      ensures key == VaultKey(hashHex, old(counter)) && key !in old(store)
      ensures history == old(history) + [StoredBlock(old(counter), Block(hashHex, payload, quantized))]
      ensures maxBytes > 0 ==> currentBytes <= maxBytes
    {
      hide Agrees, Retain, VaultKey, Distinct;
      var seqNo := counter;
      counter := counter + 1;
      key := VaultKey(hashHex, seqNo);
      var size := |payload|;
      ghost var x := StoredBlock(seqNo, Block(hashHex, payload, quantized));
      ghost var live := Held() + [x];
      StorePushed(store, order, currentBytes, history, x, maxBytes);

      store := store[key := Block(hashHex, payload, quantized)];
      order := order + [QueueEntry(key, size)];
      currentBytes := currentBytes + size;
      history := history + [x];

      if maxBytes > 0 && currentBytes > maxBytes {
        EvictOldest(live);
      }
    }

    /** Non-destructive; one answer for each key, in the order asked. */
    method BatchPromote(keys: seq<string>) returns (blocks: seq<Block>)
      requires Valid()
      ensures |blocks| == |keys|
      ensures forall i :: 0 <= i < |keys| ==>
        blocks[i] == if keys[i] in store then store[keys[i]] else MISSING
    {
      blocks := [];
      for i := 0 to |keys|
        invariant |blocks| == i
        invariant forall j :: 0 <= j < i ==>
          blocks[j] == if keys[j] in store then store[keys[j]] else MISSING
      {
        if keys[i] in store {
          blocks := blocks + [store[keys[i]]];
        } else {
          blocks := blocks + [MISSING];
        }
      }
    }

    /** Empties the vault but keeps the counter, so keys from before a flush are never reused. */
    method Flush() returns (flushed: nat)
      requires Valid()
      modifies this
      ensures Valid()
      ensures history == [] && store == map[] && order == [] && currentBytes == 0
      ensures counter == old(counter) && flushed == old(Bytes(Held()))
    {
      flushed := currentBytes;
      store := map[];
      order := [];
      currentBytes := 0;
      history := [];
    }
  }
}
