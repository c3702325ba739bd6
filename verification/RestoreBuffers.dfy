/**
 * The decode buffers of the restore handler. Restored blocks are handed out as views into buffers of a
 * pre-allocated pool; once the pool is used up, every block gets a buffer of its own.
 */
module RestoreBuffers {
  import opened Common
  import opened TurboQuant
  import opened TurboQuantLoops

  const POOL_CAPACITY := 40

  /** One fetched block together with its record's fields. */
  datatype Fetched = Fetched(hash: Hash, numTokens: nat, payload: seq<Byte>, quantized: bool, tampered: bool)

  /** A restored tensor: a view of the first `len` bytes of a buffer, or the payload itself. */
  datatype Tensor =
    | View(buf: array<Byte>, len: nat)
    | Raw(bytes: seq<Byte>)

  datatype Restored = Restored(hash: Hash, tensor: Tensor, numTokens: nat)

  /** A schedule in which every lane of every group is written; the real one is up to the thread pool. */
  method AnySchedule(groups: nat, dim: nat) returns (s: seq<Write>)
    ensures Covers(s, groups, dim)
  {
    s := [];
    for g := 0 to groups
      invariant forall w :: w in s ==> w.group < groups && w.lane < dim
      invariant forall h, l :: 0 <= h < g && 0 <= l < dim ==> Write(h, l) in s
    {
      for lane := 0 to dim
        invariant forall w :: w in s ==> w.group < groups && w.lane < dim
        invariant forall h, l :: 0 <= h < g && 0 <= l < dim ==> Write(h, l) in s
        invariant forall l :: 0 <= l < lane ==> Write(g, l) in s
      {
        s := s + [Write(g, lane)];
      }
    }
  }

  /** `TurboQuant.decode_into`. */
  method DecodeInto(payload: seq<Byte>, dim: nat, out: array<Byte>) returns (r: Result<nat>)
    requires dim > 0
    modifies out
    ensures r.Ok? ==> Decode(payload, dim).Ok? && r.value == |Decode(payload, dim).value| <= out.Length
    ensures r.Ok? ==> out[..r.value] == Decode(payload, dim).value
    ensures Decode(payload, dim).Ok? && |Decode(payload, dim).value| <= out.Length ==> r.Ok?
  {
    hide DecodedChunks, F32ToBytes, Covers, DecodedSize;
    var schedule := AnySchedule(|payload| / (4 + dim), dim);
    r := DecodeGroupedInto(payload, dim, out, schedule);
    DecodedSizeIsExact(payload, dim);
  }

  /** A buffer no earlier result looks at. */
  ghost predicate Unused(buf: array<Byte>, issued: set<array<Byte>>) { buf !in issued }

  class RestoreHandler {
    const groupSize: nat
    const turboQuant: bool
    /** The size of each pool buffer. */
    const prewarm: nat
    const pool: seq<array<Byte>>
    var poolIdx: nat
    /** Every buffer a result has ever been a view of. */
    ghost var issued: set<array<Byte>>

    ghost predicate Valid() reads this {
      && groupSize > 0
      && poolIdx <= |pool|
      && (forall i, j :: 0 <= i < j < |pool| ==> pool[i] != pool[j])
      && (forall i :: poolIdx <= i < |pool| ==> Unused(pool[i], issued))
      && (forall i :: 0 <= i < |pool| ==> pool[i].Length == prewarm)
    }

    /** The pool buffers that have not been handed out. */
    ghost function Free(): set<array<Byte>> reads this {
      if poolIdx <= |pool| then set i | poolIdx <= i < |pool| :: pool[i] else {}
    }

    /** Without quantisation there is no pool. */
    constructor (groupSize: nat, turboQuant: bool, prewarm: nat)
      requires groupSize > 0
      ensures Valid() && issued == {} && this.turboQuant == turboQuant && this.groupSize == groupSize
      ensures |pool| == (if turboQuant then POOL_CAPACITY else 0) && poolIdx == 0 && this.prewarm == prewarm
      ensures forall i :: 0 <= i < |pool| ==> fresh(pool[i])
    {
      var bufs: seq<array<Byte>> := [];
      var n := if turboQuant then POOL_CAPACITY else 0;
      for k := 0 to n
        invariant |bufs| == k
        invariant forall i :: 0 <= i < k ==> fresh(bufs[i]) && bufs[i].Length == prewarm
        invariant forall i, j :: 0 <= i < j < k ==> bufs[i] != bufs[j]
      {
        var b := new Byte[prewarm](_ => Byte.Raw(0));
        bufs := bufs + [b];
      }
      this.groupSize, this.turboQuant, this.prewarm, pool, poolIdx := groupSize, turboQuant, prewarm, bufs, 0;
      issued := {};
    }

    /** What a block is restored to. */
    ghost predicate Holds(f: Fetched, r: Restored)
      requires groupSize > 0
      reads if r.tensor.View? then {r.tensor.buf} else {}
    {
      && r.hash == f.hash && r.numTokens == f.numTokens
      && match r.tensor
         case Raw(bytes) => bytes == f.payload && !(f.quantized && turboQuant)
         case View(buf, len) =>
           && f.quantized && turboQuant && Decode(f.payload, groupSize).Ok?
           && len <= buf.Length && buf[..len] == Decode(f.payload, groupSize).value
    }

    /** A quantised block is decoded, if decoding is switched on; others are passed through. */
    predicate IsDecoded(f: Fetched) { f.quantized && turboQuant }

    /** How large a buffer the block gets when `idx` pool buffers are gone; `None` for one made to measure. */
    function Capacity(f: Fetched, idx: nat): Option<nat> {
      if IsDecoded(f) && idx < |pool| then Some(prewarm) else None
    }

    /** Exactly when a block can be restored. */
    predicate Restorable(f: Fetched, capacity: Option<nat>)
      requires groupSize > 0
    {
      && !f.tampered
      && (IsDecoded(f) ==>
        && Decode(f.payload, groupSize).Ok?
        && (capacity.Some? ==> |Decode(f.payload, groupSize).value| <= capacity.value))
    }

    /** How many pool buffers are gone after these blocks, whether they could be restored or not. */
    function IdxAfter(fs: seq<Fetched>, idx: nat): nat {
      if fs == [] then idx else
        var before := IdxAfter(fs[..|fs| - 1], idx);
        if IsDecoded(fs[|fs| - 1]) && before < |pool| then before + 1 else before
    }

    /** Each of these blocks can be restored, one after the other. */
    predicate AllRestorable(fs: seq<Fetched>, idx: nat)
      requires groupSize > 0
    {
      forall i :: 0 <= i < |fs| ==> Restorable(fs[i], Capacity(fs[i], IdxAfter(fs[..i], idx)))
    }

    /** How many of these blocks are decoded. */
    function Decodings(fs: seq<Fetched>): nat {
      if fs == [] then 0 else Decodings(fs[..|fs| - 1]) + if IsDecoded(fs[|fs| - 1]) then 1 else 0
    }

    lemma {:induction false} IdxIsCount(fs: seq<Fetched>, idx: nat)
      requires idx <= |pool|
      ensures IdxAfter(fs, idx) == Min(|pool|, idx + Decodings(fs))
    {
      if fs != [] {
        IdxIsCount(fs[..|fs| - 1], idx);
      }
    }

    /**
     * A sound block that decodes to more than a pool buffer holds raises as long as the pool lasts, and
     * is restored once as many blocks have been decoded as there were buffers.
     */
    lemma OversizedNeedsEmptyPool(before: seq<Fetched>, f: Fetched)
      requires groupSize > 0 && IsDecoded(f) && !f.tampered
      requires Decode(f.payload, groupSize).Ok? && |Decode(f.payload, groupSize).value| > prewarm
      ensures Restorable(f, Capacity(f, IdxAfter(before, 0))) <==> Decodings(before) >= |pool|
    {
      IdxIsCount(before, 0);
      hide Decode;
    }

    lemma AllRestorableStep(fs: seq<Fetched>, f: Fetched, idx: nat)
      requires groupSize > 0
      ensures AllRestorable(fs + [f], idx) <==> AllRestorable(fs, idx) && Restorable(f, Capacity(f, IdxAfter(fs, idx)))
      ensures IdxAfter(fs + [f], idx) ==
        if IsDecoded(f) && IdxAfter(fs, idx) < |pool| then IdxAfter(fs, idx) + 1 else IdxAfter(fs, idx)
    {
      hide Restorable, Decode;
      var all := fs + [f];
      assert all[..|fs|] == fs;
      forall i | 0 <= i < |fs| ensures all[..i] == fs[..i] && all[i] == fs[i] {}
      if AllRestorable(all, idx) {
        assert Restorable(all[|fs|], Capacity(all[|fs|], IdxAfter(all[..|fs|], idx)));
        forall i | 0 <= i < |fs| ensures Restorable(fs[i], Capacity(fs[i], IdxAfter(fs[..i], idx))) {
          assert Restorable(all[i], Capacity(all[i], IdxAfter(all[..i], idx)));
        }
      }
    }

    lemma NothingToRestore(idx: nat)
      requires groupSize > 0
      ensures NonEmpty([]) == [] && AllRestorable([], idx) && IdxAfter([], idx) == idx
    {
    }

    lemma NothingRestored(idx: nat)
      requires groupSize > 0
      ensures Kept([], []) == [] && Flatten([]) == [] && IdxAfter([], idx) == idx
      ensures AllHold([], []) && Exclusive([])
    {
    }

    lemma OneMoreIdx(fs: seq<Fetched>, f: Fetched, idx: nat)
      ensures IdxAfter(fs + [f], idx) == IdxAfter([f], IdxAfter(fs, idx))
    {
      IdxAfterConcat(fs, [f], idx);
    }

    lemma {:induction false} IdxAfterConcat(a: seq<Fetched>, b: seq<Fetched>, idx: nat)
      ensures IdxAfter(a + b, idx) == IdxAfter(b, IdxAfter(a, idx))
    {
      if b == [] {
        assert a + b == a;
      } else {
        assert (a + b)[..|a + b| - 1] == a + b[..|b| - 1];
        IdxAfterConcat(a, b[..|b| - 1], idx);
      }
    }

    /** The next pool buffer, if the block is to be decoded and there is one left. */
    method AssignPool(f: Fetched) returns (buf: array?<Byte>)
      requires Valid()
      modifies this
      ensures Valid() && Free() <= old(Free())
      ensures buf == null ==> issued == old(issued) && poolIdx == old(poolIdx)
      ensures buf == null <==> Capacity(f, old(poolIdx)) == None
      ensures buf != null ==> buf == pool[old(poolIdx)] && poolIdx == old(poolIdx) + 1
      ensures buf != null ==> buf in old(Free()) && buf !in Free() && buf !in old(issued) && issued == old(issued) + {buf}
    {
      if f.quantized && turboQuant && poolIdx < |pool| {
        buf := pool[poolIdx];
        poolIdx := poolIdx + 1;
        issued := issued + {pool[poolIdx - 1]};
      } else {
        buf := null;
      }
    }

    /** One block; `Err` stands for the exceptions: a hash mismatch, a bad length, or a pool buffer too small. */
    method DecodeOne(f: Fetched, poolBuf: array?<Byte>) returns (r: Result<Restored>)
      requires Valid() && (poolBuf != null ==> poolBuf in issued && poolBuf !in Free())
      modifies this`issued, if poolBuf != null then {poolBuf} else {}
      ensures Valid() && Free() == old(Free()) && old(issued) <= issued
      ensures forall b :: b in issued && b !in old(issued) ==> fresh(b)
      ensures r.Ok? <==> Restorable(f, if poolBuf != null then Some(poolBuf.Length) else None)
      ensures r.Ok? ==> Holds(f, r.value)
      ensures r.Ok? && r.value.tensor.View? ==> r.value.tensor.buf in issued && r.value.tensor.buf !in Free()
      ensures r.Ok? && r.value.tensor.View? ==> r.value.tensor.buf == poolBuf || fresh(r.value.tensor.buf)
    {
      hide Decode, DecodedSize;
      if f.tampered {
        return Err;
      }
      if f.quantized && turboQuant {
        var size := DecodedSize(|f.payload|, groupSize);
        DecodedSizeIsExact(f.payload, groupSize);
        if size.Err? {
          return Err;
        }
        var buf: array<Byte>;
        if poolBuf != null {
          buf := poolBuf;
        } else {
          buf := new Byte[size.value](_ => Byte.Raw(0));
          issued := issued + {buf};
        }
        var written := DecodeInto(f.payload, groupSize, buf);
        if written.Err? {
          return Err;
        }
        r := Ok(Restored(f.hash, View(buf, written.value), f.numTokens));
      } else {
        r := Ok(Restored(f.hash, Tensor.Raw(f.payload), f.numTokens));
      }
    }

    ghost predicate AllHold(fs: seq<Fetched>, rs: seq<Restored>)
      requires groupSize > 0
      reads set i | 0 <= i < |rs| && rs[i].tensor.View? :: rs[i].tensor.buf
    {
      |fs| == |rs| && forall i :: 0 <= i < |rs| ==> Holds(fs[i], rs[i])
    }

    /** The buffers results are views of have been handed out, each to one result. */
    ghost predicate Exclusive(rs: seq<Restored>) reads this {
      && (forall i :: 0 <= i < |rs| && rs[i].tensor.View? ==> rs[i].tensor.buf in issued)
      && (forall i, j :: 0 <= i < j < |rs| && rs[i].tensor.View? && rs[j].tensor.View? ==>
          rs[i].tensor.buf != rs[j].tensor.buf)
    }

    /** One block after the others: it gets a buffer nobody has, and theirs keep their bytes. */
    method RestoreOne(f: Fetched, ghost fs: seq<Fetched>, ghost rs: seq<Restored>) returns (r: Result<Restored>)
      requires Valid() && AllHold(fs, rs) && Exclusive(rs)
      modifies this, Free()
      ensures Valid() && Free() <= old(Free()) && old(issued) <= issued
      ensures forall b :: b in old(issued) ==> b[..] == old(b[..])
      ensures forall b :: b in issued && b !in old(issued) ==> b in old(Free()) || fresh(b)
      ensures AllHold(fs, rs) && Exclusive(rs)
      ensures r.Ok? <==> Restorable(f, Capacity(f, old(poolIdx)))
      ensures poolIdx == IdxAfter([f], old(poolIdx))
      ensures r.Ok? ==> AllHold(fs + [f], rs + [r.value]) && Exclusive(rs + [r.value])
      ensures r.Ok? && r.value.tensor.View? ==> r.value.tensor.buf !in old(issued)
    {
      hide Decode, Restorable;
      assert [f][..0] == [];
      var buf := AssignPool(f);
      r := DecodeOne(f, buf);
    }

    /**
     * `execute`, after the fetches: every block that came back with a payload is restored, unless one of
     * them cannot be. Whatever was restored by earlier calls (`rs`, from `fs`) keeps its bytes, and no
     * buffer is shared.
     */
    method Execute(blocks: seq<Fetched>, ghost fs: seq<Fetched>, ghost rs: seq<Restored>) returns (r: Result<seq<Restored>>)
      requires Valid() && AllHold(fs, rs) && Exclusive(rs)
      modifies this, Free()
      ensures Valid() && Free() <= old(Free())
      ensures forall b :: b in old(issued) ==> b[..] == old(b[..])
      ensures forall b :: b in issued && b !in old(issued) ==> b in old(Free()) || fresh(b)
      ensures AllHold(fs, rs) && Exclusive(rs) && old(issued) <= issued
      ensures r.Ok? <==> AllRestorable(NonEmpty(blocks), old(poolIdx))
      ensures poolIdx == IdxAfter(NonEmpty(blocks), old(poolIdx))
      ensures r.Ok? ==> AllHold(fs + NonEmpty(blocks), rs + r.value) && Exclusive(rs + r.value)
    {
      hide Decode, Restorable, AllRestorable, IdxAfter, NonEmpty, AllHold, Exclusive, Holds, Capacity;
      NothingToRestore(poolIdx);
      SameCount(fs, rs);
      var results: seq<Restored> := [];
      var failed := false;
      ghost var done: seq<Fetched> := [];
      assert fs + [] == fs && rs + [] == rs;
      assert blocks[..0] == [];
      for i := 0 to |blocks|
        invariant Valid() && Free() <= old(Free()) && old(issued) <= issued
        invariant forall b :: b in old(issued) ==> b[..] == old(b[..])
        invariant forall b :: b in issued && b !in old(issued) ==> b in old(Free()) || fresh(b)
        invariant AllHold(fs + done, rs + results) && Exclusive(rs + results)
        invariant !failed <==> AllRestorable(NonEmpty(blocks[..i]), old(poolIdx))
        invariant !failed ==> done == NonEmpty(blocks[..i])
        invariant poolIdx == IdxAfter(NonEmpty(blocks[..i]), old(poolIdx))
      {
        NonEmptyStep(blocks, i);
        if blocks[i].payload == [] {
          continue;
        }
        AllRestorableStep(NonEmpty(blocks[..i]), blocks[i], old(poolIdx));
        OneMoreIdx(NonEmpty(blocks[..i]), blocks[i], old(poolIdx));
        var one := RestoreOne(blocks[i], fs + done, rs + results);
        if one.Err? {
          failed := true;
        } else {
          assert fs + (done + [blocks[i]]) == fs + done + [blocks[i]];
          assert rs + (results + [one.value]) == rs + results + [one.value];
          done := done + [blocks[i]];
          results := results + [one.value];
        }
      }
      assert blocks[..|blocks|] == blocks;
      HoldPrefix(fs, done, rs, results);
      r := if failed then Err else Ok(results);
    }

    lemma SameCount(fs: seq<Fetched>, rs: seq<Restored>)
      requires groupSize > 0 && AllHold(fs, rs)
      ensures |fs| == |rs|
    {
    }

    lemma HoldPrefix(fs: seq<Fetched>, gs: seq<Fetched>, rs: seq<Restored>, ss: seq<Restored>)
      requires groupSize > 0 && |fs| == |rs| && AllHold(fs + gs, rs + ss) && Exclusive(rs + ss)
      ensures AllHold(fs, rs) && Exclusive(rs)
    {
      var fa, ra := fs + gs, rs + ss;
      forall i | 0 <= i < |rs| ensures Holds(fs[i], rs[i]) {
        assert Holds(fa[i], ra[i]);
      }
      forall i | 0 <= i < |rs| ensures ra[i] == rs[i] {}
    }

    /** Any sequence of calls: at the end every result of every call that did not raise still holds what it was restored to. */
    method ExecuteMany(plans: seq<seq<Fetched>>) returns (all: seq<Restored>, ok: seq<bool>)
      requires Valid()
      modifies this, Free()
      ensures Valid() && |ok| == |plans| && AllHold(Kept(plans, ok), all) && Exclusive(all)
      ensures forall k :: 0 <= k < |plans| ==>
        (ok[k] <==> AllRestorable(NonEmpty(plans[k]), IdxAfter(Flatten(plans[..k]), old(poolIdx))))
      ensures forall b :: b in old(issued) ==> b[..] == old(b[..])
    {
      hide Decode, Restorable, AllRestorable, NonEmpty, AllHold, Exclusive, Holds, IdxAfter, Capacity, Kept, Flatten;
      NothingRestored(poolIdx);
      all, ok := [], [];
      assert plans[..0] == [];
      for k := 0 to |plans|
        invariant Valid() && Free() <= old(Free()) && old(issued) <= issued && |ok| == k
        invariant AllHold(Kept(plans[..k], ok), all) && Exclusive(all)
        invariant poolIdx == IdxAfter(Flatten(plans[..k]), old(poolIdx))
        invariant forall j :: 0 <= j < k ==>
          (ok[j] <==> AllRestorable(NonEmpty(plans[j]), IdxAfter(Flatten(plans[..j]), old(poolIdx))))
        invariant forall b :: b in old(issued) ==> b[..] == old(b[..])
      {
        FlattenStep(plans, k);
        IdxAfterConcat(Flatten(plans[..k]), NonEmpty(plans[k]), old(poolIdx));
        var r := Execute(plans[k], Kept(plans[..k], ok), all);
        KeptStep(plans, k, ok, r.Ok?);
        ok := ok + [r.Ok?];
        if r.Ok? {
          all := all + r.value;
        }
      }
      assert plans[..|plans|] == plans;
    }
  }

  /** All blocks that came back with a payload in these calls. */
  function Flatten(plans: seq<seq<Fetched>>): seq<Fetched> {
    if plans == [] then [] else Flatten(plans[..|plans| - 1]) + NonEmpty(plans[|plans| - 1])
  }

  lemma FlattenStep(plans: seq<seq<Fetched>>, k: nat)
    requires k < |plans|
    ensures Flatten(plans[..k + 1]) == Flatten(plans[..k]) + NonEmpty(plans[k])
  {
    assert plans[..k + 1][..k] == plans[..k];
  }

  lemma NonEmptyStep(blocks: seq<Fetched>, i: nat)
    requires i < |blocks|
    ensures NonEmpty(blocks[..i + 1]) == if blocks[i].payload == [] then NonEmpty(blocks[..i]) else NonEmpty(blocks[..i]) + [blocks[i]]
  {
    assert blocks[..i + 1][..i] == blocks[..i];
    assert NonEmpty(blocks[..i]) + [] == NonEmpty(blocks[..i]);
  }

  /** The blocks restored by the calls that did not raise. */
  function Kept(plans: seq<seq<Fetched>>, ok: seq<bool>): seq<Fetched>
    requires |plans| == |ok|
  {
    if plans == [] then [] else
      var n := |plans| - 1;
      Kept(plans[..n], ok[..n]) + if ok[n] then NonEmpty(plans[n]) else []
  }

  lemma KeptStep(plans: seq<seq<Fetched>>, k: nat, ok: seq<bool>, b: bool)
    requires k < |plans| && |ok| == k
    ensures Kept(plans[..k + 1], ok + [b]) == if b then Kept(plans[..k], ok) + NonEmpty(plans[k]) else Kept(plans[..k], ok)
  {
    assert plans[..k + 1][..k] == plans[..k] && (ok + [b])[..k] == ok;
  }

  /** Blocks the vault answered with nothing are passed over. */
  function NonEmpty(blocks: seq<Fetched>): seq<Fetched> {
    if blocks == [] then [] else
      NonEmpty(blocks[..|blocks| - 1]) + if blocks[|blocks| - 1].payload == [] then [] else [blocks[|blocks| - 1]]
  }
}
