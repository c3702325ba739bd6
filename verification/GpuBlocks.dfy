/**
 * Moving one logical block between the GPU caches and a flat buffer. Every cache has a K plane and a
 * V plane, stored row-major. A list cache keeps one row per block; a paged cache keeps a run of pages.
 */
module GpuBlocks {
  import opened Common

  /** `S` is the storage of one plane: an array on the device, or a sequence when only contents matter. */
  datatype Cache<S> =
    | Absent
    | Pair(k: S, v: S, kRows: nat, kElems: nat, vRows: nat, vElems: nat)
    | Paged(k: S, v: S, pages: nat, pageSize: nat, perToken: nat)

  type Plane = seq<real>

  /** Physical block ids: `primary` for paged caches, `secondary` for list caches. */
  datatype Ids = Ids(primary: nat, secondary: nat) {
    /** Zero means "no secondary id". */
    function ListId(): nat { if secondary != 0 then secondary else primary }
  }

  datatype Standing = Skipped | Live | Raises

  function PagesPerBlock(blockSize: nat, pageSize: nat): nat
    requires pageSize > 0
  {
    Max(1, blockSize / pageSize)
  }

  /** Which caches take part for these ids; both directions ask the same question. */
  function StandingOf<S>(c: Cache<S>, ids: Ids, blockSize: nat): Standing {
    match c
    case Absent => Skipped
    case Pair(_, _, kRows, _, vRows, _) =>
      if ids.ListId() >= kRows then Skipped else if ids.ListId() >= vRows then Raises else Live
    case Paged(_, _, pages, pageSize, _) =>
      if pageSize == 0 then Raises
      else
        var ppb := PagesPerBlock(blockSize, pageSize);
        if ids.primary * ppb + ppb > pages then Skipped else Live
  }

  /** Elements one block occupies in the K plane and in the V plane. */
  function KLen<S>(c: Cache<S>, blockSize: nat): nat {
    match c
    case Absent => 0
    case Pair(_, _, _, kElems, _, _) => kElems
    case Paged(_, _, _, pageSize, perToken) =>
      if pageSize == 0 then 0 else PagesPerBlock(blockSize, pageSize) * (pageSize * perToken)
  }

  function VLen<S>(c: Cache<S>, blockSize: nat): nat {
    if c.Pair? then c.vElems else KLen(c, blockSize)
  }

  /** Which block of the planes the ids name. */
  function BlockId<S>(c: Cache<S>, ids: Ids): nat { if c.Pair? then ids.ListId() else ids.primary }

  function KAt<S>(c: Cache<S>, ids: Ids, blockSize: nat): nat { BlockId(c, ids) * KLen(c, blockSize) }

  function VAt<S>(c: Cache<S>, ids: Ids, blockSize: nat): nat { BlockId(c, ids) * VLen(c, blockSize) }

  /** The planes are as large as their shapes say. */
  predicate Sized(c: Cache<Plane>) {
    match c
    case Absent => true
    case Pair(k, v, kRows, kElems, vRows, vElems) => |k| == kRows * kElems && |v| == vRows * vElems
    case Paged(k, v, pages, pageSize, perToken) =>
      |k| == pages * (pageSize * perToken) && |v| == pages * (pageSize * perToken)
  }

  predicate SameShape<S, T>(c: Cache<S>, d: Cache<T>) {
    match c
    case Absent => d.Absent?
    case Pair(_, _, kRows, kElems, vRows, vElems) =>
      d.Pair? && kRows == d.kRows && kElems == d.kElems && vRows == d.vRows && vElems == d.vElems
    case Paged(_, _, pages, pageSize, perToken) =>
      d.Paged? && pages == d.pages && pageSize == d.pageSize && perToken == d.perToken
  }

  // ---- index arithmetic ----------------------------------------------------------------------

  lemma MulAssoc(a: nat, b: nat, c: nat)
    ensures a * (b * c) == a * b * c
  {
  }

  lemma Distribute(a: nat, b: nat, c: nat)
    ensures (a + b) * c == a * c + b * c
  {
  }

  /** The block a live cache is asked for lies inside both planes. */
  lemma LiveInside(c: Cache<Plane>, ids: Ids, blockSize: nat)
    requires StandingOf(c, ids, blockSize) == Live && Sized(c)
    ensures KAt(c, ids, blockSize) + KLen(c, blockSize) <= |c.k|
    ensures VAt(c, ids, blockSize) + VLen(c, blockSize) <= |c.v|
  {
    match c
    case Pair(_, _, kRows, kElems, vRows, vElems) =>
      var id := ids.ListId();
      Distribute(id, 1, kElems);
      MulMono(id + 1, kRows, kElems);
      Distribute(id, 1, vElems);
      MulMono(id + 1, vRows, vElems);
    case Paged(_, _, pages, pageSize, perToken) =>
      var ppb, e := PagesPerBlock(blockSize, pageSize), pageSize * perToken;
      MulAssoc(ids.primary, ppb, e);
      Distribute(ids.primary * ppb, ppb, e);
      MulMono(ids.primary * ppb + ppb, pages, e);
  }

  /** Distinct block ids name disjoint runs. */
  lemma DistinctBlocksDisjoint(a: nat, b: nat, len: nat)
    requires a != b
    ensures a * len + len <= b * len || b * len + len <= a * len
  {
    Distribute(a, 1, len);
    Distribute(b, 1, len);
    if a < b {
      MulMono(a + 1, b, len);
    } else {
      MulMono(b + 1, a, len);
    }
  }

  // ---- gather --------------------------------------------------------------------------------

  function Slice(p: Plane, at: nat, len: nat): Plane
    requires at + len <= |p|
  {
    p[at..at + len]
  }

  function GatherOne(c: Cache<Plane>, ids: Ids, blockSize: nat): (r: Plane)
    requires Sized(c) && StandingOf(c, ids, blockSize) == Live
    ensures |r| == KLen(c, blockSize) + VLen(c, blockSize)
  {
    LiveInside(c, ids, blockSize);
    Slice(c.k, KAt(c, ids, blockSize), KLen(c, blockSize)) + Slice(c.v, VAt(c, ids, blockSize), VLen(c, blockSize))
  }

  predicate AllSized(caches: seq<Cache<Plane>>) { forall i :: 0 <= i < |caches| ==> Sized(caches[i]) }

  /** All live caches in order; `None` if one of them raises. */
  function Gathered(caches: seq<Cache<Plane>>, ids: Ids, blockSize: nat): Option<Plane>
    requires AllSized(caches)
  {
    if caches == [] then Some([]) else
      var rest := Gathered(caches[1..], ids, blockSize);
      match StandingOf(caches[0], ids, blockSize)
      case Raises => None
      case Skipped => rest
      case Live => if rest.None? then None else Some(GatherOne(caches[0], ids, blockSize) + rest.value)
  }

  predicate SomeLive<S>(caches: seq<Cache<S>>, ids: Ids, blockSize: nat) {
    exists i :: 0 <= i < |caches| && StandingOf(caches[i], ids, blockSize) == Live
  }

  /** The buffer that is stored for a block; `None` marks it failed. */
  function GatherBlock(caches: seq<Cache<Plane>>, ids: Ids, blockSize: nat): Option<Plane>
    requires AllSized(caches)
  {
    if SomeLive(caches, ids, blockSize) then Gathered(caches, ids, blockSize) else None
  }

  // ---- scatter -------------------------------------------------------------------------------

  function Splice(p: Plane, at: nat, data: Plane): (r: Plane)
    requires at + |data| <= |p|
    ensures |r| == |p|
  {
    p[..at] + data + p[at + |data|..]
  }

  /** One cache after scattering into it, where the buffer is read next, and whether an exception got out. */
  datatype Outcome = Outcome(cache: Cache<Plane>, offset: nat, raised: bool)

  function PutK(c: Cache<Plane>, ids: Ids, blockSize: nat, data: Plane): Cache<Plane>
    requires !c.Absent? && KAt(c, ids, blockSize) + |data| <= |c.k|
  {
    c.(k := Splice(c.k, KAt(c, ids, blockSize), data))
  }

  function PutV(c: Cache<Plane>, ids: Ids, blockSize: nat, data: Plane): Cache<Plane>
    requires !c.Absent? && VAt(c, ids, blockSize) + |data| <= |c.v|
  {
    c.(v := Splice(c.v, VAt(c, ids, blockSize), data))
  }

  /** A list cache whose V tensor is too short: K has been written when the exception comes, unless V is empty. */
  function ScatterRaising(c: Cache<Plane>, buf: Plane, offset: nat, ids: Ids, blockSize: nat): Cache<Plane>
    requires Sized(c) && StandingOf(c, ids, blockSize) == Raises
  {
    if c.Paged? || c.vRows == 0 || offset + c.kElems > |buf| then c
    else
      RaisingInside(c, ids, blockSize);
      PutK(c, ids, blockSize, buf[offset..offset + c.kElems])
  }

  lemma RaisingInside(c: Cache<Plane>, ids: Ids, blockSize: nat)
    requires Sized(c) && StandingOf(c, ids, blockSize) == Raises && c.Pair?
    ensures KAt(c, ids, blockSize) + c.kElems <= |c.k|
  {
    Distribute(ids.ListId(), 1, c.kElems);
    MulMono(ids.ListId() + 1, c.kRows, c.kElems);
  }

  function ScatterOne(c: Cache<Plane>, buf: Plane, offset: nat, ids: Ids, blockSize: nat): (o: Outcome)
    requires Sized(c) && offset <= |buf|
    ensures Sized(o.cache) && SameShape(c, o.cache) && o.offset <= |buf|
  {
    match StandingOf(c, ids, blockSize)
    case Skipped => Outcome(c, offset, false)
    case Raises => Outcome(ScatterRaising(c, buf, offset, ids, blockSize), offset, true)
    case Live =>
      LiveInside(c, ids, blockSize);
      var mid := offset + KLen(c, blockSize);
      if mid > |buf| then Outcome(c, offset, true)
      else
        var d := PutK(c, ids, blockSize, buf[offset..mid]);
        var end := mid + VLen(c, blockSize);
        if end > |buf| then Outcome(d, mid, true)
        else Outcome(PutV(d, ids, blockSize, buf[mid..end]), end, false)
  }

  /** All caches after scattering one buffer; nothing after the first exception is touched. */
  function Scattered(caches: seq<Cache<Plane>>, buf: Plane, offset: nat, ids: Ids, blockSize: nat)
    : (r: (seq<Cache<Plane>>, bool))
    requires AllSized(caches) && offset <= |buf|
    ensures |r.0| == |caches| && AllSized(r.0)
    ensures forall i :: 0 <= i < |caches| ==> SameShape(caches[i], r.0[i])
  {
    if caches == [] then ([], false) else
      var o := ScatterOne(caches[0], buf, offset, ids, blockSize);
      if o.raised then ([o.cache] + caches[1..], true)
      else
        var rest := Scattered(caches[1..], buf, o.offset, ids, blockSize);
        ([o.cache] + rest.0, rest.1)
  }

  // ---- gather then scatter -------------------------------------------------------------------

  /** Source and target have the same caches, take the same ones part, and raise nowhere. */
  predicate Matched<S, T>(src: seq<Cache<S>>, from: Ids, dst: seq<Cache<T>>, to: Ids, blockSize: nat) {
    && |src| == |dst|
    && forall i :: 0 <= i < |src| ==>
      && SameShape(src[i], dst[i])
      && StandingOf(src[i], from, blockSize) == StandingOf(dst[i], to, blockSize) != Raises
  }

  /** The target cache with exactly its block replaced by the source's block. */
  function RestoredOne(s: Cache<Plane>, from: Ids, d: Cache<Plane>, to: Ids, blockSize: nat): Cache<Plane>
    requires Sized(s) && Sized(d) && SameShape(s, d) && StandingOf(s, from, blockSize) == StandingOf(d, to, blockSize)
  {
    if StandingOf(d, to, blockSize) != Live then d else
      LiveInside(s, from, blockSize);
      LiveInside(d, to, blockSize);
      var e := PutK(d, to, blockSize, Slice(s.k, KAt(s, from, blockSize), KLen(s, blockSize)));
      PutV(e, to, blockSize, Slice(s.v, VAt(s, from, blockSize), VLen(s, blockSize)))
  }

  lemma ScatterOneRestores(s: Cache<Plane>, from: Ids, d: Cache<Plane>, to: Ids, blockSize: nat, pre: Plane, post: Plane)
    requires Sized(s) && Sized(d) && SameShape(s, d)
    requires StandingOf(s, from, blockSize) == StandingOf(d, to, blockSize) == Live
    ensures var g := GatherOne(s, from, blockSize);
      ScatterOne(d, pre + (g + post), |pre|, to, blockSize)
        == Outcome(RestoredOne(s, from, d, to, blockSize), |pre| + |g|, false)
  {
    StatusIsShape(s, d, to, blockSize);
    hide Sized, SameShape, StandingOf, KLen, VLen, KAt, VAt, Splice;
    var g := GatherOne(s, from, blockSize);
    var buf := pre + (g + post);
    LiveInside(s, from, blockSize);
    LiveInside(d, to, blockSize);
    var mid := |pre| + KLen(d, blockSize);
    assert buf[|pre|..mid] == Slice(s.k, KAt(s, from, blockSize), KLen(s, blockSize));
    assert buf[mid..mid + VLen(d, blockSize)] == Slice(s.v, VAt(s, from, blockSize), VLen(s, blockSize));
  }

  /** Every cache of `out` is the target's with the source's block put in. */
  predicate AllRestored(src: seq<Cache<Plane>>, from: Ids, dst: seq<Cache<Plane>>, to: Ids, blockSize: nat, out: seq<Cache<Plane>>)
    requires AllSized(src) && AllSized(dst) && Matched(src, from, dst, to, blockSize)
  {
    |out| == |dst| && forall i :: 0 <= i < |dst| ==> out[i] == RestoredOne(src[i], from, dst[i], to, blockSize)
  }

  lemma MatchedRest(src: seq<Cache<Plane>>, from: Ids, dst: seq<Cache<Plane>>, to: Ids, blockSize: nat)
    requires AllSized(src) && AllSized(dst) && Matched(src, from, dst, to, blockSize) && src != []
    ensures dst != [] && Sized(src[0]) && Sized(dst[0]) && SameShape(src[0], dst[0])
    ensures StandingOf(src[0], from, blockSize) == StandingOf(dst[0], to, blockSize) != Raises
    ensures AllSized(src[1..]) && AllSized(dst[1..]) && Matched(src[1..], from, dst[1..], to, blockSize)
  {
    hide Sized, SameShape, StandingOf;
  }

  lemma RestoredCons(src: seq<Cache<Plane>>, from: Ids, dst: seq<Cache<Plane>>, to: Ids, blockSize: nat, out: seq<Cache<Plane>>)
    requires AllSized(src) && AllSized(dst) && Matched(src, from, dst, to, blockSize) && src != []
    requires AllSized(src[1..]) && AllSized(dst[1..]) && Matched(src[1..], from, dst[1..], to, blockSize)
    requires AllRestored(src[1..], from, dst[1..], to, blockSize, out)
    ensures AllRestored(src, from, dst, to, blockSize, [RestoredOne(src[0], from, dst[0], to, blockSize)] + out)
  {
    hide Sized, SameShape, StandingOf, RestoredOne;
  }

  /** Scattering what was gathered restores every cache, wherever the block's buffer starts. */
  lemma {:induction false} ScatterRestores(src: seq<Cache<Plane>>, from: Ids, dst: seq<Cache<Plane>>, to: Ids,
                                           blockSize: nat, pre: Plane)
    requires AllSized(src) && AllSized(dst) && Matched(src, from, dst, to, blockSize)
    ensures Gathered(src, from, blockSize).Some?
    ensures var r := Scattered(dst, pre + Gathered(src, from, blockSize).value, |pre|, to, blockSize);
      !r.1 && AllRestored(src, from, dst, to, blockSize, r.0)
    decreases |src|
  {
    hide *;
    if src == [] {
      NothingRestores(src, from, dst, to, blockSize, pre);
    } else {
      MatchedRest(src, from, dst, to, blockSize);
      var part := Part(src[0], from, blockSize);
      ScatterRestores(src[1..], from, dst[1..], to, blockSize, pre + part);
      GatheredUnfolds(src, from, blockSize);
      var rest := Gathered(src[1..], from, blockSize).value;
      var buf := pre + Gathered(src, from, blockSize).value;
      assert pre + part + rest == buf;
      OneRestores(src[0], from, dst[0], to, blockSize, pre, rest);
      ScatteredUnfolds(dst, buf, |pre|, to, blockSize);
      RestoredCons(src, from, dst, to, blockSize, Scattered(dst[1..], buf, |pre + part|, to, blockSize).0);
    }
  }

  lemma NothingRestores(src: seq<Cache<Plane>>, from: Ids, dst: seq<Cache<Plane>>, to: Ids, blockSize: nat, pre: Plane)
    requires AllSized(src) && AllSized(dst) && Matched(src, from, dst, to, blockSize) && src == []
    ensures Gathered(src, from, blockSize) == Some([])
    ensures Scattered(dst, pre + [], |pre|, to, blockSize) == ([], false) && AllRestored(src, from, dst, to, blockSize, [])
  {
    assert dst == [];
  }

  /** What one cache contributes to the buffer. */
  function Part(c: Cache<Plane>, ids: Ids, blockSize: nat): Plane
    requires Sized(c)
  {
    if StandingOf(c, ids, blockSize) == Live then GatherOne(c, ids, blockSize) else []
  }

  lemma GatheredUnfolds(caches: seq<Cache<Plane>>, ids: Ids, blockSize: nat)
    requires caches != [] && Sized(caches[0]) && AllSized(caches) && AllSized(caches[1..])
    requires StandingOf(caches[0], ids, blockSize) != Raises && Gathered(caches[1..], ids, blockSize).Some?
    ensures Gathered(caches, ids, blockSize) ==
      Some(Part(caches[0], ids, blockSize) + Gathered(caches[1..], ids, blockSize).value)
  {
    hide GatherOne, StandingOf, Sized;
    var rest := Gathered(caches[1..], ids, blockSize).value;
    assert [] + rest == rest;
  }

  lemma OneRestores(s: Cache<Plane>, from: Ids, d: Cache<Plane>, to: Ids, blockSize: nat, pre: Plane, post: Plane)
    requires Sized(s) && Sized(d) && SameShape(s, d)
    requires StandingOf(s, from, blockSize) == StandingOf(d, to, blockSize) != Raises
    ensures var part := Part(s, from, blockSize);
      ScatterOne(d, pre + part + post, |pre|, to, blockSize)
        == Outcome(RestoredOne(s, from, d, to, blockSize), |pre + part|, false)
  {
    var part := Part(s, from, blockSize);
    assert pre + part + post == pre + (part + post);
    if StandingOf(s, from, blockSize) == Live {
      hide Sized, SameShape, ScatterOne, RestoredOne, GatherOne;
      ScatterOneRestores(s, from, d, to, blockSize, pre, post);
    }
  }

  /** A position of the K (or V) plane that the block named by `ids` does not cover. */
  predicate OutsideK<S>(c: Cache<S>, ids: Ids, blockSize: nat, j: int) {
    j < KAt(c, ids, blockSize) || KAt(c, ids, blockSize) + KLen(c, blockSize) <= j
  }

  predicate OutsideV<S>(c: Cache<S>, ids: Ids, blockSize: nat, j: int) {
    j < VAt(c, ids, blockSize) || VAt(c, ids, blockSize) + VLen(c, blockSize) <= j
  }

  /** The restored block is the source's block, and nothing else of the planes changes. */
  lemma RestoredOneFacts(s: Cache<Plane>, from: Ids, d: Cache<Plane>, to: Ids, blockSize: nat)
    requires Sized(s) && Sized(d) && SameShape(s, d) && StandingOf(s, from, blockSize) == StandingOf(d, to, blockSize) == Live
    ensures var r := RestoredOne(s, from, d, to, blockSize);
      && Sized(r) && SameShape(d, r) && StandingOf(r, to, blockSize) == Live
      && GatherOne(r, to, blockSize) == GatherOne(s, from, blockSize)
      && (forall j :: 0 <= j < |d.k| && OutsideK(d, to, blockSize, j) ==> r.k[j] == d.k[j])
      && (forall j :: 0 <= j < |d.v| && OutsideV(d, to, blockSize, j) ==> r.v[j] == d.v[j])
  {
    LiveInside(s, from, blockSize);
    LiveInside(d, to, blockSize);
    var r := RestoredOne(s, from, d, to, blockSize);
    LiveInside(r, to, blockSize);
    assert Slice(r.k, KAt(r, to, blockSize), KLen(r, blockSize)) == Slice(s.k, KAt(s, from, blockSize), KLen(s, blockSize));
    assert Slice(r.v, VAt(r, to, blockSize), VLen(r, blockSize)) == Slice(s.v, VAt(s, from, blockSize), VLen(s, blockSize));
  }

  /**
   * Restoring the buffer stored for a block puts the old contents at the new place in every cache that
   * takes part, changes nothing else, and raises nothing.
   */
  lemma GatherThenScatter(src: seq<Cache<Plane>>, from: Ids, dst: seq<Cache<Plane>>, to: Ids, blockSize: nat)
    requires AllSized(src) && AllSized(dst) && Matched(src, from, dst, to, blockSize)
    requires SomeLive(src, from, blockSize)
    ensures GatherBlock(src, from, blockSize).Some?
    ensures var (out, raised) := Scattered(dst, GatherBlock(src, from, blockSize).value, 0, to, blockSize);
      && !raised
      && forall i :: 0 <= i < |dst| ==>
          if StandingOf(dst[i], to, blockSize) == Live then
            && StandingOf(out[i], to, blockSize) == Live
            && GatherOne(out[i], to, blockSize) == GatherOne(src[i], from, blockSize)
            && (forall j :: 0 <= j < |dst[i].k| && OutsideK(dst[i], to, blockSize, j) ==> out[i].k[j] == dst[i].k[j])
            && (forall j :: 0 <= j < |dst[i].v| && OutsideV(dst[i], to, blockSize, j) ==> out[i].v[j] == dst[i].v[j])
          else out[i] == dst[i]
  {
    ScatterRestores(src, from, dst, to, blockSize, []);
    var buf := GatherBlock(src, from, blockSize).value;
    assert [] + buf == buf;
    var (out, raised) := Scattered(dst, buf, 0, to, blockSize);
    forall i | 0 <= i < |dst| && StandingOf(dst[i], to, blockSize) == Live
      ensures out[i] == RestoredOne(src[i], from, dst[i], to, blockSize)
      ensures GatherOne(out[i], to, blockSize) == GatherOne(src[i], from, blockSize)
      ensures forall j :: 0 <= j < |dst[i].k| && OutsideK(dst[i], to, blockSize, j) ==> out[i].k[j] == dst[i].k[j]
      ensures forall j :: 0 <= j < |dst[i].v| && OutsideV(dst[i], to, blockSize, j) ==> out[i].v[j] == dst[i].v[j]
    {
      RestoredOneFacts(src[i], from, dst[i], to, blockSize);
    }
  }

  // ---- several blocks ------------------------------------------------------------------------

  /** One restored block: its stored buffer and the ids it goes to. */
  datatype Item = Item(buf: Plane, to: Ids)

  function ScatteredAll(caches: seq<Cache<Plane>>, items: seq<Item>, blockSize: nat): (r: (seq<Cache<Plane>>, bool))
    requires AllSized(caches)
    ensures |r.0| == |caches| && AllSized(r.0)
    ensures forall i :: 0 <= i < |caches| ==> SameShape(caches[i], r.0[i])
  {
    if items == [] then (caches, false) else
      var before := ScatteredAll(caches, items[..|items| - 1], blockSize);
      if before.1 then before
      else Scattered(before.0, items[|items| - 1].buf, 0, items[|items| - 1].to, blockSize)
  }

  /** Where a stored block came from: the caches as they were then, and its ids then. */
  datatype Origin = Origin(src: seq<Cache<Plane>>, from: Ids)

  predicate DistinctTargets(items: seq<Item>) {
    forall m, n :: 0 <= m < n < |items| ==>
      items[m].to.primary != items[n].to.primary && items[m].to.ListId() != items[n].to.ListId()
  }

  predicate StoredFrom(o: Origin, item: Item, dst: seq<Cache<Plane>>, blockSize: nat) {
    && AllSized(o.src)
    && Matched(o.src, o.from, dst, item.to, blockSize)
    && GatherBlock(o.src, o.from, blockSize) == Some(item.buf)
  }

  lemma StatusIsShape<S, T>(c: Cache<S>, d: Cache<T>, ids: Ids, blockSize: nat)
    requires SameShape(c, d)
    ensures StandingOf(c, ids, blockSize) == StandingOf(d, ids, blockSize)
    ensures KLen(c, blockSize) == KLen(d, blockSize) && VLen(c, blockSize) == VLen(d, blockSize)
    ensures KAt(c, ids, blockSize) == KAt(d, ids, blockSize) && VAt(c, ids, blockSize) == VAt(d, ids, blockSize)
  {
  }

  /** A block at other ids survives. */
  lemma OthersKept(c: Cache<Plane>, r: Cache<Plane>, ids: Ids, to: Ids, blockSize: nat)
    requires Sized(c) && Sized(r) && SameShape(c, r)
    requires StandingOf(c, ids, blockSize) == Live && StandingOf(c, to, blockSize) == Live
    requires ids.primary != to.primary && ids.ListId() != to.ListId()
    requires forall j :: 0 <= j < |c.k| && OutsideK(c, to, blockSize, j) ==> r.k[j] == c.k[j]
    requires forall j :: 0 <= j < |c.v| && OutsideV(c, to, blockSize, j) ==> r.v[j] == c.v[j]
    ensures StandingOf(r, ids, blockSize) == Live && GatherOne(r, ids, blockSize) == GatherOne(c, ids, blockSize)
  {
    StatusIsShape(c, r, ids, blockSize);
    LiveInside(c, ids, blockSize);
    DistinctBlocksDisjoint(BlockId(c, ids), BlockId(c, to), KLen(c, blockSize));
    DistinctBlocksDisjoint(BlockId(c, ids), BlockId(c, to), VLen(c, blockSize));
    hide Sized, PagesPerBlock, KLen, VLen;
    var at, n := KAt(c, ids, blockSize), KLen(c, blockSize);
    forall j | at <= j < at + n ensures r.k[j] == c.k[j] {
      assert OutsideK(c, to, blockSize, j);
    }
    assert Slice(r.k, at, n) == Slice(c.k, at, n);
    var at', n' := VAt(c, ids, blockSize), VLen(c, blockSize);
    forall j | at' <= j < at' + n' ensures r.v[j] == c.v[j] {
      assert OutsideV(c, to, blockSize, j);
    }
    assert Slice(r.v, at', n') == Slice(c.v, at', n');
  }

  /** Cache `i` had block `o` when it was stored, and takes part in its restoration just as it did then. */
  ghost predicate Fits(o: Origin, item: Item, c: Cache<Plane>, i: nat, blockSize: nat) {
    && i < |o.src| && Sized(o.src[i]) && Sized(c) && SameShape(o.src[i], c)
    && StandingOf(o.src[i], o.from, blockSize) == StandingOf(c, item.to, blockSize)
  }

  /** The block's part in cache `i` is where it belongs. */
  ghost predicate InPlace(c: Cache<Plane>, o: Origin, item: Item, i: nat, blockSize: nat) {
    && Fits(o, item, c, i, blockSize)
    && (StandingOf(c, item.to, blockSize) == Live ==>
        GatherOne(c, item.to, blockSize) == GatherOne(o.src[i], o.from, blockSize))
  }

  ghost predicate AllInPlace(c: Cache<Plane>, origins: seq<Origin>, items: seq<Item>, i: nat, blockSize: nat) {
    |origins| == |items| && forall m :: 0 <= m < |items| ==> InPlace(c, origins[m], items[m], i, blockSize)
  }

  /** A position no restored block covers. */
  ghost predicate UncoveredK<S>(c: Cache<S>, items: seq<Item>, blockSize: nat, j: int) {
    forall m :: 0 <= m < |items| && StandingOf(c, items[m].to, blockSize) == Live ==> OutsideK(c, items[m].to, blockSize, j)
  }

  ghost predicate UncoveredV<S>(c: Cache<S>, items: seq<Item>, blockSize: nat, j: int) {
    forall m :: 0 <= m < |items| && StandingOf(c, items[m].to, blockSize) == Live ==> OutsideV(c, items[m].to, blockSize, j)
  }

  ghost predicate KeepsUncovered(before: Cache<Plane>, after: Cache<Plane>, items: seq<Item>, blockSize: nat) {
    && Sized(before) && Sized(after) && SameShape(before, after)
    && (!before.Absent? ==>
      && (forall j :: 0 <= j < |before.k| && UncoveredK(before, items, blockSize, j) ==> after.k[j] == before.k[j])
      && (forall j :: 0 <= j < |before.v| && UncoveredV(before, items, blockSize, j) ==> after.v[j] == before.v[j]))
  }

  /** A later block leaves an earlier one in place, since it goes to other ids. */
  lemma StaysInPlace(c: Cache<Plane>, o: Origin, item: Item, from: Origin, next: Item, i: nat, blockSize: nat)
    requires InPlace(c, o, item, i, blockSize) && Fits(from, next, c, i, blockSize)
    requires item.to.primary != next.to.primary && item.to.ListId() != next.to.ListId()
    ensures InPlace(RestoredOne(from.src[i], from.from, c, next.to, blockSize), o, item, i, blockSize)
  {
    var r := RestoredOne(from.src[i], from.from, c, next.to, blockSize);
    if StandingOf(c, next.to, blockSize) == Live {
      RestoredOneFacts(from.src[i], from.from, c, next.to, blockSize);
      StatusIsShape(c, r, item.to, blockSize);
      if StandingOf(c, item.to, blockSize) == Live {
        OthersKept(c, r, item.to, next.to, blockSize);
      }
    }
  }

  lemma NextInPlace(c: Cache<Plane>, from: Origin, next: Item, i: nat, blockSize: nat)
    requires Fits(from, next, c, i, blockSize)
    ensures InPlace(RestoredOne(from.src[i], from.from, c, next.to, blockSize), from, next, i, blockSize)
  {
    if StandingOf(c, next.to, blockSize) == Live {
      RestoredOneFacts(from.src[i], from.from, c, next.to, blockSize);
    }
  }

  /** One more block, seen from one cache: it arrives, the earlier ones stay, and uncovered positions stay. */
  lemma OneMore(c0: Cache<Plane>, c: Cache<Plane>, items: seq<Item>, origins: seq<Origin>, i: nat, n: nat, blockSize: nat)
    requires |items| == |origins| == n + 1 && DistinctTargets(items)
    requires AllInPlace(c, origins[..n], items[..n], i, blockSize) && Fits(origins[n], items[n], c, i, blockSize)
    requires KeepsUncovered(c0, c, items[..n], blockSize)
    ensures var r := RestoredOne(origins[n].src[i], origins[n].from, c, items[n].to, blockSize);
      AllInPlace(r, origins, items, i, blockSize) && KeepsUncovered(c0, r, items, blockSize)
  {
    var r := RestoredOne(origins[n].src[i], origins[n].from, c, items[n].to, blockSize);
    NextInPlace(c, origins[n], items[n], i, blockSize);
    forall m | 0 <= m < n ensures InPlace(r, origins[m], items[m], i, blockSize) {
      assert items[..n][m] == items[m] && origins[..n][m] == origins[m];
      StaysInPlace(c, origins[m], items[m], origins[n], items[n], i, blockSize);
    }
    if StandingOf(c, items[n].to, blockSize) == Live {
      RestoredOneFacts(origins[n].src[i], origins[n].from, c, items[n].to, blockSize);
      assert items[..n + 1] == items;
      hide InPlace, Fits, StandingOf, RestoredOne, Sized;
      OneMoreKeeps(c0, c, r, items, n, blockSize);
    } else {
      NotLiveKeeps(c0, c, items, n, blockSize);
    }
  }

  lemma NotLiveKeeps(c0: Cache<Plane>, c: Cache<Plane>, items: seq<Item>, n: nat, blockSize: nat)
    requires |items| == n + 1 && KeepsUncovered(c0, c, items[..n], blockSize)
    requires StandingOf(c, items[n].to, blockSize) != Live
    ensures KeepsUncovered(c0, c, items, blockSize)
  {
    assert forall m :: 0 <= m < n ==> items[..n][m] == items[m];
    hide KAt, VAt, KLen, VLen;
    forall j | UncoveredK(c0, items, blockSize, j) ensures UncoveredK(c0, items[..n], blockSize, j) {}
    forall j | UncoveredV(c0, items, blockSize, j) ensures UncoveredV(c0, items[..n], blockSize, j) {}
  }

  lemma OneMoreKeeps(c0: Cache<Plane>, c: Cache<Plane>, r: Cache<Plane>, items: seq<Item>, n: nat, blockSize: nat)
    requires n < |items| && Sized(c0) && Sized(c) && Sized(r) && SameShape(c0, c) && SameShape(c, r) && !c.Absent?
    requires StandingOf(c, items[n].to, blockSize) == Live
    requires KeepsUncovered(c0, c, items[..n], blockSize)
    requires forall j :: 0 <= j < |c.k| && OutsideK(c, items[n].to, blockSize, j) ==> r.k[j] == c.k[j]
    requires forall j :: 0 <= j < |c.v| && OutsideV(c, items[n].to, blockSize, j) ==> r.v[j] == c.v[j]
    ensures KeepsUncovered(c0, r, items[..n + 1], blockSize)
  {
    var before, after := items[..n], items[..n + 1];
    StatusIsShape(c0, c, items[n].to, blockSize);
    assert after[n] == items[n];
    assert forall m :: 0 <= m < n ==> after[m] == before[m];
    hide KAt, VAt, KLen, VLen, StandingOf;
    forall j | 0 <= j < |c0.k| && UncoveredK(c0, after, blockSize, j) ensures r.k[j] == c0.k[j] {
      assert OutsideK(c0, after[n].to, blockSize, j);
      assert UncoveredK(c0, before, blockSize, j);
    }
    forall j | 0 <= j < |c0.v| && UncoveredV(c0, after, blockSize, j) ensures r.v[j] == c0.v[j] {
      assert OutsideV(c0, after[n].to, blockSize, j);
      assert UncoveredV(c0, before, blockSize, j);
    }
  }

  /**
   * Restoring several blocks with pairwise distinct target ids: at the end every one of them is in
   * place in every cache, and every position none of them covers is as it was.
   */
  lemma {:induction false} AllBlocksRestored(dst: seq<Cache<Plane>>, items: seq<Item>, origins: seq<Origin>, blockSize: nat)
    requires AllSized(dst) && |origins| == |items| && DistinctTargets(items)
    requires forall m :: 0 <= m < |items| ==> StoredFrom(origins[m], items[m], dst, blockSize)
    ensures !ScatteredAll(dst, items, blockSize).1
    ensures var out := ScatteredAll(dst, items, blockSize).0;
      forall i :: 0 <= i < |dst| ==>
        AllInPlace(out[i], origins, items, i, blockSize) && KeepsUncovered(dst[i], out[i], items, blockSize)
    decreases |items|
  {
    if items == [] {
      assert ScatteredAll(dst, items, blockSize).0 == dst;
    } else {
      var n := |items| - 1;
      AllBlocksRestored(dst, items[..n], origins[..n], blockSize);
      var mid := ScatteredAll(dst, items[..n], blockSize).0;
      LastBlock(dst, mid, items[n], origins[n], blockSize);
      var out := ScatteredAll(dst, items, blockSize).0;
      assert RestoresAll(origins[n], items[n], mid, out, blockSize);
      hide AllInPlace, KeepsUncovered, ScatteredAll, Fits, StoredFrom, Scattered, Sized, SameShape, RestoredOne;
      forall i | 0 <= i < |dst|
        ensures AllInPlace(out[i], origins, items, i, blockSize) && KeepsUncovered(dst[i], out[i], items, blockSize)
      {
        OneMore(dst[i], mid[i], items, origins, i, n, blockSize);
      }
    }
  }

  /** Every cache gets its part of the block. */
  ghost predicate RestoresAll(o: Origin, item: Item, mid: seq<Cache<Plane>>, out: seq<Cache<Plane>>, blockSize: nat) {
    |out| == |mid| && forall i :: 0 <= i < |mid| ==>
      && Fits(o, item, mid[i], i, blockSize)
      && out[i] == RestoredOne(o.src[i], o.from, mid[i], item.to, blockSize)
  }

  lemma LastBlock(dst: seq<Cache<Plane>>, mid: seq<Cache<Plane>>, item: Item, o: Origin, blockSize: nat)
    requires AllSized(mid) && |mid| == |dst| && StoredFrom(o, item, dst, blockSize)
    requires forall i :: 0 <= i < |dst| ==> SameShape(dst[i], mid[i])
    ensures var r := Scattered(mid, item.buf, 0, item.to, blockSize);
      !r.1 && RestoresAll(o, item, mid, r.0, blockSize)
  {
    MatchedShape(o, item, dst, mid, blockSize);
    ScatterRestores(o.src, o.from, mid, item.to, blockSize, []);
    assert [] + item.buf == item.buf;
    assert |o.src| == |mid|;
    hide Sized, SameShape, StandingOf, RestoredOne, Scattered, Gathered;
  }

  lemma MatchedShape(o: Origin, item: Item, dst: seq<Cache<Plane>>, mid: seq<Cache<Plane>>, blockSize: nat)
    requires StoredFrom(o, item, dst, blockSize) && |mid| == |dst|
    requires forall i :: 0 <= i < |dst| ==> SameShape(dst[i], mid[i])
    ensures Matched(o.src, o.from, mid, item.to, blockSize)
    ensures Gathered(o.src, o.from, blockSize) == Some(item.buf)
  {
    forall i | 0 <= i < |dst|
      ensures StandingOf(mid[i], item.to, blockSize) == StandingOf(dst[i], item.to, blockSize)
    {
      StatusIsShape(dst[i], mid[i], item.to, blockSize);
    }
  }

  // ---- when both ends take different caches --------------------------------------------------------

  /** Elements the caches that take part put into the buffer, or take out of it. */
  function Taken<S>(caches: seq<Cache<S>>, ids: Ids, blockSize: nat): nat {
    if caches == [] then 0 else
      Taken(caches[1..], ids, blockSize)
        + if StandingOf(caches[0], ids, blockSize) == Live then KLen(caches[0], blockSize) + VLen(caches[0], blockSize) else 0
  }

  predicate NoneRaises<S>(caches: seq<Cache<S>>, ids: Ids, blockSize: nat) {
    forall i :: 0 <= i < |caches| ==> StandingOf(caches[i], ids, blockSize) != Raises
  }

  /** A cache that takes part finds its part in the buffer behind those of the caches in front of it. */
  lemma {:induction false} GatheredPart(caches: seq<Cache<Plane>>, ids: Ids, blockSize: nat, i: nat)
    requires AllSized(caches) && NoneRaises(caches, ids, blockSize)
    requires i < |caches| && StandingOf(caches[i], ids, blockSize) == Live
    ensures Gathered(caches, ids, blockSize).Some?
    ensures var buf, at := Gathered(caches, ids, blockSize).value, Taken(caches[..i], ids, blockSize);
      && at + |GatherOne(caches[i], ids, blockSize)| <= |buf|
      && buf[at..at + |GatherOne(caches[i], ids, blockSize)|] == GatherOne(caches[i], ids, blockSize)
    decreases |caches|
  {
    hide GatherOne, Gathered, StandingOf, Sized, KLen, VLen;
    GatheredAll(caches[1..], ids, blockSize);
    GatheredUnfolds(caches, ids, blockSize);
    var part, rest := Part(caches[0], ids, blockSize), Gathered(caches[1..], ids, blockSize).value;
    if i > 0 {
      GatheredPart(caches[1..], ids, blockSize, i - 1);
      var mine := GatherOne(caches[i], ids, blockSize);
      var at := Taken(caches[1..][..i - 1], ids, blockSize);
      assert caches[..i][1..] == caches[1..][..i - 1];
      assert (part + rest)[|part| + at..|part| + at + |mine|] == rest[at..at + |mine|];
    } else {
      assert (part + rest)[..|part|] == part;
    }
  }

  lemma {:induction false} GatheredAll(caches: seq<Cache<Plane>>, ids: Ids, blockSize: nat)
    requires AllSized(caches) && NoneRaises(caches, ids, blockSize)
    ensures Gathered(caches, ids, blockSize).Some?
    decreases |caches|
  {
    if caches != [] {
      GatheredAll(caches[1..], ids, blockSize);
    }
    hide GatherOne, Sized;
  }

  /** The part of the buffer a cache receives lies behind those of the caches in front of it at the target. */
  lemma {:induction false} ScatteredPart(caches: seq<Cache<Plane>>, buf: Plane, offset: nat, ids: Ids, blockSize: nat)
    requires AllSized(caches) && offset <= |buf|
    ensures var r := Scattered(caches, buf, offset, ids, blockSize);
      !r.1 <==> NoneRaises(caches, ids, blockSize) && offset + Taken(caches, ids, blockSize) <= |buf|
    ensures var r := Scattered(caches, buf, offset, ids, blockSize);
      !r.1 ==> forall i :: 0 <= i < |caches| && StandingOf(caches[i], ids, blockSize) == Live ==>
        Received(r.0[i], buf, offset + Taken(caches[..i], ids, blockSize), ids, blockSize)
    decreases |caches|
  {
    hide *;
    if caches == [] {
      NothingScattered(caches, buf, offset, ids, blockSize);
    } else {
      AllSizedRest(caches);
      var o := ScatterOne(caches[0], buf, offset, ids, blockSize);
      OneReceives(caches[0], buf, offset, ids, blockSize);
      ScatteredUnfolds(caches, buf, offset, ids, blockSize);
      NoneRaisesCons(caches, ids, blockSize);
      TakenCons(caches, ids, blockSize);
      if !o.raised {
        ScatteredPart(caches[1..], buf, o.offset, ids, blockSize);
        forall i | 0 <= i < |caches| ensures Taken(caches[..i], ids, blockSize) ==
          if i == 0 then 0 else o.offset - offset + Taken(caches[1..][..i - 1], ids, blockSize)
        {
          TakenFront(caches, ids, blockSize, i);
        }
      }
    }
  }

  lemma NothingScattered(caches: seq<Cache<Plane>>, buf: Plane, offset: nat, ids: Ids, blockSize: nat)
    requires AllSized(caches) && offset <= |buf| && caches == []
    ensures !Scattered(caches, buf, offset, ids, blockSize).1
    ensures NoneRaises(caches, ids, blockSize) && Taken(caches, ids, blockSize) == 0
  {
  }

  lemma AllSizedRest(caches: seq<Cache<Plane>>)
    requires AllSized(caches) && caches != []
    ensures Sized(caches[0]) && AllSized(caches[1..])
  {
    hide Sized;
  }

  lemma TakenCons<S>(caches: seq<Cache<S>>, ids: Ids, blockSize: nat)
    requires caches != []
    ensures Taken(caches, ids, blockSize) == Taken(caches[1..], ids, blockSize)
      + if StandingOf(caches[0], ids, blockSize) == Live then KLen(caches[0], blockSize) + VLen(caches[0], blockSize) else 0
  {
    hide StandingOf, KLen, VLen;
  }

  lemma TakenFront<S>(caches: seq<Cache<S>>, ids: Ids, blockSize: nat, i: nat)
    requires i < |caches|
    ensures Taken(caches[..i], ids, blockSize) ==
      if i == 0 then 0 else
        Taken(caches[1..][..i - 1], ids, blockSize)
          + if StandingOf(caches[0], ids, blockSize) == Live then KLen(caches[0], blockSize) + VLen(caches[0], blockSize) else 0
  {
    hide StandingOf, KLen, VLen;
    if i > 0 {
      assert caches[..i][1..] == caches[1..][..i - 1];
    }
  }

  /** The cache holds, at its block, what the buffer has from `at` on. */
  ghost predicate Received(c: Cache<Plane>, buf: Plane, at: nat, ids: Ids, blockSize: nat) {
    && Sized(c) && StandingOf(c, ids, blockSize) == Live
    && at + KLen(c, blockSize) + VLen(c, blockSize) <= |buf|
    && GatherOne(c, ids, blockSize) == buf[at..at + (KLen(c, blockSize) + VLen(c, blockSize))]
  }

  lemma NoneRaisesCons<S>(caches: seq<Cache<S>>, ids: Ids, blockSize: nat)
    requires caches != []
    ensures NoneRaises(caches, ids, blockSize) <==>
      StandingOf(caches[0], ids, blockSize) != Raises && NoneRaises(caches[1..], ids, blockSize)
  {
    hide StandingOf;
    if StandingOf(caches[0], ids, blockSize) != Raises && NoneRaises(caches[1..], ids, blockSize) {
      forall i | 0 <= i < |caches| ensures StandingOf(caches[i], ids, blockSize) != Raises {
        if i > 0 {
          assert caches[1..][i - 1] == caches[i];
        }
      }
    }
  }

  lemma OneReceives(c: Cache<Plane>, buf: Plane, offset: nat, ids: Ids, blockSize: nat)
    requires Sized(c) && offset <= |buf|
    ensures var o := ScatterOne(c, buf, offset, ids, blockSize);
      var len := KLen(c, blockSize) + VLen(c, blockSize);
      match StandingOf(c, ids, blockSize)
      case Raises => o.raised
      case Skipped => !o.raised && o.offset == offset
      case Live =>
        && (o.raised <==> offset + len > |buf|)
        && (!o.raised ==> o.offset == offset + len && Received(o.cache, buf, offset, ids, blockSize))
  {
    if StandingOf(c, ids, blockSize) == Live && offset + KLen(c, blockSize) + VLen(c, blockSize) <= |buf| {
      LiveInside(c, ids, blockSize);
      var o := ScatterOne(c, buf, offset, ids, blockSize);
      LiveInside(o.cache, ids, blockSize);
      var mid := offset + KLen(c, blockSize);
      assert Slice(o.cache.k, KAt(c, ids, blockSize), KLen(c, blockSize)) == buf[offset..mid];
      assert Slice(o.cache.v, VAt(c, ids, blockSize), VLen(c, blockSize)) == buf[mid..mid + VLen(c, blockSize)];
    }
  }

  ghost predicate SameShapes<S, T>(a: seq<Cache<S>>, b: seq<Cache<T>>) {
    |a| == |b| && forall i :: 0 <= i < |a| ==> SameShape(a[i], b[i])
  }

  /** Restoring what is gathered from `src` gets as far as cache `i` and gives it its own part. */
  ghost predicate ReceivesOwn(src: seq<Cache<Plane>>, from: Ids, dst: seq<Cache<Plane>>, to: Ids, blockSize: nat, i: nat)
    requires AllSized(src) && AllSized(dst) && i < |src| == |dst|
  {
    && Gathered(src, from, blockSize).Some? && StandingOf(src[i], from, blockSize) == Live
    && var r := Scattered(dst[..i + 1], Gathered(src, from, blockSize).value, 0, to, blockSize);
      !r.1 && StandingOf(r.0[i], to, blockSize) == Live && GatherOne(r.0[i], to, blockSize) == GatherOne(src[i], from, blockSize)
  }

  /** The caches behind cache `i` have no say in what it receives. */
  lemma {:induction false} PrefixDecides(dst: seq<Cache<Plane>>, buf: Plane, offset: nat, ids: Ids, blockSize: nat, n: nat)
    requires AllSized(dst) && offset <= |buf| && n <= |dst|
    requires !Scattered(dst[..n], buf, offset, ids, blockSize).1
    ensures Scattered(dst, buf, offset, ids, blockSize).0[..n] == Scattered(dst[..n], buf, offset, ids, blockSize).0
    decreases n
  {
    if n > 0 {
      hide ScatterOne, StandingOf, Sized, SameShape;
      assert dst[..n][1..] == dst[1..][..n - 1] && dst[..n][0] == dst[0];
      ScatteredUnfolds(dst, buf, offset, ids, blockSize);
      ScatteredUnfolds(dst[..n], buf, offset, ids, blockSize);
      PrefixDecides(dst[1..], buf, ScatterOne(dst[0], buf, offset, ids, blockSize).offset, ids, blockSize, n - 1);
    }
  }

  /** All elements of the cache are `x`. */
  function Painted(c: Cache<Plane>, x: real): Cache<Plane> {
    if c.Absent? then c else c.(k := seq(|c.k|, _ => x), v := seq(|c.v|, _ => x))
  }

  /** Cache `i` all ones, the others all zeros. */
  function Marked(src: seq<Cache<Plane>>, i: nat): (r: seq<Cache<Plane>>)
    ensures |r| == |src|
  {
    seq(|src|, j requires 0 <= j < |src| => Painted(src[j], if i == j then 1.0 else 0.0))
  }

  ghost predicate OnesOnly(buf: Plane, at: nat, len: nat) {
    at + len <= |buf| && forall j :: 0 <= j < |buf| ==> buf[j] == if at <= j < at + len then 1.0 else 0.0
  }

  lemma PaintedPart(c: Cache<Plane>, x: real, ids: Ids, blockSize: nat)
    requires Sized(c)
    ensures Sized(Painted(c, x)) && SameShape(c, Painted(c, x))
    ensures StandingOf(Painted(c, x), ids, blockSize) == StandingOf(c, ids, blockSize)
    ensures forall y :: y in Part(Painted(c, x), ids, blockSize) ==> y == x
    ensures |Part(Painted(c, x), ids, blockSize)| ==
      if StandingOf(c, ids, blockSize) == Live then KLen(c, blockSize) + VLen(c, blockSize) else 0
  {
    if StandingOf(c, ids, blockSize) == Live {
      LiveInside(Painted(c, x), ids, blockSize);
    }
  }

  lemma {:induction false} PaintedZero(src: seq<Cache<Plane>>, ids: Ids, blockSize: nat)
    requires AllSized(src) && NoneRaises(src, ids, blockSize)
    requires forall j :: 0 <= j < |src| ==> src[j] == Painted(src[j], 0.0)
    ensures Gathered(src, ids, blockSize).Some? && forall y :: y in Gathered(src, ids, blockSize).value ==> y == 0.0
    decreases |src|
  {
    if src != [] {
      PaintedZero(src[1..], ids, blockSize);
      GatheredUnfolds(src, ids, blockSize);
      PaintedPart(src[0], 0.0, ids, blockSize);
      hide Gathered, Part, StandingOf, Sized, SameShape, Painted;
    }
  }

  /** Gathering the marked caches makes a buffer in which exactly cache `i`'s part is ones. */
  lemma {:induction false} MarkedGathers(src: seq<Cache<Plane>>, ids: Ids, blockSize: nat, i: nat)
    requires AllSized(src) && NoneRaises(src, ids, blockSize) && i < |src| && StandingOf(src[i], ids, blockSize) == Live
    ensures SameShapes(src, Marked(src, i)) && AllSized(Marked(src, i))
    ensures Gathered(Marked(src, i), ids, blockSize).Some?
    ensures OnesOnly(Gathered(Marked(src, i), ids, blockSize).value, Taken(src[..i], ids, blockSize),
                     KLen(src[i], blockSize) + VLen(src[i], blockSize))
    decreases |src|
  {
    hide Gathered, Part, StandingOf, Sized, SameShape, SameShapes, Painted, Marked, OnesOnly, KLen, VLen, NoneRaises;
    var m := Marked(src, i);
    MarkedShapes(src, ids, blockSize, i);
    PaintedPart(src[0], if i == 0 then 1.0 else 0.0, ids, blockSize);
    MarkedSplits(src, i);
    NoneRaisesCons(src, ids, blockSize);
    if i == 0 {
      PaintedZero(m[1..], ids, blockSize);
      GatheredUnfolds(m, ids, blockSize);
      OnesThenZeros(Part(m[0], ids, blockSize), Gathered(m[1..], ids, blockSize).value);
    } else {
      MarkedGathers(src[1..], ids, blockSize, i - 1);
      GatheredUnfolds(m, ids, blockSize);
      assert src[..i][1..] == src[1..][..i - 1];
      ZerosInFront(Part(m[0], ids, blockSize), Gathered(m[1..], ids, blockSize).value,
                   Taken(src[1..][..i - 1], ids, blockSize), KLen(src[i], blockSize) + VLen(src[i], blockSize));
    }
  }

  lemma MarkedShapes(src: seq<Cache<Plane>>, ids: Ids, blockSize: nat, i: nat)
    requires AllSized(src) && NoneRaises(src, ids, blockSize)
    ensures SameShapes(src, Marked(src, i)) && AllSized(Marked(src, i))
    ensures NoneRaises(Marked(src, i), ids, blockSize)
    ensures src != [] ==> NoneRaises(Marked(src, i)[1..], ids, blockSize)
  {
    forall j | 0 <= j < |src| ensures SameShape(src[j], Marked(src, i)[j]) && Sized(Marked(src, i)[j])
      ensures StandingOf(Marked(src, i)[j], ids, blockSize) == StandingOf(src[j], ids, blockSize)
    {
      PaintedPart(src[j], if i == j then 1.0 else 0.0, ids, blockSize);
    }
    hide StandingOf, Sized, SameShape, Painted;
  }

  lemma MarkedSplits(src: seq<Cache<Plane>>, i: nat)
    requires i < |src|
    ensures Marked(src, i)[0] == Painted(src[0], if i == 0 then 1.0 else 0.0)
    ensures i > 0 ==> Marked(src, i)[1..] == Marked(src[1..], i - 1)
    ensures i == 0 ==> forall j :: 0 <= j < |src| - 1 ==> Marked(src, i)[1..][j] == Painted(Marked(src, i)[1..][j], 0.0)
  {
    if i == 0 {
      forall j | 0 <= j < |src| - 1 ensures Marked(src, i)[1..][j] == Painted(Marked(src, i)[1..][j], 0.0) {
        PaintedAgain(src[j + 1], 0.0);
      }
    }
  }

  lemma PaintedAgain(c: Cache<Plane>, x: real)
    ensures Painted(Painted(c, x), x) == Painted(c, x)
  {
  }

  lemma OnesThenZeros(ones: Plane, zeros: Plane)
    requires (forall y :: y in ones ==> y == 1.0) && (forall y :: y in zeros ==> y == 0.0)
    ensures OnesOnly(ones + zeros, 0, |ones|)
  {
    forall j | 0 <= j < |ones + zeros| ensures (ones + zeros)[j] == if j < |ones| then 1.0 else 0.0 {
      if j < |ones| {
        assert ones[j] in ones;
      } else {
        assert zeros[j - |ones|] in zeros;
      }
    }
  }

  lemma ZerosInFront(zeros: Plane, buf: Plane, at: nat, len: nat)
    requires (forall y :: y in zeros ==> y == 0.0) && OnesOnly(buf, at, len)
    ensures OnesOnly(zeros + buf, |zeros| + at, len)
  {
    var all := zeros + buf;
    forall j | 0 <= j < |all| ensures all[j] == if |zeros| + at <= j < |zeros| + at + len then 1.0 else 0.0 {
      if j < |zeros| {
        assert zeros[j] in zeros;
      } else {
        assert all[j] == buf[j - |zeros|];
      }
    }
  }

  /**
   * Exactly when a cache that takes part at both ends is certain to get its own part back: no cache up to
   * it raises at the target, and the caches in front of it take the same number of elements at both ends.
   */
  lemma OwnPartIff(src: seq<Cache<Plane>>, from: Ids, dst: seq<Cache<Plane>>, to: Ids, blockSize: nat, i: nat)
    requires AllSized(src) && AllSized(dst) && i < |src| == |dst| && SameShape(src[i], dst[i])
    requires NoneRaises(src, from, blockSize)
    requires StandingOf(src[i], from, blockSize) == StandingOf(dst[i], to, blockSize) == Live
    requires KLen(src[i], blockSize) + VLen(src[i], blockSize) > 0
    ensures (forall other :: SameShapes(src, other) && AllSized(other) ==> ReceivesOwn(other, from, dst, to, blockSize, i))
      <==> NoneRaises(dst[..i + 1], to, blockSize) && Taken(src[..i], from, blockSize) == Taken(dst[..i], to, blockSize)
  {
    hide AllSized, Gathered, Scattered, StandingOf, Sized, SameShape, GatherOne, Taken, NoneRaises, Marked, KLen, VLen, OnesOnly, ReceivesOwn;
    if NoneRaises(dst[..i + 1], to, blockSize) && Taken(src[..i], from, blockSize) == Taken(dst[..i], to, blockSize) {
      forall other | SameShapes(src, other) && AllSized(other) ensures ReceivesOwn(other, from, dst, to, blockSize, i) {
        SameOffsetReceives(src, other, from, dst, to, blockSize, i);
      }
    } else {
      MarkedGathers(src, from, blockSize, i);
      MarkedIsMissed(src, from, dst, to, blockSize, i);
    }
  }

  lemma {:induction false} ShapesDecide<S, T>(a: seq<Cache<S>>, b: seq<Cache<T>>, ids: Ids, blockSize: nat)
    requires SameShapes(a, b)
    ensures NoneRaises(a, ids, blockSize) <==> NoneRaises(b, ids, blockSize)
    ensures Taken(a, ids, blockSize) == Taken(b, ids, blockSize)
    decreases |a|
  {
    if a != [] {
      ShapesDecide(a[1..], b[1..], ids, blockSize);
      StatusIsShape(a[0], b[0], ids, blockSize);
      NoneRaisesCons(a, ids, blockSize);
      NoneRaisesCons(b, ids, blockSize);
      hide NoneRaises, StandingOf, KLen, VLen;
    }
  }

  lemma SameOffsetReceives(src: seq<Cache<Plane>>, other: seq<Cache<Plane>>, from: Ids, dst: seq<Cache<Plane>>, to: Ids,
                           blockSize: nat, i: nat)
    requires AllSized(src) && AllSized(dst) && i < |src| == |dst| && SameShape(src[i], dst[i])
    requires NoneRaises(src, from, blockSize) && SameShapes(src, other) && AllSized(other)
    requires StandingOf(src[i], from, blockSize) == StandingOf(dst[i], to, blockSize) == Live
    requires NoneRaises(dst[..i + 1], to, blockSize) && Taken(src[..i], from, blockSize) == Taken(dst[..i], to, blockSize)
    ensures ReceivesOwn(other, from, dst, to, blockSize, i)
  {
    hide AllSized, SameShapes, StandingOf, Sized, SameShape, GatherOne, Taken, NoneRaises, KLen, VLen, Gathered, Scattered;
    ShapesAt(src, other, i);
    ShapesDecide(src, other, from, blockSize);
    ShapesDecide(src[..i], other[..i], from, blockSize);
    StatusIsShape(src[i], other[i], from, blockSize);
    StatusIsShape(src[i], dst[i], to, blockSize);
    GatheredPart(other, from, blockSize, i);
    TakenSnoc(dst, to, blockSize, i);
    var buf := Gathered(other, from, blockSize).value;
    AllSizedFront(dst, i + 1);
    ScatteredPart(dst[..i + 1], buf, 0, to, blockSize);
    PartAt(dst, buf, to, blockSize, i);
  }

  lemma ShapesAt<S, T>(a: seq<Cache<S>>, b: seq<Cache<T>>, i: nat)
    requires SameShapes(a, b) && i < |a|
    ensures |a| == |b| && SameShape(a[i], b[i]) && SameShapes(a[..i], b[..i])
  {
    hide SameShape;
  }

  lemma {:induction false} TakenSnoc<S>(caches: seq<Cache<S>>, ids: Ids, blockSize: nat, i: nat)
    requires i < |caches|
    ensures Taken(caches[..i + 1], ids, blockSize) == Taken(caches[..i], ids, blockSize)
      + if StandingOf(caches[i], ids, blockSize) == Live then KLen(caches[i], blockSize) + VLen(caches[i], blockSize) else 0
    decreases i
  {
    hide StandingOf, KLen, VLen;
    if i > 0 {
      TakenSnoc(caches[1..], ids, blockSize, i - 1);
      assert caches[..i + 1][1..] == caches[1..][..i] && caches[..i][1..] == caches[1..][..i - 1];
    }
  }

  /** Marked contents give it away: what cache `i` receives from another offset is not all ones. */
  lemma MarkedIsMissed(src: seq<Cache<Plane>>, from: Ids, dst: seq<Cache<Plane>>, to: Ids, blockSize: nat, i: nat)
    requires AllSized(src) && AllSized(dst) && i < |src| == |dst| && SameShape(src[i], dst[i])
    requires NoneRaises(src, from, blockSize)
    requires StandingOf(src[i], from, blockSize) == StandingOf(dst[i], to, blockSize) == Live
    requires KLen(src[i], blockSize) + VLen(src[i], blockSize) > 0
    requires SameShapes(src, Marked(src, i)) && AllSized(Marked(src, i))
    requires Gathered(Marked(src, i), from, blockSize).Some?
    requires OnesOnly(Gathered(Marked(src, i), from, blockSize).value, Taken(src[..i], from, blockSize),
                      KLen(src[i], blockSize) + VLen(src[i], blockSize))
    requires !NoneRaises(dst[..i + 1], to, blockSize) || Taken(src[..i], from, blockSize) != Taken(dst[..i], to, blockSize)
    ensures !ReceivesOwn(Marked(src, i), from, dst, to, blockSize, i)
  {
    var m, len := Marked(src, i), KLen(src[i], blockSize) + VLen(src[i], blockSize);
    var buf := Gathered(m, from, blockSize).value;
    MarkedPart(src, from, blockSize, i);
    ScatteredPart(dst[..i + 1], buf, 0, to, blockSize);
    StatusIsShape(src[i], dst[i], to, blockSize);
    AllSizedFront(dst, i + 1);
    hide AllSized, Gathered, Scattered, StandingOf, Sized, SameShape, SameShapes, GatherOne, Taken, NoneRaises, Marked, KLen, VLen, Ones, Received;
    if !Scattered(dst[..i + 1], buf, 0, to, blockSize).1 {
      PartAt(dst, buf, to, blockSize, i);
      NotAllOnes(buf, Taken(src[..i], from, blockSize), Taken(dst[..i], to, blockSize), len);
    }
  }

  lemma MarkedPart(src: seq<Cache<Plane>>, from: Ids, blockSize: nat, i: nat)
    requires AllSized(src) && AllSized(Marked(src, i)) && i < |src| && StandingOf(src[i], from, blockSize) == Live
    ensures StandingOf(Marked(src, i)[i], from, blockSize) == Live
    ensures GatherOne(Marked(src, i)[i], from, blockSize) == Ones(KLen(src[i], blockSize) + VLen(src[i], blockSize))
  {
    PaintedPart(src[i], 1.0, from, blockSize);
    hide StandingOf, Sized, SameShape, GatherOne, KLen, VLen, Painted, Ones;
    AllOnes(Part(Painted(src[i], 1.0), from, blockSize));
  }

  /** What a cache that takes part receives, read back from it. */
  lemma PartAt(dst: seq<Cache<Plane>>, buf: Plane, to: Ids, blockSize: nat, i: nat)
    requires AllSized(dst) && i < |dst| && StandingOf(dst[i], to, blockSize) == Live && AllSized(dst[..i + 1])
    requires !Scattered(dst[..i + 1], buf, 0, to, blockSize).1
    ensures ReadsBack(dst[i], Scattered(dst[..i + 1], buf, 0, to, blockSize).0[i], buf, Taken(dst[..i], to, blockSize), to, blockSize)
  {
    hide *;
    FrontOfFront(dst, i);
    FrontReceives(dst[..i + 1], buf, to, blockSize, i);
    ReceivedMeans(dst[i], Scattered(dst[..i + 1], buf, 0, to, blockSize).0[i], buf, Taken(dst[..i], to, blockSize), to, blockSize);
  }

  /** Cache `d`, of the shape of `c`, holds at its block what the buffer has from `at` on. */
  ghost predicate ReadsBack(c: Cache<Plane>, d: Cache<Plane>, buf: Plane, at: nat, ids: Ids, blockSize: nat) {
    var len := KLen(c, blockSize) + VLen(c, blockSize);
    && Sized(d) && StandingOf(d, ids, blockSize) == Live
    && at + len <= |buf| && GatherOne(d, ids, blockSize) == buf[at..at + len]
  }

  lemma FrontOfFront<T>(s: seq<T>, i: nat)
    requires i < |s|
    ensures s[..i + 1][..i] == s[..i] && s[..i + 1][i] == s[i]
  {
  }

  lemma AllSizedFront(caches: seq<Cache<Plane>>, n: nat)
    requires AllSized(caches) && n <= |caches|
    ensures AllSized(caches[..n])
  {
    hide Sized;
  }

  lemma FrontReceives(front: seq<Cache<Plane>>, buf: Plane, to: Ids, blockSize: nat, i: nat)
    requires AllSized(front) && i < |front| && StandingOf(front[i], to, blockSize) == Live
    requires !Scattered(front, buf, 0, to, blockSize).1
    ensures var c := Scattered(front, buf, 0, to, blockSize).0[i];
      SameShape(front[i], c) && Received(c, buf, Taken(front[..i], to, blockSize), to, blockSize)
  {
    hide *;
    ScatteredPart(front, buf, 0, to, blockSize);
  }

  lemma ReceivedMeans(c: Cache<Plane>, d: Cache<Plane>, buf: Plane, at: nat, ids: Ids, blockSize: nat)
    requires SameShape(c, d) && Received(d, buf, at, ids, blockSize)
    ensures ReadsBack(c, d, buf, at, ids, blockSize)
  {
    StatusIsShape(c, d, ids, blockSize);
    hide Sized, StandingOf, KLen, VLen, GatherOne, SameShape;
  }

  function Ones(len: nat): Plane { seq(len, _ => 1.0) }

  lemma AllOnes(p: Plane)
    requires forall y :: y in p ==> y == 1.0
    ensures p == Ones(|p|)
  {
    forall j | 0 <= j < |p| ensures p[j] == Ones(|p|)[j] {
      assert p[j] in p;
    }
  }

  lemma NotAllOnes(buf: Plane, at: nat, other: nat, len: nat)
    requires OnesOnly(buf, at, len) && len > 0 && at != other && other + len <= |buf|
    ensures buf[other..other + len] != Ones(len)
  {
    var j := if other < at then 0 else len - 1;
    assert buf[other..other + len][j] == buf[other + j];
  }

  const NARROW: Cache<Plane> := Pair([1.0, 0.0], [2.0, 0.0], 2, 1, 2, 1)
  const WIDE: Cache<Plane> := Pair([3.0, 0.0, 0.0], [4.0, 0.0, 0.0], 3, 1, 3, 1)

  /** Block 0 of a cache with two blocks and one with three is stored as `1 2 3 4`... */
  lemma WitnessGathers()
    ensures AllSized([NARROW, WIDE]) && GatherBlock([NARROW, WIDE], Ids(0, 0), 16) == Some([1.0, 2.0, 3.0, 4.0])
    ensures GatherOne(WIDE, Ids(0, 0), 16) == [3.0, 4.0]
  {
    var from := Ids(0, 0);
    assert [NARROW, WIDE][1..] == [WIDE] && [WIDE][1..] == [];
    assert StandingOf([NARROW, WIDE][0], from, 16) == Live && StandingOf(WIDE, from, 16) == Live;
    assert GatherOne(NARROW, from, 16) == [1.0, 2.0] && GatherOne(WIDE, from, 16) == [3.0, 4.0];
    hide GatherOne, StandingOf;
    assert Gathered([], from, 16) == Some([]);
    assert Gathered([WIDE], from, 16) == Some([3.0, 4.0] + []);
    assert [1.0, 2.0] + ([3.0, 4.0] + []) == [1.0, 2.0, 3.0, 4.0];
  }

  /**
   * ...and restored to block 2, which only the second cache has: without an exception that cache
   * receives the first one's data. Both ends have to agree on the caches that take part.
   */
  lemma SkippedCacheShiftsTheRest()
    ensures AllSized([NARROW, WIDE])
    ensures var (out, raised) := Scattered([NARROW, WIDE], [1.0, 2.0, 3.0, 4.0], 0, Ids(2, 2), 16);
      !raised && out[1].k[2] == 1.0 && out[1].v[2] == 2.0
  {
    var to, buf := Ids(2, 2), [1.0, 2.0, 3.0, 4.0];
    assert [NARROW, WIDE][1..] == [WIDE] && [WIDE][1..] == [];
    assert ScatterOne(NARROW, buf, 0, to, 16) == Outcome(NARROW, 0, false);
    LiveInside(WIDE, to, 16);
    var o := ScatterOne(WIDE, buf, 0, to, 16);
    assert o.cache.k[2] == buf[0..1][0];
    assert o.cache.v[2] == buf[1..2][0];
    assert !o.raised;
    assert Scattered([WIDE], buf, 0, to, 16) == ([o.cache] + [], false);
    assert Scattered([NARROW, WIDE], buf, 0, to, 16) == ([NARROW] + ([o.cache] + []), false);
  }

  // ---- one step of each loop -----------------------------------------------------------------

  /** What is left to gather from cache `i` on completes what has been gathered so far. */
  predicate GatherSoFar(view: seq<Cache<Plane>>, i: nat, flat: Plane, ids: Ids, blockSize: nat)
    requires AllSized(view) && i <= |view|
  {
    Gathered(view, ids, blockSize) ==
      match Gathered(view[i..], ids, blockSize) case None => None case Some(rest) => Some(flat + rest)
  }

  lemma GatherStep(view: seq<Cache<Plane>>, i: nat, flat: Plane, ids: Ids, blockSize: nat)
    requires AllSized(view) && i < |view| && GatherSoFar(view, i, flat, ids, blockSize)
    ensures match StandingOf(view[i], ids, blockSize)
      case Raises => Gathered(view, ids, blockSize) == None
      case Skipped => GatherSoFar(view, i + 1, flat, ids, blockSize)
      case Live => GatherSoFar(view, i + 1, flat + GatherOne(view[i], ids, blockSize), ids, blockSize)
  {
    assert view[i..][0] == view[i] && view[i..][1..] == view[i + 1..];
    hide GatherOne, StandingOf, Sized;
    if StandingOf(view[i], ids, blockSize) == Live && Gathered(view[i + 1..], ids, blockSize).Some? {
      var g, rest := GatherOne(view[i], ids, blockSize), Gathered(view[i + 1..], ids, blockSize).value;
      assert flat + (g + rest) == flat + g + rest;
    }
  }

  /** Scattering from cache `i` on completes what has been scattered so far. */
  predicate ScatterSoFar(view: seq<Cache<Plane>>, out: seq<Cache<Plane>>, buf: Plane, offset: nat, ids: Ids, blockSize: nat)
    requires AllSized(view) && |out| <= |view|
  {
    offset <= |buf| &&
    var s := Scattered(view[|out|..], buf, offset, ids, blockSize);
    Scattered(view, buf, 0, ids, blockSize) == (out + s.0, s.1)
  }

  lemma ScatterStep(view: seq<Cache<Plane>>, out: seq<Cache<Plane>>, buf: Plane, offset: nat, ids: Ids, blockSize: nat)
    requires AllSized(view) && |out| < |view| && ScatterSoFar(view, out, buf, offset, ids, blockSize)
    ensures var o := ScatterOne(view[|out|], buf, offset, ids, blockSize);
      if o.raised then Scattered(view, buf, 0, ids, blockSize) == (out + [o.cache] + view[|out| + 1..], true)
      else ScatterSoFar(view, out + [o.cache], buf, o.offset, ids, blockSize)
  {
    hide Sized, ScatterOne, StandingOf, SameShape, Scattered;
    var i := |out|;
    var rest := view[i..];
    assert rest[0] == view[i] && rest[1..] == view[i + 1..];
    var o := ScatterOne(view[i], buf, offset, ids, blockSize);
    ScatteredUnfolds(rest, buf, offset, ids, blockSize);
    if o.raised {
      AppendOne(out, o.cache, view[i + 1..]);
    } else {
      AppendOne(out, o.cache, Scattered(view[i + 1..], buf, o.offset, ids, blockSize).0);
    }
  }

  lemma AppendOne<T>(a: seq<T>, x: T, b: seq<T>)
    ensures a + ([x] + b) == a + [x] + b
  {
  }

  lemma ScatteredUnfolds(caches: seq<Cache<Plane>>, buf: Plane, offset: nat, ids: Ids, blockSize: nat)
    requires AllSized(caches) && caches != [] && offset <= |buf|
    ensures var o := ScatterOne(caches[0], buf, offset, ids, blockSize);
      Scattered(caches, buf, offset, ids, blockSize) ==
        if o.raised then ([o.cache] + caches[1..], true)
        else
          var rest := Scattered(caches[1..], buf, o.offset, ids, blockSize);
          ([o.cache] + rest.0, rest.1)
  {
    hide ScatterOne, StandingOf, SameShape, Sized;
  }
}
