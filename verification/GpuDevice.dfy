/** The worker's loops over the caches on the device, proved against module `GpuBlocks`. */
module GpuDevice {
  import opened Common
  import opened GpuBlocks

  type Device = seq<Cache<array<real>>>

  ghost function PlanesOf(c: Cache<array<real>>): set<array<real>> {
    if c.Absent? then {} else {c.k, c.v}
  }

  ghost function Footprint(caches: Device): set<array<real>> {
    set i, a | 0 <= i < |caches| && a in PlanesOf(caches[i]) :: a
  }

  /** The contents of one cache. */
  ghost function ViewOne(c: Cache<array<real>>): Cache<Plane>
    reads PlanesOf(c)
  {
    match c
    case Absent => Absent
    case Pair(k, v, kRows, kElems, vRows, vElems) => Pair(k[..], v[..], kRows, kElems, vRows, vElems)
    case Paged(k, v, pages, pageSize, perToken) => Paged(k[..], v[..], pages, pageSize, perToken)
  }

  ghost function View(caches: Device): (r: seq<Cache<Plane>>)
    reads Footprint(caches)
    ensures |r| == |caches| && forall i :: 0 <= i < |caches| ==> r[i] == ViewOne(caches[i])
  {
    if caches == [] then [] else
      assert forall a :: a in Footprint(caches[1..]) ==> a in Footprint(caches) by {
        forall i, a | 0 <= i < |caches| - 1 && a in PlanesOf(caches[1..][i]) ensures a in Footprint(caches) {
          assert a in PlanesOf(caches[i + 1]);
        }
      }
      [ViewOne(caches[0])] + View(caches[1..])
  }

  /** Every plane has storage of its own. */
  ghost predicate Separate(caches: Device) {
    && (forall i :: 0 <= i < |caches| && !caches[i].Absent? ==> caches[i].k != caches[i].v)
    && (forall i, j :: 0 <= i < |caches| && 0 <= j < |caches| && i != j ==> Apart(caches[i], caches[j]))
  }

  ghost predicate Apart(c: Cache<array<real>>, d: Cache<array<real>>) {
    c.Absent? || d.Absent? || (c.k != d.k && c.k != d.v && c.v != d.k && c.v != d.v)
  }

  /** A view is determined cache by cache. */
  lemma ViewIs(caches: Device, v: seq<Cache<Plane>>)
    requires |v| == |caches| && forall i :: 0 <= i < |caches| ==> v[i] == ViewOne(caches[i])
    ensures v == View(caches)
  {
  }

  method GatherCaches(caches: Device, ids: Ids, blockSize: nat) returns (r: Option<Plane>)
    requires AllSized(View(caches))
    ensures r == GatherBlock(View(caches), ids, blockSize)
  {
    hide Gathered, StandingOf, GatherOne, Sized, View, GatherSoFar;
    ghost var view := View(caches);
    var flat: Plane := [];
    var some := false;
    GatherStart(view, ids, blockSize);
    for i := 0 to |caches|
      invariant some <==> exists j :: 0 <= j < i && StandingOf(view[j], ids, blockSize) == Live
      invariant forall j :: 0 <= j < |caches| ==> view[j] == ViewOne(caches[j])
      invariant GatherSoFar(view, i, flat, ids, blockSize)
    {
      GatherStep(view, i, flat, ids, blockSize);
      var raised, part := GatherCache(caches[i], ids, blockSize);
      if raised {
        ViewIs(caches, view);
        return None;
      }
      if part.Some? {
        flat := flat + part.value;
        some := true;
      }
    }
    GatherEnd(view, flat, ids, blockSize);
    assert some <==> SomeLive(view, ids, blockSize);
    ViewIs(caches, view);
    if some {
      r := Some(flat);
    } else {
      r := None;
    }
  }

  lemma GatherStart(view: seq<Cache<Plane>>, ids: Ids, blockSize: nat)
    requires AllSized(view)
    ensures GatherSoFar(view, 0, [], ids, blockSize)
  {
    assert view[0..] == view;
    if Gathered(view, ids, blockSize).Some? {
      assert [] + Gathered(view, ids, blockSize).value == Gathered(view, ids, blockSize).value;
    }
  }

  lemma GatherEnd(view: seq<Cache<Plane>>, flat: Plane, ids: Ids, blockSize: nat)
    requires AllSized(view) && GatherSoFar(view, |view|, flat, ids, blockSize)
    ensures Gathered(view, ids, blockSize) == Some(flat)
  {
    assert flat + [] == flat;
  }

  lemma PairPart(c: Cache<Plane>, ids: Ids, blockSize: nat)
    requires c.Pair? && Sized(c) && StandingOf(c, ids, blockSize) == Live
    ensures var atK, atV := ids.ListId() * c.kElems, ids.ListId() * c.vElems;
      && 0 <= atK <= atK + c.kElems <= |c.k| && 0 <= atV <= atV + c.vElems <= |c.v|
      && GatherOne(c, ids, blockSize) == c.k[atK..atK + c.kElems] + c.v[atV..atV + c.vElems]
  {
    LiveInside(c, ids, blockSize);
  }

  lemma PagedPart(c: Cache<Plane>, ids: Ids, blockSize: nat)
    requires c.Paged? && Sized(c) && StandingOf(c, ids, blockSize) == Live
    ensures var e, ppb := c.pageSize * c.perToken, PagesPerBlock(blockSize, c.pageSize);
      var at := ids.primary * ppb * e;
      && at + ppb * e <= |c.k| && at + ppb * e <= |c.v|
      && GatherOne(c, ids, blockSize) == c.k[at..at + ppb * e] + c.v[at..at + ppb * e]
  {
    LiveInside(c, ids, blockSize);
    MulAssoc(ids.primary, PagesPerBlock(blockSize, c.pageSize), c.pageSize * c.perToken);
  }

  /** One cache's part: `None` if it is passed over. */
  method GatherCache(c: Cache<array<real>>, ids: Ids, blockSize: nat) returns (raised: bool, part: Option<Plane>)
    requires Sized(ViewOne(c))
    ensures raised <==> StandingOf(ViewOne(c), ids, blockSize) == Raises
    ensures part.Some? <==> StandingOf(ViewOne(c), ids, blockSize) == Live
    ensures part.Some? ==> part.value == GatherOne(ViewOne(c), ids, blockSize)
  {
    hide GatherOne, Sized;
    if c.Absent? {
      raised, part := false, None;
    } else if c.Pair? {
      raised, part := GatherPair(c, ids, blockSize);
    } else {
      raised, part := GatherPaged(c, ids, blockSize);
    }
  }

  method GatherPair(c: Cache<array<real>>, ids: Ids, blockSize: nat) returns (raised: bool, part: Option<Plane>)
    requires c.Pair? && Sized(ViewOne(c))
    ensures raised <==> StandingOf(ViewOne(c), ids, blockSize) == Raises
    ensures part.Some? <==> StandingOf(ViewOne(c), ids, blockSize) == Live
    ensures part.Some? ==> part.value == GatherOne(ViewOne(c), ids, blockSize)
  {
    hide GatherOne, Sized;
    raised, part := false, None;
    var id := if ids.secondary != 0 then ids.secondary else ids.primary;
    if id < c.kRows {
      if id >= c.vRows {
        return true, None;
      }
      PairPart(ViewOne(c), ids, blockSize);
      var atK, atV := id * c.kElems, id * c.vElems;
      part := Some(c.k[atK..atK + c.kElems] + c.v[atV..atV + c.vElems]);
    }
  }

  method GatherPaged(c: Cache<array<real>>, ids: Ids, blockSize: nat) returns (raised: bool, part: Option<Plane>)
    requires c.Paged? && Sized(ViewOne(c))
    ensures raised <==> StandingOf(ViewOne(c), ids, blockSize) == Raises
    ensures part.Some? <==> StandingOf(ViewOne(c), ids, blockSize) == Live
    ensures part.Some? ==> part.value == GatherOne(ViewOne(c), ids, blockSize)
  {
    hide GatherOne, Sized;
    if c.pageSize == 0 {
      return true, None;
    }
    raised, part := false, None;
    var ppb := Max(1, blockSize / c.pageSize);
    var start := ids.primary * ppb;
    if start + ppb <= c.pages {
      PagedPart(ViewOne(c), ids, blockSize);
      var e := c.pageSize * c.perToken;
      part := Some(c.k[start * e..start * e + ppb * e] + c.v[start * e..start * e + ppb * e]);
    }
  }

  method PutRun(a: array<real>, at: nat, data: Plane)
    requires at + |data| <= a.Length
    modifies a
    ensures a[..] == Splice(old(a[..]), at, data)
  {
    forall j | 0 <= j < |data| {
      a[at + j] := data[j];
    }
  }

  /** One cache's part of the buffer, written in place. */
  method ScatterCache(c: Cache<array<real>>, buf: Plane, offset: nat, ids: Ids, blockSize: nat)
    returns (next: nat, raised: bool)
    requires Sized(ViewOne(c)) && offset <= |buf| && (!c.Absent? ==> c.k != c.v)
    modifies PlanesOf(c)
    ensures ScatterOne(old(ViewOne(c)), buf, offset, ids, blockSize) == Outcome(ViewOne(c), next, raised)
  {
    hide ScatterOne, Sized;
    if c.Absent? {
      next, raised := offset, false;
      AbsentScatters(buf, offset, ids, blockSize);
    } else if c.Pair? {
      next, raised := ScatterPair(c, buf, offset, ids, blockSize);
    } else {
      next, raised := ScatterPaged(c, buf, offset, ids, blockSize);
    }
  }

  lemma AbsentScatters(buf: Plane, offset: nat, ids: Ids, blockSize: nat)
    requires offset <= |buf|
    ensures ScatterOne(Absent, buf, offset, ids, blockSize) == Outcome(Absent, offset, false)
  {
  }

  method ScatterPair(c: Cache<array<real>>, buf: Plane, offset: nat, ids: Ids, blockSize: nat)
    returns (next: nat, raised: bool)
    requires c.Pair? && Sized(ViewOne(c)) && offset <= |buf| && c.k != c.v
    modifies PlanesOf(c)
    ensures ScatterOne(old(ViewOne(c)), buf, offset, ids, blockSize) == Outcome(ViewOne(c), next, raised)
  {
    next, raised := offset, false;
    ghost var view := ViewOne(c);
    var id := if ids.secondary != 0 then ids.secondary else ids.primary;
    if id >= c.kRows {
      return;
    }
    if id < c.vRows {
      LiveInside(view, ids, blockSize);
    } else {
      RaisingInside(view, ids, blockSize);
    }
    if c.vRows == 0 || offset + c.kElems > |buf| {
      return offset, true;
    }
    PutRun(c.k, id * c.kElems, buf[offset..offset + c.kElems]);
    if id >= c.vRows {
      return offset, true;
    }
    next := offset + c.kElems;
    if next + c.vElems > |buf| {
      return next, true;
    }
    PutRun(c.v, id * c.vElems, buf[next..next + c.vElems]);
    next := next + c.vElems;
  }

  method ScatterPaged(c: Cache<array<real>>, buf: Plane, offset: nat, ids: Ids, blockSize: nat)
    returns (next: nat, raised: bool)
    requires c.Paged? && Sized(ViewOne(c)) && offset <= |buf| && c.k != c.v
    modifies PlanesOf(c)
    ensures ScatterOne(old(ViewOne(c)), buf, offset, ids, blockSize) == Outcome(ViewOne(c), next, raised)
  {
    next, raised := offset, false;
    ghost var view := ViewOne(c);
    if c.pageSize == 0 {
      return offset, true;
    }
    var ppb := Max(1, blockSize / c.pageSize);
    var start := ids.primary * ppb;
    if start + ppb > c.pages {
      return;
    }
    LiveInside(view, ids, blockSize);
    var e := c.pageSize * c.perToken;
    MulAssoc(ids.primary, ppb, e);
    var n := ppb * e;
    if offset + n > |buf| {
      return offset, true;
    }
    PutRun(c.k, start * e, buf[offset..offset + n]);
    next := offset + n;
    if next + n > |buf| {
      return next, true;
    }
    PutRun(c.v, start * e, buf[next..next + n]);
    next := next + n;
  }

  /** Scattering into one cache leaves the others alone, since no two planes share storage. */
  method ScatterCacheAt(caches: Device, i: nat, buf: Plane, offset: nat, ids: Ids, blockSize: nat)
    returns (next: nat, raised: bool)
    requires i < |caches| && Separate(caches) && Sized(ViewOne(caches[i])) && offset <= |buf|
    modifies Footprint(caches)
    ensures ScatterOne(old(ViewOne(caches[i])), buf, offset, ids, blockSize) == Outcome(ViewOne(caches[i]), next, raised)
    ensures forall j :: 0 <= j < |caches| && j != i ==> ViewOne(caches[j]) == old(ViewOne(caches[j]))
  {
    hide ScatterOne, Sized;
    assert forall a :: a in PlanesOf(caches[i]) ==> a in Footprint(caches);
    next, raised := ScatterCache(caches[i], buf, offset, ids, blockSize);
    forall j | 0 <= j < |caches| && j != i
      ensures ViewOne(caches[j]) == old(ViewOne(caches[j]))
    {
      assert Apart(caches[i], caches[j]);
      if !caches[j].Absent? {
        assert caches[j].k !in PlanesOf(caches[i]) && caches[j].v !in PlanesOf(caches[i]);
        assert caches[j].k[..] == old(caches[j].k[..]);
        assert caches[j].v[..] == old(caches[j].v[..]);
      }
    }
  }

  lemma PartlyDone(caches: Device, out: seq<Cache<Plane>>, before: seq<Cache<Plane>>)
    requires |before| == |caches| && |out| <= |caches|
    requires forall j :: 0 <= j < |out| ==> ViewOne(caches[j]) == out[j]
    requires forall j :: |out| <= j < |caches| ==> ViewOne(caches[j]) == before[j]
    ensures out + before[|out|..] == View(caches)
  {
    var all := out + before[|out|..];
    forall j | 0 <= j < |caches| ensures all[j] == ViewOne(caches[j]) {
      if j >= |out| {
        assert all[j] == before[j];
      }
    }
    ViewIs(caches, all);
  }

  method ScatterCaches(caches: Device, buf: Plane, ids: Ids, blockSize: nat) returns (raised: bool)
    requires AllSized(View(caches)) && Separate(caches)
    modifies Footprint(caches)
    ensures (View(caches), raised) == Scattered(old(View(caches)), buf, 0, ids, blockSize)
  {
    hide ScatterOne, Sized, Scattered, View, ViewOne, ScatterSoFar, Separate, Footprint, SameShape;
    ghost var before := View(caches);
    ghost var out: seq<Cache<Plane>> := [];
    var offset: nat := 0;
    ScatterStart(before, buf, ids, blockSize);
    for i := 0 to |caches|
      invariant |out| == i && offset <= |buf|
      invariant forall j :: 0 <= j < i ==> ViewOne(caches[j]) == out[j]
      invariant forall j :: i <= j < |caches| ==> ViewOne(caches[j]) == before[j]
      invariant ScatterSoFar(before, out, buf, offset, ids, blockSize)
    {
      ScatterStep(before, out, buf, offset, ids, blockSize);
      var next, failed := ScatterCacheAt(caches, i, buf, offset, ids, blockSize);
      out := out + [ViewOne(caches[i])];
      if failed {
        PartlyDone(caches, out, before);
        return true;
      }
      offset := next;
    }
    ScatterEnd(before, out, buf, offset, ids, blockSize);
    ViewIs(caches, out);
    raised := false;
  }

  lemma ScatterStart(view: seq<Cache<Plane>>, buf: Plane, ids: Ids, blockSize: nat)
    requires AllSized(view)
    ensures ScatterSoFar(view, [], buf, 0, ids, blockSize)
  {
    assert view[0..] == view;
    var s := Scattered(view, buf, 0, ids, blockSize);
    assert [] + s.0 == s.0;
  }

  lemma ScatterEnd(view: seq<Cache<Plane>>, out: seq<Cache<Plane>>, buf: Plane, offset: nat, ids: Ids, blockSize: nat)
    requires AllSized(view) && |out| == |view| && ScatterSoFar(view, out, buf, offset, ids, blockSize)
    ensures Scattered(view, buf, 0, ids, blockSize) == (out, false)
  {
    assert view[|out|..] == [];
    assert out + [] == out;
  }
}
