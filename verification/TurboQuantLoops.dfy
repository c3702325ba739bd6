/** The loops of TurboQuant, each proved against the functions of module `TurboQuant`. */
module TurboQuantLoops {
  import opened Common
  import opened TurboQuant

  method EncodeGroup(floats: seq<real>) returns (out: seq<Byte>)
    ensures out == EncodedGroup(floats)
  {
    var absmax := 0.0;
    for i := 0 to |floats|
      invariant absmax == AbsMax(floats[..i])
    {
      assert floats[..i + 1][..i] == floats[..i];
      absmax := MaxReal(absmax, Abs(floats[i]));
    }
    assert floats[..|floats|] == floats;
    var scale := MaxReal(absmax / LEVELS, FLOOR);
    out := StoreF32(scale);
    for i := 0 to |floats|
      invariant out == StoreF32(scale) + Codes(floats, scale)[..i]
    {
      out := out + [CodeByte(Quantize(floats[i], scale))];
      assert Codes(floats, scale)[..i + 1] == Codes(floats, scale)[..i] + [Codes(floats, scale)[i]];
    }
    assert Codes(floats, scale)[..|floats|] == Codes(floats, scale);
  }

  method EncodeGrouped(floats: seq<real>, groupSize: nat) returns (out: seq<Byte>)
    requires groupSize > 0
    ensures out == Encoded(floats, groupSize)
  {
    hide Encoded, EncodedGroup;
    out := [];
    var i := 0;
    assert floats[0..] == floats && [] + Encoded(floats, groupSize) == Encoded(floats, groupSize);
    while i < |floats|
      invariant 0 <= i <= |floats|
      invariant out + Encoded(floats[i..], groupSize) == Encoded(floats, groupSize)
    {
      var n := Min(groupSize, |floats| - i);
      var group := EncodeGroup(floats[i..i + n]);
      EncodedFrom(floats, i, n, groupSize);
      AppendAssociative(out, group, Encoded(floats[i + n..], groupSize));
      out := out + group;
      i := i + n;
    }
    EncodedNothing(groupSize);
    assert floats[i..] == [] && out + [] == out;
  }

  lemma EncodedNothing(dim: nat)
    requires dim > 0
    ensures Encoded([], dim) == []
  {
  }

  lemma AppendAssociative<T>(a: seq<T>, b: seq<T>, c: seq<T>)
    ensures a + (b + c) == (a + b) + c
  {
  }

  lemma EncodedFrom(fs: seq<real>, i: nat, n: nat, dim: nat)
    requires dim > 0 && i < |fs| && n == Min(dim, |fs| - i)
    ensures Encoded(fs[i..], dim) == EncodedGroup(fs[i..i + n]) + Encoded(fs[i + n..], dim)
  {
    var rest := fs[i..];
    assert rest[..n] == fs[i..i + n] && rest[n..] == fs[i + n..];
    if |rest| <= dim {
      assert rest[..|rest|] == rest;
      assert EncodedGroup(rest) + [] == EncodedGroup(rest);
    }
  }

  /** The inner loop: one chunk of the stream. */
  method DecodeChunk(chunk: seq<Byte>) returns (g: seq<real>)
    requires |chunk| >= 4
    ensures g == DecodedGroup(chunk)
  {
    var scale := LoadF32(chunk[..4]);
    g := [];
    ghost var all := DecodedGroup(chunk);
    for j := 4 to |chunk|
      invariant g == all[..j - 4]
    {
      assert all[..j - 3] == all[..j - 4] + [all[j - 4]];
      assert all[j - 4] == Signed(chunk[4 + (j - 4)]) as real * scale;
      g := g + [Signed(chunk[j]) as real * scale];
    }
  }

  lemma DecodedFrom(data: seq<Byte>, i: nat, dim: nat)
    requires dim > 0 && i <= |data|
    ensures |data| - i < 4 + dim ==> DecodedChunks(data[i..], dim) == []
    ensures |data| - i >= 4 + dim ==>
      DecodedChunks(data[i..], dim) == DecodedGroup(data[i..i + 4 + dim]) + DecodedChunks(data[i + 4 + dim..], dim)
  {
    var rest := data[i..];
    if |rest| >= 4 + dim {
      assert rest[..4 + dim] == data[i..i + 4 + dim] && rest[4 + dim..] == data[i + 4 + dim..];
    }
  }

  method DecodeGroupedInner(data: seq<Byte>, groupSize: nat) returns (r: Result<seq<real>>)
    requires groupSize > 0
    ensures r == Decoded(data, groupSize)
  {
    hide DecodedChunks, DecodedGroup;
    if |data| < 4 {
      return Err;
    }
    var stride := 4 + groupSize;
    if |data| % stride != 0 {
      return Err;
    }
    var floats := [];
    var i := 0;
    assert data[0..] == data && [] + DecodedChunks(data, groupSize) == DecodedChunks(data, groupSize);
    while |data| - i >= stride
      invariant 0 <= i <= |data|
      invariant floats + DecodedChunks(data[i..], groupSize) == DecodedChunks(data, groupSize)
    {
      var chunk := DecodeChunk(data[i..i + stride]);
      DecodedFrom(data, i, groupSize);
      AppendAssociative(floats, chunk, DecodedChunks(data[i + stride..], groupSize));
      floats := floats + chunk;
      i := i + stride;
    }
    DecodedFrom(data, i, groupSize);
    assert floats + [] == floats;
    r := Ok(floats);
  }

  // ---- the parallel in-place decoder ---------------------------------------------------------

  lemma MulDistributes(a: int, b: int, d: int)
    ensures (a + b) * d == a * d + b * d
  {
  }

  lemma GroupInside(g: int, groups: int, d: int)
    requires 0 <= g < groups && d >= 0
    ensures 0 <= g * d && g * d + d <= groups * d
  {
    MulDistributes(g, 1, d);
    MulDistributes(groups - g - 1, g + 1, d);
    MulNonneg(groups - g - 1, d);
    MulNonneg(g, d);
  }

  lemma MulNonneg(a: int, d: int)
    requires a >= 0 && d >= 0
    ensures a * d >= 0
  {
  }

  lemma PredMul(g: int, d: int)
    ensures g * d == (g - 1) * d + d
  {
  }

  function Chunk(data: seq<Byte>, at: int, dim: nat): seq<Byte>
    requires 0 <= at && at + 4 + dim <= |data|
  {
    data[at..at + 4 + dim]
  }

  function Lane(chunk: seq<Byte>, lane: nat): real
    requires 4 + lane < |chunk|
  {
    Signed(chunk[4 + lane]) as real * LoadF32(chunk[..4])
  }

  /** Lane `lane` of group `g` is float `g * dim + lane` of the sequential decoding. */
  lemma {:induction false} DecodedAt(data: seq<Byte>, dim: nat, g: nat, lane: nat)
    requires dim > 0 && lane < dim && 0 <= g * (4 + dim) && g * (4 + dim) + 4 + dim <= |data|
    ensures 0 <= g * dim && g * dim + lane < |DecodedChunks(data, dim)|
    ensures DecodedChunks(data, dim)[g * dim + lane] == Lane(Chunk(data, g * (4 + dim), dim), lane)
    decreases g
  {
    hide DecodedChunks, LoadF32, Signed, Chunk, Lane, DecodedGroup;
    MulNonneg(g, dim);
    if g == 0 {
      FirstGroupAt(data, dim, lane);
    } else {
      DecodedAtNext(data, dim, g, lane);
      var rest := data[4 + dim..];
      DecodedAt(rest, dim, g - 1, lane);
      ChunksUnfold(data, dim);
      PredMul(g, dim);
      SkipFirst(DecodedGroup(data[..4 + dim]), DecodedChunks(rest, dim), (g - 1) * dim + lane);
    }
  }

  lemma ChunksUnfold(data: seq<Byte>, dim: nat)
    requires dim > 0 && |data| >= 4 + dim
    ensures DecodedChunks(data, dim) == DecodedGroup(data[..4 + dim]) + DecodedChunks(data[4 + dim..], dim)
    ensures |DecodedGroup(data[..4 + dim])| == dim
  {
  }

  lemma FirstGroupAt(data: seq<Byte>, dim: nat, lane: nat)
    requires dim > 0 && lane < dim && 4 + dim <= |data|
    ensures lane < |DecodedChunks(data, dim)| && DecodedChunks(data, dim)[lane] == Lane(Chunk(data, 0, dim), lane)
  {
    ChunksUnfold(data, dim);
    hide DecodedChunks, LoadF32, Signed;
    assert Chunk(data, 0, dim) == data[..4 + dim];
  }

  lemma SkipFirst<T>(a: seq<T>, b: seq<T>, i: nat)
    requires i < |b|
    ensures (a + b)[|a| + i] == b[i]
  {
  }

  lemma DecodedAtNext(data: seq<Byte>, dim: nat, g: nat, lane: nat)
    requires g > 0 && g * (4 + dim) + 4 + dim <= |data|
    ensures |data| >= 4 + dim && 0 <= (g - 1) * (4 + dim) && (g - 1) * (4 + dim) + 4 + dim <= |data[4 + dim..]|
    ensures 0 <= g * (4 + dim)
    ensures Chunk(data[4 + dim..], (g - 1) * (4 + dim), dim) == Chunk(data, g * (4 + dim), dim)
  {
    PredMul(g, 4 + dim);
    MulNonneg(g - 1, 4 + dim);
  }

  lemma {:induction false} FloatBytesAt(fs: seq<real>, j: nat)
    requires j < |fs|
    ensures F32ToBytes(fs)[4 * j..4 * j + 4] == StoreF32(fs[j])
  {
    var b := F32ToBytes(fs);
    if j > 0 {
      FloatBytesAt(fs[1..], j - 1);
      assert b[4 * j..4 * j + 4] == F32ToBytes(fs[1..])[4 * (j - 1)..4 * (j - 1) + 4];
    }
  }

  ghost predicate Written(out: seq<Byte>, fs: seq<real>, j: int) {
    0 <= j < |fs| && 4 * j + 4 <= |out| && out[4 * j..4 * j + 4] == StoreF32(fs[j])
  }

  lemma {:induction false} FloatBytesDetermined(fs: seq<real>, b: seq<Byte>)
    requires |b| == 4 * |fs|
    requires forall j :: 0 <= j < |fs| ==> Written(b, fs, j)
    ensures b == F32ToBytes(fs)
  {
    if fs != [] {
      forall j | 0 <= j < |fs| - 1 ensures Written(b[4..], fs[1..], j) {
        assert Written(b, fs, j + 1);
        assert b[4..][4 * j..4 * j + 4] == b[4 * (j + 1)..4 * (j + 1) + 4];
      }
      FloatBytesDetermined(fs[1..], b[4..]);
      assert Written(b, fs, 0);
      assert b[..4] == b[4 * 0..4 * 0 + 4];
      assert b == b[..4] + b[4..];
    } else {
      assert b == [];
    }
  }

  /** One float is written by one worker; workers interleave in any way, and may even repeat themselves. */
  datatype Write = Write(group: nat, lane: nat)

  ghost predicate Covers(schedule: seq<Write>, groups: nat, dim: nat) {
    && (forall w :: w in schedule ==> w.group < groups && w.lane < dim)
    && (forall g, l :: 0 <= g < groups && 0 <= l < dim ==> Write(g, l) in schedule)
  }

  lemma WriteKeepsOthers(before: seq<Byte>, after: seq<Byte>, fs: seq<real>, j: int, k: int)
    requires |before| == |after| && 0 <= j && 4 * j + 4 <= |before|
    requires after[..4 * j] == before[..4 * j] && after[4 * j + 4..] == before[4 * j + 4..]
    requires Written(before, fs, k) && Written(after, fs, j)
    ensures Written(after, fs, k)
  {
    if k < j {
      assert after[4 * k..4 * k + 4] == after[..4 * j][4 * k..4 * k + 4];
      assert before[4 * k..4 * k + 4] == before[..4 * j][4 * k..4 * k + 4];
    } else if k > j {
      assert after[4 * k..4 * k + 4] == after[4 * j + 4..][4 * (k - j - 1)..4 * (k - j - 1) + 4];
      assert before[4 * k..4 * k + 4] == before[4 * j + 4..][4 * (k - j - 1)..4 * (k - j - 1) + 4];
    }
  }

  method WriteFloat(out: array<Byte>, j: nat, x: real)
    requires 4 * j + 4 <= out.Length
    modifies out
    ensures out[4 * j..4 * j + 4] == StoreF32(x)
    ensures out[..4 * j] == old(out[..4 * j]) && out[4 * j + 4..] == old(out[4 * j + 4..])
  {
    out[4 * j] := Part(x, 0);
    out[4 * j + 1] := Part(x, 1);
    out[4 * j + 2] := Part(x, 2);
    out[4 * j + 3] := Part(x, 3);
  }

  /** What one worker does for one float. */
  method WriteLane(data: seq<Byte>, dim: nat, groups: nat, out: array<Byte>, w: Write) returns (j: nat)
    requires dim > 0 && w.group < groups && w.lane < dim && |data| == groups * (4 + dim)
    requires |DecodedChunks(data, dim)| == groups * dim && 4 * |DecodedChunks(data, dim)| <= out.Length
    modifies out
    ensures j == w.group * dim + w.lane < |DecodedChunks(data, dim)|
    ensures out[4 * j..4 * j + 4] == StoreF32(DecodedChunks(data, dim)[j])
    ensures out[..4 * j] == old(out[..4 * j]) && out[4 * j + 4..] == old(out[4 * j + 4..])
  {
    hide DecodedChunks, StoreF32, Lane;
    var g := w.group;
    GroupInside(g, groups, 4 + dim);
    GroupInside(g, groups, dim);
    DecodedAt(data, dim, g, w.lane);
    j := g * dim + w.lane;
    WriteFloat(out, j, Lane(Chunk(data, g * (4 + dim), dim), w.lane));
  }

  lemma Announced(data: seq<Byte>, dim: nat)
    requires dim > 0 && |data| >= 4 && |data| % (4 + dim) == 0
    ensures var fs := DecodedChunks(data, dim);
      && Decoded(data, dim) == Ok(fs) && |fs| == |data| / (4 + dim) * dim
      && DecodedSize(|data|, dim) == Ok(|fs| * 4) && |data| == |data| / (4 + dim) * (4 + dim)
  {
    DecodedChunksLength(data, dim);
  }

  lemma Refused(data: seq<Byte>, dim: nat)
    requires dim > 0
    ensures |data| < 4 || |data| % (4 + dim) != 0 ==> Decoded(data, dim).Err?
  {
  }

  /** Whatever order the groups are worked on in, the buffer ends up with the sequential decoding and an untouched tail. */
  method DecodeGroupedInto(data: seq<Byte>, groupSize: nat, out: array<Byte>, schedule: seq<Write>)
    returns (r: Result<nat>)
    requires groupSize > 0
    requires |data| % (4 + groupSize) == 0 ==> Covers(schedule, |data| / (4 + groupSize), groupSize)
    modifies out
    ensures r.Ok? <==> Decoded(data, groupSize).Ok? && 4 * |Decoded(data, groupSize).value| <= out.Length
    ensures r.Ok? ==> DecodedSize(|data|, groupSize) == r && r.value <= out.Length
    ensures r.Ok? ==> out[..r.value] == F32ToBytes(Decoded(data, groupSize).value)
    ensures r.Ok? ==> out[r.value..] == old(out[r.value..])
    ensures r.Err? ==> out[..] == old(out[..])
  {
    hide Decoded, DecodedSize, DecodedChunks, Lane, Chunk, Written, F32ToBytes, StoreF32;
    Refused(data, groupSize);
    if |data| < 4 {
      return Err;
    }
    var stride := 4 + groupSize;
    if |data| % stride != 0 {
      return Err;
    }
    var groups := |data| / stride;
    var expected := groups * groupSize * 4;
    ghost var fs := DecodedChunks(data, groupSize);
    Announced(data, groupSize);
    if out.Length < expected {
      return Err;
    }
    ghost var done: set<int> := {};
    for n := 0 to |schedule|
      invariant forall m :: 0 <= m < n ==> schedule[m].group * groupSize + schedule[m].lane in done
      invariant forall j :: j in done ==> Written(out[..], fs, j)
      invariant out[expected..] == old(out[expected..])
    {
      assert schedule[n] in schedule;
      ghost var before := out[..];
      var j := WriteLane(data, groupSize, groups, out, schedule[n]);
      AfterWrite(before, out[..], fs, j, done, expected);
      done := done + {j};
    }
    AllDone(schedule, groups, groupSize, fs, done);
    WholeBuffer(out[..], fs);
    r := Ok(expected);
  }

  lemma AfterWrite(before: seq<Byte>, after: seq<Byte>, fs: seq<real>, j: nat, done: set<int>, expected: nat)
    requires |before| == |after| && j < |fs| && 4 * |fs| == expected <= |before|
    requires after[..4 * j] == before[..4 * j] && after[4 * j + 4..] == before[4 * j + 4..]
    requires after[4 * j..4 * j + 4] == StoreF32(fs[j])
    requires forall k :: k in done ==> Written(before, fs, k)
    ensures forall k :: k in done + {j} ==> Written(after, fs, k)
    ensures after[expected..] == before[expected..]
  {
    forall k | k in done ensures Written(after, fs, k) {
      WriteKeepsOthers(before, after, fs, j, k);
    }
    assert after[expected..] == after[4 * j + 4..][expected - 4 * j - 4..];
    assert before[expected..] == before[4 * j + 4..][expected - 4 * j - 4..];
  }

  lemma AllDone(schedule: seq<Write>, groups: nat, dim: nat, fs: seq<real>, done: set<int>)
    requires dim > 0 && Covers(schedule, groups, dim) && |fs| == groups * dim
    requires forall m :: 0 <= m < |schedule| ==> schedule[m].group * dim + schedule[m].lane in done
    ensures forall j :: 0 <= j < |fs| ==> j in done
  {
    forall j: nat | j < |fs| ensures j in done {
      var g, l := j / dim, j % dim;
      GroupAndLane(j, dim, groups);
      assert Write(g, l) in schedule;
      var m :| 0 <= m < |schedule| && schedule[m] == Write(g, l);
    }
  }

  lemma GroupAndLane(j: nat, dim: nat, groups: nat)
    requires dim > 0 && j < groups * dim
    ensures 0 <= j / dim < groups && 0 <= j % dim < dim && j == j / dim * dim + j % dim
  {
    var g := j / dim;
    if g >= groups {
      MulDistributes(g - groups, groups, dim);
      MulNonneg(g - groups, dim);
    }
  }

  lemma WholeBuffer(out: seq<Byte>, fs: seq<real>)
    requires 4 * |fs| <= |out| && forall j :: 0 <= j < |fs| ==> Written(out, fs, j)
    ensures out[..4 * |fs|] == F32ToBytes(fs)
  {
    hide F32ToBytes, StoreF32;
    var b := out[..4 * |fs|];
    forall j | 0 <= j < |fs| ensures Written(b, fs, j) {
      assert Written(out, fs, j);
      assert b[4 * j..4 * j + 4] == out[4 * j..4 * j + 4];
    }
    FloatBytesDetermined(fs, b);
  }
}
