/**
 * TurboQuant: per-group INT8 quantisation. Floats are modelled as reals, so rounding happens only
 * where the code rounds on purpose. The four bytes of a stored float are abstract: they carry its value.
 */
module TurboQuant {
  import opened Common

  /** One byte of a buffer: byte `index` of a stored float, or a plain byte. */
  datatype Byte = Part(value: real, index: nat) | Raw(v: byte)

  const FLOOR := 0.00000001
  const LEVELS := 127.0

  // ---- floats and bytes ----------------------------------------------------------------------

  function StoreF32(x: real): seq<Byte> { [Part(x, 0), Part(x, 1), Part(x, 2), Part(x, 3)] }

  /** Reads four bytes as a float; bytes that were not written by `StoreF32` read as some fixed value. */
  function LoadF32(b: seq<Byte>): real
    requires |b| == 4
  {
    if b[0].Part? && b == StoreF32(b[0].value) then b[0].value else 0.0
  }

  function F32ToBytes(fs: seq<real>): (b: seq<Byte>)
    ensures |b| == 4 * |fs|
  {
    if fs == [] then [] else StoreF32(fs[0]) + F32ToBytes(fs[1..])
  }

  function Chunks4(data: seq<Byte>): (fs: seq<real>)
    requires |data| % 4 == 0
    ensures |fs| == |data| / 4
  {
    if data == [] then [] else [LoadF32(data[..4])] + Chunks4(data[4..])
  }

  function BytesToF32(data: seq<Byte>): Result<seq<real>> {
    if |data| % 4 != 0 then Err else Ok(Chunks4(data))
  }

  // ---- one group -----------------------------------------------------------------------------

  function Abs(x: real): real { if x < 0.0 then -x else x }

  function MaxReal(x: real, y: real): real { if x < y then y else x }

  function AbsMax(g: seq<real>): real {
    if g == [] then 0.0 else MaxReal(AbsMax(g[..|g| - 1]), Abs(g[|g| - 1]))
  }

  function Scale(g: seq<real>): (s: real)
    ensures s >= FLOOR
  {
    MaxReal(AbsMax(g) / LEVELS, FLOOR)
  }

  /** Round half away from zero. */
  function Round(x: real): int {
    if x >= 0.0 then (x + 0.5).Floor else -((-x + 0.5).Floor)
  }

  function Clamp(q: int): int { Max(-127, Min(127, q)) }

  function Quantize(f: real, scale: real): int
    requires scale > 0.0
  {
    Clamp(Round(f / scale))
  }

  /** `i8 as u8` and back. */
  function CodeByte(q: int): Byte
    requires -128 <= q < 128
  {
    Raw(if q < 0 then q + 256 else q)
  }

  function Signed(b: Byte): int {
    match b
    case Raw(v) => if v >= 128 then v - 256 else v
    case Part(_, _) => 0
  }

  function Codes(g: seq<real>, scale: real): (c: seq<Byte>)
    requires scale > 0.0
    ensures |c| == |g|
  {
    seq(|g|, i requires 0 <= i < |g| => CodeByte(Quantize(g[i], scale)))
  }

  function EncodedGroup(g: seq<real>): (out: seq<Byte>)
    ensures |out| == 4 + |g|
  {
    StoreF32(Scale(g)) + Codes(g, Scale(g))
  }

  function DecodedGroup(chunk: seq<Byte>): (g: seq<real>)
    requires |chunk| >= 4
    ensures |g| == |chunk| - 4
  {
    seq(|chunk| - 4, i requires 0 <= i < |chunk| - 4 => Signed(chunk[4 + i]) as real * LoadF32(chunk[..4]))
  }

  // ---- whole buffers -------------------------------------------------------------------------

  function Encoded(fs: seq<real>, dim: nat): seq<Byte>
    requires dim > 0
  {
    if |fs| <= dim then (if fs == [] then [] else EncodedGroup(fs))
    else EncodedGroup(fs[..dim]) + Encoded(fs[dim..], dim)
  }

  function DecodedChunks(data: seq<Byte>, dim: nat): seq<real>
    requires dim > 0
  {
    if |data| < 4 + dim then [] else DecodedGroup(data[..4 + dim]) + DecodedChunks(data[4 + dim..], dim)
  }

  function Decoded(data: seq<Byte>, dim: nat): Result<seq<real>>
    requires dim > 0
  {
    if |data| < 4 then Err
    else if |data| % (4 + dim) != 0 then Err
    else Ok(DecodedChunks(data, dim))
  }

  function DecodedSize(compressedLen: nat, dim: nat): Result<nat>
    requires dim > 0
  {
    if compressedLen % (4 + dim) != 0 then Err else Ok(compressedLen / (4 + dim) * dim * 4)
  }

  /** `TurboQuant::encode`: float bytes in, compressed bytes out. */
  function Encode(data: seq<Byte>, dim: nat): Result<seq<Byte>>
    requires dim > 0
  {
    match BytesToF32(data)
    case Ok(fs) => Ok(Encoded(fs, dim))
    case Err => Err
  }

  /** `TurboQuant::decode`: compressed bytes in, float bytes out. */
  function Decode(data: seq<Byte>, dim: nat): Result<seq<Byte>>
    requires dim > 0
  {
    match Decoded(data, dim)
    case Ok(fs) => Ok(F32ToBytes(fs))
    case Err => Err
  }

  // ---- layout --------------------------------------------------------------------------------

  lemma ModStep(n: int, d: int)
    requires 0 < d <= n
    ensures (n - d) % d == n % d && (n - d) / d == n / d - 1
  {
    var q, r := n / d, n % d;
    assert n - d == (q - 1) * d + r;
    DivModUnique(n - d, d, q - 1, r);
  }

  lemma SmallMultiple(k: int, d: int)
    requires d > 0 && -d < k * d < d
    ensures k == 0
  {
    if k > 0 {
      MulAtLeast(k, d);
    } else if k < 0 {
      MulAtLeast(-k, d);
    }
  }

  lemma MulAtLeast(k: int, d: int)
    requires d > 0 && k > 0
    ensures k * d >= d
  {
  }

  lemma DivModUnique(n: int, d: int, q: int, r: int)
    requires d > 0 && 0 <= r < d && n == q * d + r
    ensures n / d == q && n % d == r
  {
    var q', r' := n / d, n % d;
    assert n == q' * d + r';
    assert (q - q') * d == r' - r;
    SmallMultiple(q - q', d);
  }

  /** A float count and the length of its encoding are aligned together, and count the same groups. */
  lemma {:induction false} EncodedLayout(fs: seq<real>, dim: nat)
    requires dim > 0
    ensures fs != [] ==> |Encoded(fs, dim)| >= 4
    ensures |Encoded(fs, dim)| % (4 + dim) == 0 <==> |fs| % dim == 0
    ensures |fs| % dim == 0 ==> |Encoded(fs, dim)| / (4 + dim) == |fs| / dim
    decreases |fs|
  {
    EncodedLength(fs, dim);
    hide Encoded;
    var n := |Encoded(fs, dim)|;
    if |fs| < dim {
      DivModUnique(|fs|, dim, 0, |fs|);
      DivModUnique(n, 4 + dim, 0, n);
    } else if |fs| == dim {
      DivModUnique(|fs|, dim, 1, 0);
      DivModUnique(4 + dim, 4 + dim, 1, 0);
    } else {
      EncodedLayout(fs[dim..], dim);
      ModStep(|fs|, dim);
      ModStep(n, 4 + dim);
    }
  }

  lemma {:induction false} EncodedLength(fs: seq<real>, dim: nat)
    requires dim > 0
    ensures |Encoded(fs, dim)| ==
      if fs == [] then 0 else if |fs| <= dim then 4 + |fs| else 4 + dim + |Encoded(fs[dim..], dim)|
  {
  }

  lemma {:induction false} DecodedChunksLength(data: seq<Byte>, dim: nat)
    requires dim > 0
    ensures |DecodedChunks(data, dim)| == |data| / (4 + dim) * dim
    decreases |data|
  {
    if |data| < 4 + dim {
      DivModUnique(|data|, 4 + dim, 0, |data|);
    } else {
      DecodedChunksLength(data[4 + dim..], dim);
      ModStep(|data|, 4 + dim);
      var k := |data| / (4 + dim);
      assert (k - 1) * dim + dim == k * dim;
    }
  }

  /** An encoding decodes exactly when there was something to encode and the groups came out even. */
  lemma DecodeSucceedsIff(fs: seq<real>, dim: nat)
    requires dim > 0
    ensures Decoded(Encoded(fs, dim), dim).Ok? <==> |fs| > 0 && |fs| % dim == 0
    ensures Decoded(Encoded(fs, dim), dim).Ok? ==> |Decoded(Encoded(fs, dim), dim).value| == |fs|
    ensures |fs| % dim == 0 ==> DecodedSize(|Encoded(fs, dim)|, dim) == Ok(4 * |fs|)
  {
    EncodedLayout(fs, dim);
    DecodedChunksLength(Encoded(fs, dim), dim);
    hide Encoded, DecodedChunks;
    WholeGroups(|fs|, dim);
  }

  lemma WholeGroups(n: nat, dim: nat)
    requires dim > 0
    ensures n % dim == 0 ==> n / dim * dim == n
  {
  }

  /** For decodable data the size announced beforehand is the size of what decoding yields. */
  lemma DecodedSizeIsExact(data: seq<Byte>, dim: nat)
    requires dim > 0
    ensures DecodedSize(|data|, dim).Ok? <==> data == [] || Decoded(data, dim).Ok?
    ensures Decode(data, dim).Ok? ==> DecodedSize(|data|, dim) == Ok(|Decode(data, dim).value|)
  {
    DecodedChunksLength(data, dim);
    if 0 < |data| < 4 {
      DivModUnique(|data|, 4 + dim, 0, |data|);
    }
    if data == [] {
      DivModUnique(0, 4 + dim, 0, 0);
    }
  }

  // ---- what a group comes back as ------------------------------------------------------------

  function Requantized(g: seq<real>): (r: seq<real>)
    ensures |r| == |g|
  {
    seq(|g|, i requires 0 <= i < |g| => Quantize(g[i], Scale(g)) as real * Scale(g))
  }

  function RequantizedAll(fs: seq<real>, dim: nat): seq<real>
    requires dim > 0
  {
    if |fs| <= dim then (if fs == [] then [] else Requantized(fs))
    else Requantized(fs[..dim]) + RequantizedAll(fs[dim..], dim)
  }

  lemma GroupRoundTrip(g: seq<real>)
    ensures DecodedGroup(EncodedGroup(g)) == Requantized(g)
  {
    hide Scale, Quantize, Signed, LoadF32, EncodedGroup;
    var e := EncodedGroup(g);
    HeaderReadsBack(g);
    forall i | 0 <= i < |g| ensures DecodedGroup(e)[i] == Requantized(g)[i] {
      CodeReadsBack(g, i);
    }
  }

  lemma HeaderReadsBack(g: seq<real>)
    ensures LoadF32(EncodedGroup(g)[..4]) == Scale(g)
  {
    hide Scale;
    assert EncodedGroup(g)[..4] == StoreF32(Scale(g));
  }

  lemma CodeReadsBack(g: seq<real>, i: nat)
    requires i < |g|
    ensures Signed(EncodedGroup(g)[4 + i]) == Quantize(g[i], Scale(g))
  {
    hide Scale, Round;
    assert EncodedGroup(g)[4 + i] == CodeByte(Quantize(g[i], Scale(g)));
  }

  lemma {:induction false} RoundTrip(fs: seq<real>, dim: nat)
    requires dim > 0 && |fs| % dim == 0
    ensures DecodedChunks(Encoded(fs, dim), dim) == RequantizedAll(fs, dim)
    decreases |fs|
  {
    var e := Encoded(fs, dim);
    if fs == [] {
    } else if |fs| <= dim {
      if |fs| < dim {
        DivModUnique(|fs|, dim, 0, |fs|);
      }
      GroupRoundTrip(fs);
      assert e[..4 + dim] == e;
      assert DecodedChunks(e[4 + dim..], dim) == [];
    } else {
      ModStep(|fs|, dim);
      RoundTrip(fs[dim..], dim);
      GroupRoundTrip(fs[..dim]);
      assert e[..4 + dim] == EncodedGroup(fs[..dim]);
      assert e[4 + dim..] == Encoded(fs[dim..], dim);
    }
  }

  // ---- the rounding error --------------------------------------------------------------------

  lemma {:induction false} AbsMaxBounds(g: seq<real>)
    ensures AbsMax(g) >= 0.0
    ensures forall i :: 0 <= i < |g| ==> Abs(g[i]) <= AbsMax(g)
    ensures AbsMax(g) == 0.0 || exists i :: 0 <= i < |g| && Abs(g[i]) == AbsMax(g)
  {
    if g != [] {
      var h := g[..|g| - 1];
      AbsMaxBounds(h);
      if AbsMax(g) != 0.0 {
        if AbsMax(g) == AbsMax(h) {
          var i :| 0 <= i < |h| && Abs(h[i]) == AbsMax(h);
          assert Abs(g[i]) == AbsMax(g);
        } else {
          assert Abs(g[|g| - 1]) == AbsMax(g);
        }
      }
    }
  }

  lemma RoundFacts(x: real)
    ensures -0.5 <= Round(x) as real - x <= 0.5
    ensures -127.0 <= x <= 127.0 ==> -127 <= Round(x) <= 127
  {
  }

  lemma RoundInt(q: int)
    ensures Round(q as real) == q
  {
  }

  lemma MulDiv(x: real, s: real)
    requires s > 0.0
    ensures x / s * s == x
  {
  }

  lemma MulLe(a: real, b: real, s: real)
    requires a <= b && s > 0.0
    ensures a * s <= b * s
  {
  }

  lemma LeCancel(a: real, b: real, s: real)
    requires a * s <= b * s && s > 0.0
    ensures a <= b
  {
  }

  lemma QuotientBounded(f: real, s: real)
    requires s > 0.0 && Abs(f) <= 127.0 * s
    ensures -127.0 <= f / s <= 127.0
  {
    MulDiv(f, s);
    LeCancel(f / s, 127.0, s);
    LeCancel(-127.0, f / s, s);
  }

  lemma ScaleCovers(g: seq<real>, i: nat)
    requires i < |g|
    ensures Abs(g[i]) <= 127.0 * Scale(g)
  {
    AbsMaxBounds(g);
  }

  /** The clamp never acts: the scale already brings every element of the group into range. */
  lemma ClampIsInactive(g: seq<real>, i: nat)
    requires i < |g|
    ensures Quantize(g[i], Scale(g)) == Round(g[i] / Scale(g))
    ensures -127 <= Quantize(g[i], Scale(g)) <= 127
  {
    ScaleCovers(g, i);
    QuotientBounded(g[i], Scale(g));
    RoundFacts(g[i] / Scale(g));
  }

  lemma HalfStep(f: real, s: real)
    requires s > 0.0
    ensures -(s / 2.0) <= Round(f / s) as real * s - f <= s / 2.0
  {
    MulDiv(f, s);
    HalfStepAt(f / s, f, s);
  }

  lemma HalfStepAt(x: real, f: real, s: real)
    requires s > 0.0 && x * s == f
    ensures -(s / 2.0) <= Round(x) as real * s - f <= s / 2.0
  {
    RoundFacts(x);
    ScaledDistance(Round(x), x, f, s);
  }

  lemma ScaledDistance(r: int, x: real, f: real, s: real)
    requires s > 0.0 && x * s == f && -0.5 <= r as real - x <= 0.5
    ensures -(s / 2.0) <= r as real * s - f <= s / 2.0
  {
    var y := r as real;
    MulLe(y - x, 0.5, s);
    MulLe(-0.5, y - x, s);
    assert (y - x) * s == y * s - x * s;
  }

  lemma HalfStepOf(f: real, s: real, q: int, d: real)
    requires s > 0.0 && q == Round(f / s) && d == q as real * s
    ensures Abs(d - f) <= s / 2.0
  {
    HalfStep(f, s);
  }

  /** Within half a step of the original, where a step is 1/127 of the group's largest magnitude or the floor. */
  lemma GroupErrorBound(g: seq<real>, i: nat)
    requires i < |g|
    ensures Abs(Requantized(g)[i] - g[i]) <= Scale(g) / 2.0
    ensures Scale(g) == if AbsMax(g) / 127.0 < FLOOR then FLOOR else AbsMax(g) / 127.0
  {
    hide Scale, AbsMax, Quantize, Round, Abs;
    ScaleIs(g);
    ClampIsInactive(g, i);
    HalfStepOf(g[i], Scale(g), Quantize(g[i], Scale(g)), Requantized(g)[i]);
  }

  lemma ScaleIs(g: seq<real>)
    ensures Scale(g) == if AbsMax(g) / 127.0 < FLOOR then FLOOR else AbsMax(g) / 127.0
  {
    hide AbsMax;
  }

  /** The group an element belongs to. */
  function GroupOf(fs: seq<real>, dim: nat, i: nat): seq<real>
    requires dim > 0 && |fs| % dim == 0 && i < |fs|
    decreases |fs|
  {
    if |fs| < dim then (DivModUnique(|fs|, dim, 0, |fs|); [])
    else if i < dim then fs[..dim]
    else (ModStep(|fs|, dim); GroupOf(fs[dim..], dim, i - dim))
  }

  lemma {:induction false} GroupOfIsSlice(fs: seq<real>, dim: nat, i: nat)
    requires dim > 0 && |fs| % dim == 0 && i < |fs|
    ensures 0 <= i / dim * dim <= i / dim * dim + dim <= |fs|
    ensures GroupOf(fs, dim, i) == fs[i / dim * dim..i / dim * dim + dim]
    ensures i % dim < |GroupOf(fs, dim, i)| && GroupOf(fs, dim, i)[i % dim] == fs[i]
    decreases |fs|
  {
    if |fs| < dim {
      DivModUnique(|fs|, dim, 0, |fs|);
    } else if i < dim {
      DivModUnique(i, dim, 0, i);
    } else {
      ModStep(|fs|, dim);
      ModStep(i, dim);
      GroupOfIsSlice(fs[dim..], dim, i - dim);
      var k := i / dim;
      MulPred(k, dim);
      assert fs[dim..][(k - 1) * dim..(k - 1) * dim + dim] == fs[k * dim..k * dim + dim] by {
        SliceBehind(fs, dim, (k - 1) * dim, dim);
      }
      assert fs[dim..][i - dim] == fs[i];
    }
  }

  lemma MulPred(k: int, d: int)
    ensures k * d == (k - 1) * d + d
  {
  }

  lemma SliceBehind(fs: seq<real>, d: nat, at: nat, len: nat)
    requires d + at + len <= |fs|
    ensures fs[d..][at..at + len] == fs[d + at..d + at + len]
  {
  }

  lemma {:induction false} RequantizedAt(fs: seq<real>, dim: nat, i: nat)
    requires dim > 0 && |fs| % dim == 0 && i < |fs|
    ensures |RequantizedAll(fs, dim)| == |fs|
    ensures i % dim < |GroupOf(fs, dim, i)|
    ensures RequantizedAll(fs, dim)[i] == Requantized(GroupOf(fs, dim, i))[i % dim]
    decreases |fs|
  {
    GroupOfIsSlice(fs, dim, i);
    if |fs| < dim {
      DivModUnique(|fs|, dim, 0, |fs|);
    } else if |fs| == dim {
      DivModUnique(i, dim, 0, i);
      assert fs[..dim] == fs;
    } else {
      ModStep(|fs|, dim);
      if i < dim {
        DivModUnique(i, dim, 0, i);
        RequantizedAt(fs[dim..], dim, 0);
      } else {
        ModStep(i, dim);
        RequantizedAt(fs[dim..], dim, i - dim);
      }
    }
  }

  /**
   * Encode then decode: every element comes back within half a step of its own group's scale, and
   * what it comes back as depends on that group alone.
   */
  lemma ErrorBound(fs: seq<real>, dim: nat, i: nat)
    requires dim > 0 && |fs| % dim == 0 && i < |fs|
    ensures Decoded(Encoded(fs, dim), dim).Ok?
    ensures var d, g := Decoded(Encoded(fs, dim), dim).value, GroupOf(fs, dim, i);
      && |d| == |fs| && i % dim < |g| && g[i % dim] == fs[i]
      && d[i] == Requantized(g)[i % dim]
      && Abs(d[i] - fs[i]) <= (if AbsMax(g) / 127.0 < FLOOR then FLOOR / 2.0 else AbsMax(g) / 254.0)
  {
    DecodeSucceedsIff(fs, dim);
    RoundTrip(fs, dim);
    RequantizedAt(fs, dim, i);
    GroupOfIsSlice(fs, dim, i);
    GroupErrorBound(GroupOf(fs, dim, i), i % dim);
  }

  // ---- projection ----------------------------------------------------------------------------

  lemma RequantizedInRange(g: seq<real>, i: nat)
    requires i < |g|
    ensures Abs(Requantized(g)[i]) <= 127.0 * Scale(g)
  {
    ClampIsInactive(g, i);
    var q, s := Quantize(g[i], Scale(g)), Scale(g);
    assert Requantized(g)[i] == q as real * s;
    hide Quantize, Scale, Requantized;
    ScaledInRange(q as real, s);
  }

  lemma ScaledInRange(q: real, s: real)
    requires -127.0 <= q <= 127.0 && s > 0.0
    ensures Abs(q * s) <= 127.0 * s
  {
    MulLe(q, 127.0, s);
    MulLe(-127.0, q, s);
  }

  lemma ExtremeIsKept(g: seq<real>, i: nat)
    requires i < |g| && Abs(g[i]) == 127.0 * Scale(g)
    ensures Abs(Requantized(g)[i]) == 127.0 * Scale(g)
  {
    ClampIsInactive(g, i);
    hide Quantize, Scale;
    QuotientOfExtreme(g[i], Scale(g));
  }

  /** Quantising what was quantised finds the same scale, floor or not. */
  lemma ScaleIsStable(g: seq<real>)
    ensures Scale(Requantized(g)) == Scale(g)
  {
    var r, s := Requantized(g), Scale(g);
    AbsMaxBounds(g);
    AbsMaxBounds(r);
    forall i | 0 <= i < |r| ensures Abs(r[i]) <= 127.0 * s {
      RequantizedInRange(g, i);
    }
    hide Quantize, Requantized, AbsMax;
    assert AbsMax(r) <= 127.0 * s;
    if AbsMax(g) / LEVELS >= FLOOR {
      var i :| 0 <= i < |g| && Abs(g[i]) == AbsMax(g);
      ExtremeIsKept(g, i);
    }
  }

  lemma QuotientOfExtreme(f: real, s: real)
    requires s > 0.0 && (f == 127.0 * s || f == -127.0 * s)
    ensures Round(f / s) as real * s == f
  {
    if f == 127.0 * s {
      assert f / s == 127.0;
      RoundInt(127);
    } else {
      assert f / s == -127.0;
      RoundInt(-127);
    }
  }

  lemma ProductQuotient(q: int, s: real)
    requires s > 0.0
    ensures Round(q as real * s / s) == q
  {
    assert q as real * s / s == q as real;
    RoundInt(q);
  }

  lemma QuantizeMultiple(x: real, q: int, s: real)
    requires s > 0.0 && -127 <= q <= 127 && x == q as real * s
    ensures Quantize(x, s) == q
  {
    ProductQuotient(q, s);
  }

  lemma GroupProjection(g: seq<real>)
    ensures EncodedGroup(Requantized(g)) == EncodedGroup(g)
  {
    var r, s := Requantized(g), Scale(g);
    ScaleIsStable(g);
    hide Scale, Round, AbsMax;
    forall i | 0 <= i < |g| ensures Quantize(r[i], s) == Quantize(g[i], s) {
      ClampIsInactive(g, i);
      QuantizeMultiple(r[i], Quantize(g[i], s), s);
    }
    assert Codes(r, s) == Codes(g, s);
  }

  lemma {:induction false} AllProjection(fs: seq<real>, dim: nat)
    requires dim > 0 && |fs| % dim == 0
    ensures |RequantizedAll(fs, dim)| == |fs|
    ensures Encoded(RequantizedAll(fs, dim), dim) == Encoded(fs, dim)
    decreases |fs|
  {
    var r := RequantizedAll(fs, dim);
    if fs == [] {
    } else if |fs| <= dim {
      GroupProjection(fs);
    } else {
      ModStep(|fs|, dim);
      AllProjection(fs[dim..], dim);
      GroupProjection(fs[..dim]);
      assert r[..dim] == Requantized(fs[..dim]);
      assert r[dim..] == RequantizedAll(fs[dim..], dim);
    }
  }

  lemma {:induction false} BytesRoundTrip(fs: seq<real>)
    ensures BytesToF32(F32ToBytes(fs)) == Ok(fs)
  {
    if fs != [] {
      var b := F32ToBytes(fs);
      BytesRoundTrip(fs[1..]);
      assert b[..4] == StoreF32(fs[0]);
      assert b[4..] == F32ToBytes(fs[1..]);
      assert LoadF32(b[..4]) == fs[0];
      assert [fs[0]] + fs[1..] == fs;
      assert Chunks4(b) == [fs[0]] + Chunks4(b[4..]);
    }
  }

  /** Byte for byte: evicting, restoring and evicting again ships the very same payload. */
  lemma EncodeIsProjection(data: seq<Byte>, dim: nat)
    requires dim > 0 && data != [] && |data| % 4 == 0 && |data| / 4 % dim == 0
    ensures Encode(data, dim).Ok?
    ensures Decode(Encode(data, dim).value, dim).Ok?
    ensures Encode(Decode(Encode(data, dim).value, dim).value, dim) == Encode(data, dim)
    ensures |Decode(Encode(data, dim).value, dim).value| == |data|
  {
    var fs := BytesToF32(data).value;
    DecodeSucceedsIff(fs, dim);
    RoundTrip(fs, dim);
    BytesRoundTrip(RequantizedAll(fs, dim));
    AllProjection(fs, dim);
  }
}
