/**
 * The hand-written codec for the Protocol Buffers wire format (encoding specification, sections
 * "Base 128 Varints", "Message Structure", "Length-Delimited Records" and "Last One Wins").
 * Strings are represented by their UTF-8 bytes.
 */
module Protobuf {
  import opened Common

  type Bytes = seq<byte>

  /** `(field_num, wire_type, value)`. */
  datatype Field =
    | VarintField(num: nat, value: nat)
    | BytesField(num: nat, wire: nat, data: Bytes)

  // ---- varints -------------------------------------------------------------------------------

  function EncodeVarint(v: nat): (b: Bytes)
    ensures |b| > 0
  {
    if v > 0x7F then [v % 128 + 128] + EncodeVarint(v / 128) else [v]
  }

  /** The value at `pos` and the position behind it; `None` when the data runs out. */
  function ReadVarint(data: Bytes, pos: nat): (r: Option<(nat, nat)>)
    ensures r.Some? ==> pos < r.value.1 <= |data|
    decreases |data| - pos
  {
    if pos >= |data| then None
    else if data[pos] < 128 then Some((data[pos], pos + 1))
    else
      match ReadVarint(data, pos + 1)
      case None => None
      case Some((v, next)) => Some((data[pos] % 128 + 128 * v, next))
  }

  /** Reading back what was written, wherever it stands. */
  lemma {:induction false} VarintRoundTrip(pre: Bytes, v: nat, rest: Bytes)
    ensures ReadVarint(pre + EncodeVarint(v) + rest, |pre|) == Some((v, |pre| + |EncodeVarint(v)|))
    decreases v
  {
    var data := pre + EncodeVarint(v) + rest;
    if v > 0x7F {
      var first: byte := v % 128 + 128;
      VarintRoundTrip(pre + [first], v / 128, rest);
      hide ReadVarint;
      assert data == (pre + [first]) + EncodeVarint(v / 128) + rest;
      ReadVarintStep(data, |pre|, v);
    } else {
      assert data[|pre|] == v;
    }
  }

  lemma ReadVarintStep(data: Bytes, pos: nat, v: nat)
    requires v > 0x7F && pos < |data| && data[pos] == v % 128 + 128
    ensures ReadVarint(data, pos) ==
      match ReadVarint(data, pos + 1) case None => None case Some((w, next)) => Some((v % 128 + 128 * w, next))
  {
    assert (v % 128 + 128) % 128 == v % 128;
  }

  // ---- fields --------------------------------------------------------------------------------

  /** Python's slice: cut off at the end of the data. */
  function Cut(data: Bytes, from: nat, len: nat): Bytes {
    if from >= |data| then [] else data[from..Min(from + len, |data|)]
  }

  /** One field at `pos`: what it is and where the next starts. */
  datatype Parsed =
    | OneField(field: Field, next: nat)
    | Unknown
    | OutOfData

  function Tag(num: nat, wire: nat): nat
    requires wire < 8
  {
    num * 8 + wire
  }

  function ParseField(data: Bytes, pos: nat): (p: Parsed)
    ensures p.OneField? ==> p.next > pos
  {
    match ReadVarint(data, pos)
    case None => OutOfData
    case Some((tag, p)) =>
      var num, wire := tag / 8, tag % 8;
      if wire == 0 then
        match ReadVarint(data, p)
        case None => OutOfData
        case Some((v, q)) => OneField(VarintField(num, v), q)
      else if wire == 2 then
        match ReadVarint(data, p)
        case None => OutOfData
        case Some((len, q)) => OneField(BytesField(num, 2, Cut(data, q, len)), q + len)
      else if wire == 5 then OneField(BytesField(num, 5, Cut(data, p, 4)), p + 4)
      else if wire == 1 then OneField(BytesField(num, 1, Cut(data, p, 8)), p + 8)
      else Unknown
  }

  /** All fields from `pos` on; an unknown wire type ends the list, missing data is an exception. */
  function FieldsFrom(data: Bytes, pos: nat): Result<seq<Field>>
    decreases |data| - pos
  {
    if pos >= |data| then Ok([])
    else
      match ParseField(data, pos)
      case OutOfData => Err
      case Unknown => Ok([])
      case OneField(f, next) =>
        match FieldsFrom(data, next)
        case Err => Err
        case Ok(rest) => Ok([f] + rest)
  }

  function DecodeFields(data: Bytes): Result<seq<Field>> { FieldsFrom(data, 0) }

  /** A message that parses to its very end: no unknown wire type and nothing cut short. */
  predicate CompleteFrom(data: Bytes, pos: nat)
    decreases |data| - pos
  {
    if pos >= |data| then pos == |data|
    else
      match ParseField(data, pos)
      case OneField(_, next) => CompleteFrom(data, next)
      case _ => false
  }

  predicate Complete(data: Bytes) { CompleteFrom(data, 0) }

  lemma {:induction false} ReadVarintPrefix(a: Bytes, b: Bytes, pos: nat)
    requires ReadVarint(a, pos).Some?
    ensures ReadVarint(a + b, pos) == ReadVarint(a, pos)
    decreases |a| - pos
  {
    assert (a + b)[pos] == a[pos];
    if a[pos] >= 128 {
      ReadVarintPrefix(a, b, pos + 1);
    }
  }

  lemma CutPrefix(a: Bytes, b: Bytes, from: nat, len: nat)
    requires from + len <= |a|
    ensures Cut(a + b, from, len) == Cut(a, from, len)
  {
    if from < |a| {
      assert (a + b)[from..from + len] == a[from..from + len];
    } else {
      assert len == 0;
    }
  }

  lemma ParseFieldPrefix(a: Bytes, b: Bytes, pos: nat)
    requires ParseField(a, pos).OneField? && ParseField(a, pos).next <= |a|
    ensures ParseField(a + b, pos) == ParseField(a, pos)
  {
    ReadVarintPrefix(a, b, pos);
    var (tag, p) := ReadVarint(a, pos).value;
    hide ReadVarint, Cut;
    if tag % 8 == 0 {
      ReadVarintPrefix(a, b, p);
    } else if tag % 8 == 2 {
      ReadVarintPrefix(a, b, p);
      var (len, q) := ReadVarint(a, p).value;
      CutPrefix(a, b, q, len);
    } else {
      CutPrefix(a, b, p, if tag % 8 == 5 then 4 else 8);
    }
  }

  lemma {:induction false} CompleteNextInside(data: Bytes, pos: nat)
    requires CompleteFrom(data, pos)
    ensures pos <= |data|
  {
  }

  lemma {:induction false} ReadVarintShift(a: Bytes, b: Bytes, pos: nat)
    ensures ReadVarint(a + b, |a| + pos) ==
      match ReadVarint(b, pos) case None => None case Some((v, n)) => Some((v, |a| + n))
    decreases |b| - pos
  {
    if pos < |b| {
      assert (a + b)[|a| + pos] == b[pos];
      ReadVarintShift(a, b, pos + 1);
    }
  }

  lemma ParseFieldShift(a: Bytes, b: Bytes, pos: nat)
    ensures ParseField(a + b, |a| + pos) ==
      match ParseField(b, pos) case OneField(f, n) => OneField(f, |a| + n) case p => p
  {
    hide ReadVarint, Cut;
    ReadVarintShift(a, b, pos);
    match ReadVarint(b, pos)
    case None =>
    case Some((tag, p)) =>
      ReadVarintShift(a, b, p);
      CutShift(a, b, p, 4);
      CutShift(a, b, p, 8);
      match ReadVarint(b, p)
      case None =>
      case Some((len, q)) => CutShift(a, b, q, len);
  }

  lemma CutShift(a: Bytes, b: Bytes, from: nat, len: nat)
    ensures Cut(a + b, |a| + from, len) == Cut(b, from, len)
  {
    if from < |b| {
      assert (a + b)[|a| + from..Min(|a| + from + len, |a + b|)] == b[from..Min(from + len, |b|)];
    }
  }

  lemma {:induction false} FieldsShift(a: Bytes, b: Bytes, pos: nat)
    ensures FieldsFrom(a + b, |a| + pos) == FieldsFrom(b, pos)
    ensures CompleteFrom(a + b, |a| + pos) <==> CompleteFrom(b, pos)
    decreases |b| - pos
  {
    ParseFieldShift(a, b, pos);
    hide ParseField;
    if pos < |b| && ParseField(b, pos).OneField? {
      FieldsShift(a, b, ParseField(b, pos).next);
    }
  }

  function Concat(a: Result<seq<Field>>, b: Result<seq<Field>>): Result<seq<Field>> {
    match (a, b) case (Ok(x), Ok(y)) => Ok(x + y) case _ => Err
  }

  lemma {:induction false} FieldsConcat(a: Bytes, b: Bytes, pos: nat)
    requires CompleteFrom(a, pos)
    ensures FieldsFrom(a, pos).Ok?
    ensures FieldsFrom(a + b, pos) == Concat(FieldsFrom(a, pos), FieldsFrom(b, 0))
    ensures CompleteFrom(b, 0) ==> CompleteFrom(a + b, pos)
    decreases |a| - pos
  {
    hide *;
    if pos >= |a| {
      AtTheEnd(a, b, pos);
      FieldsShift(a, b, 0);
    } else {
      OneMoreField(a, pos);
      var next := ParseField(a, pos).next;
      CompleteNextInside(a, next);
      ParseFieldPrefix(a, b, pos);
      FieldsConcat(a, b, next);
      OneMoreField(a + b, pos);
      ConcatCons(ParseField(a, pos).field, FieldsFrom(a, next), FieldsFrom(b, 0));
    }
  }

  lemma AtTheEnd(a: Bytes, b: Bytes, pos: nat)
    requires CompleteFrom(a, pos) && pos >= |a|
    ensures pos == |a| && FieldsFrom(a, pos) == Ok([]) && Concat(Ok([]), FieldsFrom(b, 0)) == FieldsFrom(b, 0)
  {
    match FieldsFrom(b, 0)
    case Ok(y) => assert [] + y == y;
    case Err =>
  }

  function Cons(f: Field, rest: Result<seq<Field>>): Result<seq<Field>> {
    match rest case Err => Err case Ok(fs) => Ok([f] + fs)
  }

  lemma OneMoreField(data: Bytes, pos: nat)
    requires pos < |data|
    ensures CompleteFrom(data, pos) ==> ParseField(data, pos).OneField?
    ensures ParseField(data, pos).OneField? ==>
      var p := ParseField(data, pos);
      && FieldsFrom(data, pos) == Cons(p.field, FieldsFrom(data, p.next))
      && (CompleteFrom(data, pos) <==> CompleteFrom(data, p.next))
  {
    hide ParseField;
  }

  lemma ConcatCons(f: Field, x: Result<seq<Field>>, y: Result<seq<Field>>)
    ensures Cons(f, Concat(x, y)) == Concat(Cons(f, x), y)
    ensures x.Ok? ==> Cons(f, x).Ok?
  {
    if x.Ok? && y.Ok? {
      assert [f] + (x.value + y.value) == ([f] + x.value) + y.value;
    }
  }

  /** Decoding distributes over concatenation behind any complete message, exceptions included. */
  lemma DecodeDistributes(a: Bytes, b: Bytes)
    requires Complete(a)
    ensures DecodeFields(a).Ok? && DecodeFields(a + b) == Concat(DecodeFields(a), DecodeFields(b))
    ensures Complete(b) ==> Complete(a + b)
  {
    FieldsConcat(a, b, 0);
  }

  // ---- field encoders ------------------------------------------------------------------------

  /** `_encode_string` and `_encode_bytes`. */
  function EncodeBytes(num: nat, data: Bytes): Bytes {
    EncodeVarint(Tag(num, 2)) + EncodeVarint(|data|) + data
  }

  function EncodeBool(num: nat, b: bool): Bytes {
    if !b then [] else EncodeVarint(Tag(num, 0)) + [1]
  }

  function EncodeUint32(num: nat, v: nat): Bytes {
    if v == 0 then [] else EncodeVarint(Tag(num, 0)) + EncodeVarint(v)
  }

  lemma SingleField(b: Bytes, f: Field)
    requires b != [] && ParseField(b, 0) == OneField(f, |b|)
    ensures Complete(b) && DecodeFields(b) == Ok([f])
  {
    hide ParseField;
    assert FieldsFrom(b, |b|) == Ok([]) && CompleteFrom(b, |b|);
    assert CompleteFrom(b, 0);
    assert [f] + [] == [f];
    assert FieldsFrom(b, 0) == Ok([f]);
  }

  lemma BytesFieldDecodes(num: nat, data: Bytes)
    ensures Complete(EncodeBytes(num, data)) && DecodeFields(EncodeBytes(num, data)) == Ok([BytesField(num, 2, data)])
  {
    hide EncodeVarint, ReadVarint, FieldsFrom, CompleteFrom, Complete, DecodeFields;
    var b := EncodeBytes(num, data);
    var t, l := EncodeVarint(Tag(num, 2)), EncodeVarint(|data|);
    VarintRoundTrip([], Tag(num, 2), l + data);
    assert [] + t + (l + data) == b;
    VarintRoundTrip(t, |data|, data);
    assert t + l + data == b;
    assert Cut(b, |t| + |l|, |data|) == data;
    BytesFieldParses(b, num, data, |t|, |t| + |l|);
    SingleField(b, BytesField(num, 2, data));
  }

  lemma VarintFieldDecodes(num: nat, v: nat)
    ensures var b := EncodeVarint(Tag(num, 0)) + EncodeVarint(v);
      Complete(b) && DecodeFields(b) == Ok([VarintField(num, v)])
  {
    hide EncodeVarint, ReadVarint, FieldsFrom, CompleteFrom, Complete, DecodeFields;
    var t, e := EncodeVarint(Tag(num, 0)), EncodeVarint(v);
    var b := t + e;
    VarintRoundTrip([], Tag(num, 0), e);
    assert [] + t + e == b;
    VarintRoundTrip(t, v, []);
    assert b + [] == b;
    VarintFieldParses(b, num, v, |t|);
    SingleField(b, VarintField(num, v));
  }

  lemma VarintFieldParses(b: Bytes, num: nat, v: nat, p: nat)
    requires ReadVarint(b, 0) == Some((Tag(num, 0), p)) && ReadVarint(b, p) == Some((v, |b|))
    ensures ParseField(b, 0) == OneField(VarintField(num, v), |b|)
  {
    hide ReadVarint;
  }

  lemma BytesFieldParses(b: Bytes, num: nat, data: Bytes, p: nat, q: nat)
    requires ReadVarint(b, 0) == Some((Tag(num, 2), p)) && ReadVarint(b, p) == Some((|data|, q))
    requires q + |data| == |b| && Cut(b, q, |data|) == data
    ensures ParseField(b, 0) == OneField(BytesField(num, 2, data), |b|)
  {
    hide ReadVarint, Cut;
  }

  lemma BoolFieldDecodes(num: nat, b: bool)
    ensures Complete(EncodeBool(num, b)) && DecodeFields(EncodeBool(num, b)) == Ok(if b then [VarintField(num, 1)] else [])
  {
    if b {
      VarintFieldDecodes(num, 1);
    }
  }

  lemma Uint32FieldDecodes(num: nat, v: nat)
    ensures Complete(EncodeUint32(num, v))
    ensures DecodeFields(EncodeUint32(num, v)) == Ok(if v == 0 then [] else [VarintField(num, v)])
  {
    if v != 0 {
      VarintFieldDecodes(num, v);
    }
  }

  // ---- messages ------------------------------------------------------------------------------

  datatype StoreRequest = StoreRequest(
    blockHashHex: Bytes, layerType: Bytes, payload: Bytes, isQuantized: bool, numTokens: nat)

  function SerializeStoreRequest(r: StoreRequest): Bytes {
    EncodeBytes(1, r.blockHashHex) + EncodeBytes(2, r.layerType) + EncodeBytes(3, r.payload)
      + EncodeBool(4, r.isQuantized) + EncodeUint32(5, r.numTokens)
  }

  function SerializeBatchPromoteRequest(keys: seq<Bytes>): Bytes {
    if keys == [] then [] else SerializeBatchPromoteRequest(keys[..|keys| - 1]) + EncodeBytes(1, keys[|keys| - 1])
  }

  /** The last length-delimited value of a field, or the default. */
  function LastBytes(fields: seq<Field>, num: nat): Bytes {
    if fields == [] then [] else
      var f := fields[|fields| - 1];
      if f.BytesField? && f.num == num && f.wire == 2 then f.data else LastBytes(fields[..|fields| - 1], num)
  }

  /** The last varint of a field, or the default. */
  function LastVarint(fields: seq<Field>, num: nat): nat {
    if fields == [] then 0 else
      var f := fields[|fields| - 1];
      if f.VarintField? && f.num == num then f.value else LastVarint(fields[..|fields| - 1], num)
  }

  /** All length-delimited values of a repeated field, in order. */
  function AllBytes(fields: seq<Field>, num: nat): seq<Bytes> {
    if fields == [] then [] else
      var f := fields[|fields| - 1];
      AllBytes(fields[..|fields| - 1], num) + OwnBytes(f, num)
  }

  /** How a reader of the schema understands a store request: last one wins, absent means default. */
  function ReadStoreRequest(data: Bytes): Result<StoreRequest> {
    match DecodeFields(data)
    case Err => Err
    case Ok(fs) => Ok(StoreRequest(LastBytes(fs, 1), LastBytes(fs, 2), LastBytes(fs, 3), LastVarint(fs, 4) != 0, LastVarint(fs, 5)))
  }

  function ReadBatchPromoteRequest(data: Bytes): Result<seq<Bytes>> {
    match DecodeFields(data) case Err => Err case Ok(fs) => Ok(AllBytes(fs, 1))
  }

  lemma {:induction false} LastConcat(a: seq<Field>, b: seq<Field>, num: nat)
    ensures LastBytes(a + b, num) == if HasBytes(b, num) then LastBytes(b, num) else LastBytes(a, num)
    ensures LastVarint(a + b, num) == if HasVarint(b, num) then LastVarint(b, num) else LastVarint(a, num)
    ensures AllBytes(a + b, num) == AllBytes(a, num) + AllBytes(b, num)
  {
    hide *;
    if b == [] {
      assert a + b == a;
      ReadNothing(a, num);
    } else {
      var init, f := b[..|b| - 1], b[|b| - 1];
      LastConcat(a, init, num);
      assert a + b == (a + init) + [f] && b == init + [f];
      ReadOneMore(a + init, f, num);
      ReadOneMore(init, f, num);
      assert AllBytes(a, num) + (AllBytes(init, num) + OwnBytes(f, num)) == (AllBytes(a, num) + AllBytes(init, num)) + OwnBytes(f, num);
    }
  }

  lemma ReadNothing(a: seq<Field>, num: nat)
    ensures !HasBytes([], num) && !HasVarint([], num) && AllBytes([], num) == [] && AllBytes(a, num) + [] == AllBytes(a, num)
  {
  }

  /** The value of a repeated field `num` that this field is, if it is one. */
  function OwnBytes(f: Field, num: nat): seq<Bytes> {
    if f.BytesField? && f.num == num && f.wire == 2 then [f.data] else []
  }

  lemma ReadOneMore(a: seq<Field>, f: Field, num: nat)
    ensures LastBytes(a + [f], num) == if OwnBytes(f, num) != [] then OwnBytes(f, num)[0] else LastBytes(a, num)
    ensures HasBytes(a + [f], num) <==> HasBytes(a, num) || OwnBytes(f, num) != []
    ensures LastVarint(a + [f], num) == if f.VarintField? && f.num == num then f.value else LastVarint(a, num)
    ensures HasVarint(a + [f], num) <==> HasVarint(a, num) || (f.VarintField? && f.num == num)
    ensures AllBytes(a + [f], num) == AllBytes(a, num) + OwnBytes(f, num)
  {
    assert (a + [f])[..|a|] == a;
    assert forall i :: 0 <= i < |a| ==> (a + [f])[i] == a[i];
    assert (a + [f])[|a|] == f;
  }

  predicate HasBytes(fs: seq<Field>, num: nat) {
    exists i :: 0 <= i < |fs| && fs[i].BytesField? && fs[i].num == num && fs[i].wire == 2
  }

  predicate HasVarint(fs: seq<Field>, num: nat) {
    exists i :: 0 <= i < |fs| && fs[i].VarintField? && fs[i].num == num
  }

  /** The fields of a serialised request, defaults left out. */
  function StoreRequestFields(r: StoreRequest): seq<Field> {
    [BytesField(1, 2, r.blockHashHex)] + [BytesField(2, 2, r.layerType)] + [BytesField(3, 2, r.payload)]
      + (if r.isQuantized then [VarintField(4, 1)] else [])
      + (if r.numTokens == 0 then [] else [VarintField(5, r.numTokens)])
  }

  lemma StoreRequestDecodes(r: StoreRequest)
    ensures Complete(SerializeStoreRequest(r)) && DecodeFields(SerializeStoreRequest(r)) == Ok(StoreRequestFields(r))
  {
    hide Complete, DecodeFields, EncodeBytes, EncodeBool, EncodeUint32;
    var a, b, c := EncodeBytes(1, r.blockHashHex), EncodeBytes(2, r.layerType), EncodeBytes(3, r.payload);
    var d, e := EncodeBool(4, r.isQuantized), EncodeUint32(5, r.numTokens);
    BytesFieldDecodes(1, r.blockHashHex);
    BytesFieldDecodes(2, r.layerType);
    BytesFieldDecodes(3, r.payload);
    BoolFieldDecodes(4, r.isQuantized);
    Uint32FieldDecodes(5, r.numTokens);
    DecodeDistributes(a, b);
    DecodeDistributes(a + b, c);
    DecodeDistributes(a + b + c, d);
    DecodeDistributes(a + b + c + d, e);
  }

  /** Reading a serialised store request gives the request back, omitted defaults included. */
  lemma StoreRequestRoundTrip(r: StoreRequest)
    ensures ReadStoreRequest(SerializeStoreRequest(r)) == Ok(r)
  {
    StoreRequestDecodes(r);
    hide DecodeFields, SerializeStoreRequest;
    StoreRequestFieldsRead(r);
  }

  lemma StoreRequestFieldsRead(r: StoreRequest)
    ensures var fs := StoreRequestFields(r);
      && LastBytes(fs, 1) == r.blockHashHex && LastBytes(fs, 2) == r.layerType && LastBytes(fs, 3) == r.payload
      && (LastVarint(fs, 4) != 0 <==> r.isQuantized) && LastVarint(fs, 5) == r.numTokens
  {
    var fs := StoreRequestFields(r);
    var q: seq<Field> := if r.isQuantized then [VarintField(4, 1)] else [];
    var t: seq<Field> := if r.numTokens == 0 then [] else [VarintField(5, r.numTokens)];
    var p := [BytesField(1, 2, r.blockHashHex), BytesField(2, 2, r.layerType), BytesField(3, 2, r.payload)];
    assert fs == p + q + t;
    PayloadFieldsRead(p, r);
    hide LastBytes, LastVarint, HasBytes, HasVarint;
    forall n: nat
      ensures LastBytes(fs, n) == LastBytes(p, n)
      ensures LastVarint(fs, n) == if n == 5 && r.numTokens != 0 then r.numTokens else if n == 4 && r.isQuantized then 1 else 0
    {
      LastConcat(p + q, t, n);
      LastConcat(p, q, n);
      OneVarint(q, 4, n);
      OneVarint(t, 5, n);
    }
  }

  lemma OneVarint(fs: seq<Field>, num: nat, n: nat)
    requires fs == [] || (|fs| == 1 && fs[0].VarintField? && fs[0].num == num)
    ensures !HasBytes(fs, n) && (HasVarint(fs, n) <==> fs != [] && n == num)
    ensures fs != [] && n == num ==> LastVarint(fs, n) == fs[0].value
  {
    if fs != [] {
      assert fs[0].num == num;
    }
  }

  lemma PayloadFieldsRead(p: seq<Field>, r: StoreRequest)
    requires p == [BytesField(1, 2, r.blockHashHex), BytesField(2, 2, r.layerType), BytesField(3, 2, r.payload)]
    ensures LastBytes(p, 1) == r.blockHashHex && LastBytes(p, 2) == r.layerType && LastBytes(p, 3) == r.payload
    ensures forall n: nat :: LastVarint(p, n) == 0
  {
    assert p[..2] == [p[0], p[1]] && p[..2][..1] == [p[0]] && p[..1][..0] == [];
    assert LastBytes([p[0]], 1) == r.blockHashHex;
    assert LastBytes([p[0], p[1]], 1) == r.blockHashHex && LastBytes([p[0], p[1]], 2) == r.layerType;
    forall n: nat ensures LastVarint(p, n) == 0 {
      assert LastVarint([p[0]][..0], n) == 0;
      assert LastVarint([p[0]], n) == 0;
      assert LastVarint([p[0], p[1]], n) == 0;
    }
  }

  /** Vault keys arrive in the order they were asked for. */
  lemma {:induction false} BatchPromoteRequestRoundTrip(keys: seq<Bytes>)
    ensures Complete(SerializeBatchPromoteRequest(keys))
    ensures ReadBatchPromoteRequest(SerializeBatchPromoteRequest(keys)) == Ok(keys)
  {
    if keys != [] {
      var init, last := keys[..|keys| - 1], keys[|keys| - 1];
      BatchPromoteRequestRoundTrip(init);
      BytesFieldDecodes(1, last);
      DecodeDistributes(SerializeBatchPromoteRequest(init), EncodeBytes(1, last));
      hide Complete, DecodeFields, EncodeBytes;
      var fs := DecodeFields(SerializeBatchPromoteRequest(init)).value;
      var one := BytesField(1, 2, last);
      assert (fs + [one])[..|fs|] == fs;
      assert keys == init + [last];
    }
  }

  // ---- responses -----------------------------------------------------------------------------

  datatype BlockData = BlockData(blockHashHex: Bytes, payload: Bytes, isQuantized: bool)

  /** `_deserialize_block_data`: the loop's assignments make the last occurrence win. */
  function ReadBlockData(data: Bytes): Result<BlockData> {
    match DecodeFields(data)
    case Err => Err
    case Ok(fs) => Ok(BlockData(LastBytes(fs, 1), LastBytes(fs, 2), LastVarint(fs, 3) != 0))
  }

  function ReadAll(parts: seq<Bytes>): Result<seq<BlockData>> {
    if parts == [] then Ok([]) else
      match (ReadAll(parts[..|parts| - 1]), ReadBlockData(parts[|parts| - 1]))
      case (Ok(bs), Ok(b)) => Ok(bs + [b])
      case _ => Err
  }

  /** `_deserialize_batch_promote_response`. */
  function ReadBatchPromoteResponse(data: Bytes): Result<seq<BlockData>> {
    match DecodeFields(data) case Err => Err case Ok(fs) => ReadAll(AllBytes(fs, 1))
  }

  /** `_deserialize_store_response`. */
  function ReadStoreResponse(data: Bytes): Result<Bytes> {
    match DecodeFields(data) case Err => Err case Ok(fs) => Ok(LastBytes(fs, 1))
  }

  /** `_deserialize_flush_response`. */
  function ReadFlushResponse(data: Bytes): Result<nat> {
    match DecodeFields(data) case Err => Err case Ok(fs) => Ok(LastVarint(fs, 1))
  }

  /** A server may leave out an empty key or a zero, or send it; either way it is read back. */
  lemma ShortResponsesRoundTrip(key: Bytes, flushed: nat)
    ensures ReadStoreResponse(EncodeBytes(1, key)) == Ok(key) && ReadStoreResponse([]) == Ok([])
    ensures ReadFlushResponse(EncodeUint32(1, flushed)) == Ok(flushed)
  {
    BytesFieldDecodes(1, key);
    Uint32FieldDecodes(1, flushed);
    hide EncodeBytes, EncodeUint32, FieldsFrom;
    LastOfOne(BytesField(1, 2, key), 1);
    LastOfOne(VarintField(1, flushed), 1);
    NoFields();
  }

  lemma LastOfOne(f: Field, num: nat)
    ensures LastBytes([f], num) == if OwnBytes(f, num) != [] then OwnBytes(f, num)[0] else []
    ensures LastVarint([f], num) == if f.VarintField? && f.num == num then f.value else 0
  {
    assert [] + [f] == [f];
    ReadOneMore([], f, num);
  }

  lemma NoFields()
    ensures DecodeFields([]) == Ok([]) && LastBytes([], 1) == [] && LastVarint([], 1) == 0
  {
  }

  /** What the server sends for one block: proto3 leaves defaults out. */
  function WriteBlockData(b: BlockData): Bytes {
    (if b.blockHashHex == [] then [] else EncodeBytes(1, b.blockHashHex))
      + (if b.payload == [] then [] else EncodeBytes(2, b.payload))
      + EncodeBool(3, b.isQuantized)
  }

  function WriteBatchPromoteResponse(blocks: seq<BlockData>): Bytes {
    if blocks == [] then [] else
      WriteBatchPromoteResponse(blocks[..|blocks| - 1]) + EncodeBytes(1, WriteBlockData(blocks[|blocks| - 1]))
  }

  function BlockDataFields(b: BlockData): seq<Field> {
    (if b.blockHashHex == [] then [] else [BytesField(1, 2, b.blockHashHex)])
      + (if b.payload == [] then [] else [BytesField(2, 2, b.payload)])
      + (if b.isQuantized then [VarintField(3, 1)] else [])
  }

  lemma BlockDataDecodes(b: BlockData)
    ensures Complete(WriteBlockData(b)) && DecodeFields(WriteBlockData(b)) == Ok(BlockDataFields(b))
  {
    assert Complete([]) && DecodeFields([]) == Ok([]);
    hide Complete, DecodeFields, EncodeBytes, EncodeBool;
    var h: Bytes := if b.blockHashHex == [] then [] else EncodeBytes(1, b.blockHashHex);
    var p: Bytes := if b.payload == [] then [] else EncodeBytes(2, b.payload);
    BytesFieldDecodes(1, b.blockHashHex);
    BytesFieldDecodes(2, b.payload);
    BoolFieldDecodes(3, b.isQuantized);
    DecodeDistributes(h, p);
    DecodeDistributes(h + p, EncodeBool(3, b.isQuantized));
  }

  lemma BlockDataFieldsRead(b: BlockData)
    ensures var fs := BlockDataFields(b);
      LastBytes(fs, 1) == b.blockHashHex && LastBytes(fs, 2) == b.payload && (LastVarint(fs, 3) != 0 <==> b.isQuantized)
  {
    var h: seq<Field> := if b.blockHashHex == [] then [] else [BytesField(1, 2, b.blockHashHex)];
    var p: seq<Field> := if b.payload == [] then [] else [BytesField(2, 2, b.payload)];
    var q: seq<Field> := if b.isQuantized then [VarintField(3, 1)] else [];
    assert BlockDataFields(b) == h + p + q;
    assert LastBytes([], 1) == LastBytes([], 2) == [];
    forall n: nat | n == 1 || n == 2 || n == 3
      ensures LastBytes(h + p + q, n) == LastBytes(h + p, n)
      ensures LastVarint(h + p + q, n) == if n == 3 && b.isQuantized then 1 else 0
      ensures LastBytes(h + p, n) == if n == 1 then b.blockHashHex else if n == 2 then b.payload else []
    {
      LastConcat(h + p, q, n);
      LastConcat(h, p, n);
      OneVarint(q, 3, n);
      OneBytes(h, 1, n);
      OneBytes(p, 2, n);
    }
  }

  lemma OneBytes(fs: seq<Field>, num: nat, n: nat)
    requires fs == [] || (|fs| == 1 && fs[0].BytesField? && fs[0].num == num && fs[0].wire == 2)
    ensures !HasVarint(fs, n) && (HasBytes(fs, n) <==> fs != [] && n == num)
    ensures LastBytes(fs, n) == if fs != [] && n == num then fs[0].data else []
    ensures LastVarint(fs, n) == 0
  {
    if fs != [] {
      assert fs[0].num == num;
      assert fs[..0] == [];
    }
  }

  lemma BlockDataRoundTrip(b: BlockData)
    ensures ReadBlockData(WriteBlockData(b)) == Ok(b)
  {
    BlockDataDecodes(b);
    BlockDataFieldsRead(b);
    hide DecodeFields, WriteBlockData, LastBytes, LastVarint, BlockDataFields;
  }

  /** Nested blocks come back complete and in order, missing ones included. */
  lemma {:induction false} BatchPromoteResponseRoundTrip(blocks: seq<BlockData>)
    ensures Complete(WriteBatchPromoteResponse(blocks))
    ensures ReadBatchPromoteResponse(WriteBatchPromoteResponse(blocks)) == Ok(blocks)
  {
    hide Complete, DecodeFields, EncodeBytes, WriteBlockData, ReadBlockData, AllBytes, ReadAll;
    if blocks != [] {
      var init, last := blocks[..|blocks| - 1], blocks[|blocks| - 1];
      var part := WriteBlockData(last);
      BatchPromoteResponseRoundTrip(init);
      BlockDataRoundTrip(last);
      BytesFieldDecodes(1, part);
      DecodeDistributes(WriteBatchPromoteResponse(init), EncodeBytes(1, part));
      var fs := DecodeFields(WriteBatchPromoteResponse(init)).value;
      ReadOneMore(fs, BytesField(1, 2, part), 1);
      ReadOnePart(AllBytes(fs, 1), part);
      assert blocks == init + [last];
    } else {
      EmptyResponse();
    }
  }

  lemma EmptyResponse()
    ensures Complete([]) && DecodeFields([]) == Ok([]) && AllBytes([], 1) == [] && ReadAll([]) == Ok([])
  {
  }

  lemma ReadOnePart(parts: seq<Bytes>, part: Bytes)
    ensures ReadAll(parts + [part]) ==
      match (ReadAll(parts), ReadBlockData(part)) case (Ok(bs), Ok(b)) => Ok(bs + [b]) case _ => Err
  {
    assert (parts + [part])[..|parts|] == parts;
  }

  /** Last one wins: behind a complete message, a second one overrides exactly the fields it has. */
  lemma BlockDataLastOneWins(a: Bytes, b: Bytes)
    requires Complete(a) && DecodeFields(b).Ok?
    ensures ReadBlockData(a).Ok? && ReadBlockData(a + b).Ok?
    ensures var x, r, fs := ReadBlockData(a).value, ReadBlockData(a + b).value, DecodeFields(b).value;
      && r.blockHashHex == (if HasBytes(fs, 1) then LastBytes(fs, 1) else x.blockHashHex)
      && r.payload == (if HasBytes(fs, 2) then LastBytes(fs, 2) else x.payload)
      && r.isQuantized == (if HasVarint(fs, 3) then LastVarint(fs, 3) != 0 else x.isQuantized)
  {
    DecodeDistributes(a, b);
    hide DecodeFields, Complete, LastBytes, LastVarint, HasBytes, HasVarint;
    var f, g := DecodeFields(a).value, DecodeFields(b).value;
    LastConcat(f, g, 1);
    LastConcat(f, g, 2);
    LastConcat(f, g, 3);
  }
}
