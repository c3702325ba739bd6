/** The loops of the protobuf codec, each proved against the functions of module `Protobuf`. */
module ProtobufLoops {
  import opened Common
  import opened Protobuf

  function Pow2(n: nat): (r: nat)
    ensures r > 0
  {
    if n == 0 then 1 else 2 * Pow2(n - 1)
  }

  lemma Pow2Plus7(n: nat)
    ensures Pow2(n + 7) == 128 * Pow2(n)
  {
    assert Pow2(n + 7) == 2 * (2 * (2 * (2 * (2 * (2 * (2 * Pow2(n))))))) by {
      assert Pow2(n + 1) == 2 * Pow2(n) && Pow2(n + 2) == 2 * Pow2(n + 1) && Pow2(n + 3) == 2 * Pow2(n + 2);
      assert Pow2(n + 4) == 2 * Pow2(n + 3) && Pow2(n + 5) == 2 * Pow2(n + 4) && Pow2(n + 6) == 2 * Pow2(n + 5);
    }
  }

  method EncodeVarintLoop(v: nat) returns (parts: Bytes)
    ensures parts == EncodeVarint(v)
  {
    var value := v;
    parts := [];
    while value > 0x7F
      invariant parts + EncodeVarint(value) == EncodeVarint(v)
    {
      parts := parts + [value % 128 + 128];
      value := value / 128;
    }
    parts := parts + [value % 128];
  }

  /** What has been read so far: the bits in `result`, all below `Pow2(shift)`, and the rest still to come from `pos`. */
  predicate Accumulated(data: Bytes, start: nat, pos: nat, result: nat, shift: nat) {
    && start <= pos && result < Pow2(shift)
    && ReadVarint(data, start) ==
       match ReadVarint(data, pos) case None => None case Some((v, next)) => Some((result + Pow2(shift) * v, next))
  }

  lemma AccumulateStart(data: Bytes, start: nat)
    ensures Accumulated(data, start, start, 0, 0)
  {
    hide ReadVarint;
    assert Pow2(0) == 1;
  }

  lemma AccumulateStep(data: Bytes, start: nat, pos: nat, result: nat, shift: nat)
    requires Accumulated(data, start, pos, result, shift)
    ensures pos >= |data| ==> ReadVarint(data, start) == None
    ensures pos < |data| ==>
      var next := result + data[pos] % 128 * Pow2(shift);
      if data[pos] < 128 then ReadVarint(data, start) == Some((next, pos + 1))
      else Accumulated(data, start, pos + 1, next, shift + 7)
  {
    if pos < |data| {
      ReadVarintAccumulates(data, pos, result, shift);
      if data[pos] < 128 {
        assert data[pos] * Pow2(shift) == Pow2(shift) * data[pos];
      }
      hide Pow2;
    }
  }

  /**
   * Since the accumulated bits stay below `Pow2(shift)`, or-ing the next seven in at `shift` is adding
   * them; that is how the step is written here.
   */
  method ReadVarintLoop(data: Bytes, start: nat) returns (r: Option<(nat, nat)>)
    ensures r == ReadVarint(data, start)
  {
    hide ReadVarint, Accumulated, Pow2;
    var result: nat, shift: nat, pos: nat := 0, 0, start;
    AccumulateStart(data, start);
    while pos < |data|
      invariant Accumulated(data, start, pos, result, shift)
    {
      var b := data[pos];
      AccumulateStep(data, start, pos, result, shift);
      result := result + b % 128 * Pow2(shift);
      pos := pos + 1;
      if b < 128 {
        return Some((result, pos));
      }
      shift := shift + 7;
    }
    AccumulateStep(data, start, pos, result, shift);
    r := None;
  }

  lemma ReadVarintAccumulates(data: Bytes, pos: nat, result: nat, shift: nat)
    requires pos < |data| && result < Pow2(shift)
    ensures data[pos] < 128 ==> ReadVarint(data, pos) == Some((data[pos], pos + 1)) && data[pos] % 128 == data[pos]
    ensures data[pos] >= 128 ==>
      && result + data[pos] % 128 * Pow2(shift) < Pow2(shift + 7)
      && match ReadVarint(data, pos + 1)
         case None => ReadVarint(data, pos) == None
         case Some((v, next)) =>
           && ReadVarint(data, pos).Some? && ReadVarint(data, pos).value.1 == next
           && result + Pow2(shift) * ReadVarint(data, pos).value.0
              == (result + data[pos] % 128 * Pow2(shift)) + Pow2(shift + 7) * v
  {
    Pow2Plus7(shift);
    var w, d := Pow2(shift), data[pos] % 128;
    hide Pow2;
    Scale(d, w);
    match ReadVarint(data, pos + 1)
    case None =>
    case Some((v, next)) => ScaleSum(w, d, v);
  }

  lemma Scale(d: nat, w: nat)
    requires d < 128
    ensures d * w <= 127 * w
  {
  }

  lemma ScaleSum(w: nat, d: nat, v: nat)
    ensures w * (d + 128 * v) == d * w + 128 * w * v
  {
  }

  method DecodeFieldsLoop(data: Bytes) returns (r: Result<seq<Field>>)
    ensures r == DecodeFields(data)
  {
    hide ParseField;
    var fields: seq<Field> := [];
    var pos: nat := 0;
    ghost var all := FieldsFrom(data, 0);
    if all.Ok? {
      assert [] + all.value == all.value;
    }
    while pos < |data|
      invariant all == Concat(Ok(fields), FieldsFrom(data, pos))
      decreases |data| - pos
    {
      var parsed := ParseOne(data, pos);
      match parsed
      case OutOfData => return Err;
      case Unknown =>
        assert fields + [] == fields;
        return Ok(fields);
      case OneField(f, next) =>
        if FieldsFrom(data, next).Ok? {
          assert fields + ([f] + FieldsFrom(data, next).value) == fields + [f] + FieldsFrom(data, next).value;
        }
        fields := fields + [f];
        pos := next;
    }
    assert fields + [] == fields;
    r := Ok(fields);
  }

  /** The body of the field loop. */
  method ParseOne(data: Bytes, start: nat) returns (p: Parsed)
    ensures p == ParseField(data, start)
  {
    hide ReadVarint;
    var tag := ReadVarintLoop(data, start);
    if tag.None? {
      return OutOfData;
    }
    var num, wire, pos := tag.value.0 / 8, tag.value.0 % 8, tag.value.1;
    if wire == 0 {
      var value := ReadVarintLoop(data, pos);
      if value.None? {
        return OutOfData;
      }
      p := OneField(VarintField(num, value.value.0), value.value.1);
    } else if wire == 2 {
      var length := ReadVarintLoop(data, pos);
      if length.None? {
        return OutOfData;
      }
      pos := length.value.1;
      p := OneField(BytesField(num, wire, Cut(data, pos, length.value.0)), pos + length.value.0);
    } else if wire == 5 {
      p := OneField(BytesField(num, wire, Cut(data, pos, 4)), pos + 4);
    } else if wire == 1 {
      p := OneField(BytesField(num, wire, Cut(data, pos, 8)), pos + 8);
    } else {
      p := Unknown;
    }
  }

  method SerializeBatchPromoteRequestLoop(keys: seq<Bytes>) returns (out: Bytes)
    ensures out == SerializeBatchPromoteRequest(keys)
  {
    out := [];
    for i := 0 to |keys|
      invariant out == SerializeBatchPromoteRequest(keys[..i])
    {
      assert keys[..i + 1][..i] == keys[..i];
      out := out + EncodeBytes(1, keys[i]);
    }
    assert keys[..|keys|] == keys;
  }

  method DeserializeBlockData(data: Bytes) returns (r: Result<BlockData>)
    ensures r == ReadBlockData(data)
  {
    var fields := DecodeFieldsLoop(data);
    if fields.Err? {
      return Err;
    }
    var fs := fields.value;
    var block := BlockData([], [], false);
    for i := 0 to |fs|
      invariant block.blockHashHex == LastBytes(fs[..i], 1) && block.payload == LastBytes(fs[..i], 2)
      invariant block.isQuantized <==> LastVarint(fs[..i], 3) != 0
    {
      assert fs[..i + 1][..i] == fs[..i];
      match fs[i]
      case BytesField(num, wire, value) =>
        if num == 1 && wire == 2 {
          block := block.(blockHashHex := value);
        } else if num == 2 && wire == 2 {
          block := block.(payload := value);
        }
      case VarintField(num, value) =>
        if num == 3 {
          block := block.(isQuantized := value != 0);
        }
    }
    assert fs[..|fs|] == fs;
    r := Ok(block);
  }

  method DeserializeBatchPromoteResponse(data: Bytes) returns (r: Result<seq<BlockData>>)
    ensures r == ReadBatchPromoteResponse(data)
  {
    hide ReadBlockData, DecodeFields, AllBytes, ReadAll;
    var fields := DecodeFieldsLoop(data);
    if fields.Err? {
      return Err;
    }
    var fs := fields.value;
    var blocks: seq<BlockData> := [];
    NothingRead();
    for i := 0 to |fs|
      invariant ReadAll(AllBytes(fs[..i], 1)) == Ok(blocks)
    {
      assert fs[..i + 1] == fs[..i] + [fs[i]];
      ReadOneMore(fs[..i], fs[i], 1);
      ghost var parts := AllBytes(fs[..i], 1);
      if fs[i].BytesField? && fs[i].num == 1 && fs[i].wire == 2 {
        ReadOnePart(parts, fs[i].data);
        var block := DeserializeBlockData(fs[i].data);
        if block.Err? {
          ReadAllFails(fs, i + 1);
          return Err;
        }
        blocks := blocks + [block.value];
      } else {
        assert parts + [] == parts;
      }
    }
    assert fs[..|fs|] == fs;
    r := Ok(blocks);
  }

  lemma NothingRead()
    ensures AllBytes([], 1) == [] && ReadAll([]) == Ok([])
  {
  }

  /** One unreadable block fails the whole response. */
  lemma {:induction false} ReadAllFails(fs: seq<Field>, n: nat)
    requires n <= |fs| && ReadAll(AllBytes(fs[..n], 1)).Err?
    ensures ReadAll(AllBytes(fs, 1)).Err?
    decreases |fs|
  {
    if n == |fs| {
      assert fs[..n] == fs;
    } else {
      var init := fs[..|fs| - 1];
      assert init[..n] == fs[..n];
      ReadAllFails(init, n);
      var parts := AllBytes(init, 1);
      assert forall x: Bytes :: (parts + [x])[..|parts|] == parts;
      assert parts + [] == parts;
    }
  }
}
