/**
 * `read_model_from_bin` of test.py: a checkpoint is a sequence of records,
 * each a 4-byte unsigned little-endian name length, the name, and then
 * either a quantized layout (4-byte scale, 4-byte byte count, packed bytes)
 * or a float layout (4-byte element count, four bytes per element). Which
 * layout applies is decided by the name alone. The file is a byte
 * sequence, and each `f.read(n)` returns at most `n` bytes from the
 * cursor, fewer at the end of the file, and moves the cursor past them.
 */
module Checkpoint {
  import opened Wrappers

  newtype Byte = b: int | 0 <= b < 0x100
  type Name = seq<Byte>

  /** Four bytes kept as they are: a float32 whose IEEE value is not modelled. */
  type Word = seq<Byte>

  datatype QuantizedParam = QuantizedParam(scale: Word, packedData: seq<Byte>)

  /** `model_data`: the `float_params` and `quantized_params` dictionaries, keyed by name. */
  datatype ModelData = ModelData(floatParams: map<Name, seq<Word>>, quantizedParams: map<Name, QuantizedParam>)

  const EmptyModel := ModelData(map[], map[])

  datatype Payload = Quantized(scale: Word, packedData: seq<Byte>) | Float(values: seq<Word>)

  datatype Record = Record(name: Name, payload: Payload)

  datatype ParseError =
    | TruncatedNameLength   // `struct.unpack('I', ...)` on 1 to 3 bytes
    | TruncatedScale        // `struct.unpack('f', ...)` on fewer than 4 bytes
    | TruncatedSize         // `struct.unpack('I', ...)` on fewer than 4 bytes
    | FloatPayloadNotWhole  // `np.frombuffer(..., dtype=np.float32)` on a length not divisible by 4

  function Min(a: nat, b: nat): nat
  {
    if a <= b then a else b
  }

  /** `f.read(n)` at cursor `pos`: at most `n` bytes, fewer at the end of the data. */
  function Read(data: seq<Byte>, pos: nat, n: nat): (bytes: seq<Byte>)
    requires pos <= |data|
    ensures |bytes| == Min(n, |data| - pos)
  {
    data[pos..pos + Min(n, |data| - pos)]
  }

  /** The value of bytes read least significant first. */
  function LittleEndian(w: seq<Byte>): nat
  {
    if |w| == 0 then 0 else w[0] as nat + 0x100 * LittleEndian(w[1..])
  }

  /** The `k` bytes of `n`, least significant first. */
  function LittleEndianBytes(n: nat, k: nat): (w: seq<Byte>)
    ensures |w| == k
  {
    if k == 0 then [] else [(n % 0x100) as Byte] + LittleEndianBytes(n / 0x100, k - 1)
  }

  function Pow256(k: nat): (p: nat)
    ensures p >= 1
  {
    if k == 0 then 1 else 0x100 * Pow256(k - 1)
  }

  /** Round trip: `k` bytes written for a value below 256^k read back as that value. */
  lemma {:induction false} LittleEndianOfBytes(n: nat, k: nat)
    requires n < Pow256(k)
    ensures LittleEndian(LittleEndianBytes(n, k)) == n
  {
    if k > 0 {
      var w := LittleEndianBytes(n, k);
      assert n / 0x100 < Pow256(k - 1);
      LittleEndianOfBytes(n / 0x100, k - 1);
      assert w[1..] == LittleEndianBytes(n / 0x100, k - 1);
    }
  }

  /** `struct.unpack('I', w)` on a little-endian machine. */
  function LE32(w: seq<Byte>): nat
    requires |w| == 4
  {
    LittleEndian(w)
  }

  /** `struct.pack('I', n)`: the four bytes a writer lays down for a 32-bit length. */
  function LE32Bytes(n: nat): (w: seq<Byte>)
    requires n < 0x1_0000_0000
    ensures |w| == 4
  {
    LittleEndianBytes(n, 4)
  }

  /** Round trip: the bytes written for a 32-bit length read back as that length. */
  lemma LE32OfBytes(n: nat)
    requires n < 0x1_0000_0000
    ensures LE32(LE32Bytes(n)) == n
  {
    assert Pow256(4) == 0x1_0000_0000;
    LittleEndianOfBytes(n, 4);
  }

  /** ASCII text as bytes. */
  function Ascii(s: string): (b: Name)
    requires forall i :: 0 <= i < |s| ==> s[i] as int < 0x80
    ensures |b| == |s|
  {
    seq(|s|, i requires 0 <= i < |s| => s[i] as int as Byte)
  }

  /** The name fragments that select the quantized layout. */
  const QuantizedMarkers: seq<Name> :=
    [Ascii("down_proj"), Ascii("gate_proj"), Ascii("up_proj"), Ascii("q_proj"),
     Ascii("k_proj"), Ascii("v_proj"), Ascii("o_proj")]

  /** `pattern in name`, as a search for a contiguous run of bytes. */
  predicate Contains(name: Name, pattern: Name)
  {
    exists i :: 0 <= i <= |name| - |pattern| && OccursAt(name, pattern, i)
  }

  /** `pattern` is the run of `name` starting at index `i`. */
  predicate OccursAt(name: Name, pattern: Name, i: int)
    requires 0 <= i <= |name| - |pattern|
  {
    name[i..i + |pattern|] == pattern
  }

  /** `any(q in name for q in [...])`. */
  predicate IsQuantizedName(name: Name)
  {
    exists m :: m in QuantizedMarkers && Contains(name, m)
  }

  /** Any name that embeds one of the projection fragments takes the quantized layout. */
  lemma EmbeddedMarkerIsQuantized(prefix: Name, marker: Name, suffix: Name)
    requires marker in QuantizedMarkers
    ensures IsQuantizedName(prefix + marker + suffix)
  {
    var name := prefix + marker + suffix;
    assert name[|prefix|..|prefix| + |marker|] == marker;
    assert OccursAt(name, marker, |prefix|);
  }

  /** A name shorter than the shortest fragment (`q_proj`, six bytes) takes the float layout. */
  lemma ShortNameIsFloat(name: Name)
    requires |name| < 6
    ensures !IsQuantizedName(name)
  {
    forall m | m in QuantizedMarkers
      ensures |m| >= 6
    {
    }
  }

  /** Cuts a payload whose length is a multiple of 4 into its 4-byte elements. */
  function Words(payload: seq<Byte>): (ws: seq<Word>)
    requires |payload| % 4 == 0
    ensures |ws| == |payload| / 4
    decreases |payload|
  {
    if |payload| == 0 then [] else [payload[..4]] + Words(payload[4..])
  }

  /** The quantized layout after the name: scale, byte count, packed bytes. */
  function ParseQuantized(data: seq<Byte>, pos: nat): (r: Result<(Payload, nat), ParseError>)
    requires pos <= |data|
    ensures r.Ok? ==> r.value.0.Quantized? && pos + 8 <= r.value.1 <= |data|
  {
    var scale := Read(data, pos, 4);
    if |scale| < 4 then Err(TruncatedScale)
    else
      var sizeBytes := Read(data, pos + 4, 4);
      if |sizeBytes| < 4 then Err(TruncatedSize)
      else
        var packed := Read(data, pos + 8, LE32(sizeBytes));
        Ok((Quantized(scale, packed), pos + 8 + |packed|))
  }

  /** The float layout after the name: element count, then four bytes per element. */
  function ParseFloat(data: seq<Byte>, pos: nat): (r: Result<(Payload, nat), ParseError>)
    requires pos <= |data|
    ensures r.Ok? ==> r.value.0.Float? && pos + 4 <= r.value.1 <= |data|
  {
    var sizeBytes := Read(data, pos, 4);
    if |sizeBytes| < 4 then Err(TruncatedSize)
    else
      var payload := Read(data, pos + 4, 4 * LE32(sizeBytes));
      if |payload| % 4 != 0 then Err(FloatPayloadNotWhole)
      else Ok((Float(Words(payload)), pos + 4 + |payload|))
  }

  /** The part of a record after its name, in the layout the name selects. */
  function ParseBody(data: seq<Byte>, pos: nat, name: Name): (r: Result<(Payload, nat), ParseError>)
    requires pos <= |data|
    ensures r.Ok? ==> pos + 4 <= r.value.1 <= |data|
    ensures r.Ok? ==> (r.value.0.Quantized? <==> IsQuantizedName(name))
  {
    if IsQuantizedName(name) then ParseQuantized(data, pos) else ParseFloat(data, pos)
  }

  /**
   * One record read from cursor `pos` (the caller has checked that the
   * data does not end at `pos`): the record and the cursor after it, or
   * the error the source raises.
   */
  function ParseRecord(data: seq<Byte>, pos: nat): (r: Result<(Record, nat), ParseError>)
    requires pos < |data|
    ensures |data| - pos < 4 ==> r == Err(TruncatedNameLength)
    ensures r.Ok? ==> pos + 4 <= r.value.1 <= |data|
    ensures r.Ok? ==> (r.value.0.payload.Quantized? <==> IsQuantizedName(r.value.0.name))
  {
    var nameLenBytes := Read(data, pos, 4);
    if |nameLenBytes| < 4 then Err(TruncatedNameLength)
    else
      var name := Read(data, pos + 4, LE32(nameLenBytes));
      match ParseBody(data, pos + 4 + |name|, name)
      case Err(e) => Err(e)
      case Ok((payload, next)) => Ok((Record(name, payload), next))
  }

  /**
   * `model_data[...][name] = ...`: the record's name is bound in the
   * dictionary its layout selects, replacing any earlier entry under that
   * name; every other entry of both dictionaries is unchanged.
   */
  function Store(m: ModelData, r: Record): (m': ModelData)
    ensures r.payload.Quantized? ==>
      m'.quantizedParams == m.quantizedParams[r.name := QuantizedParam(r.payload.scale, r.payload.packedData)] &&
      m'.floatParams == m.floatParams
    ensures r.payload.Float? ==>
      m'.floatParams == m.floatParams[r.name := r.payload.values] &&
      m'.quantizedParams == m.quantizedParams
  {
    match r.payload
    case Quantized(scale, packed) => m.(quantizedParams := m.quantizedParams[r.name := QuantizedParam(scale, packed)])
    case Float(values) => m.(floatParams := m.floatParams[r.name := values])
  }

  /** The record loop from cursor `pos`: it stops exactly when the data is exhausted. */
  function ParseFrom(data: seq<Byte>, pos: nat, m: ModelData): Result<ModelData, ParseError>
    requires pos <= |data|
    decreases |data| - pos
  {
    if pos == |data| then Ok(m)
    else
      match ParseRecord(data, pos)
      case Err(e) => Err(e)
      case Ok((r, next)) => ParseFrom(data, next, Store(m, r))
  }

  /** A record that reads cleanly is stored and the loop goes on after it. */
  lemma ParseFromStep(data: seq<Byte>, pos: nat, m: ModelData, r: Record, next: nat)
    requires pos < |data|
    requires ParseRecord(data, pos) == Ok((r, next))
    ensures next <= |data|
    ensures ParseFrom(data, pos, m) == ParseFrom(data, next, Store(m, r))
  {
  }

  /** A record that fails to read ends the loop with its error. */
  lemma ParseFromError(data: seq<Byte>, pos: nat, m: ModelData, e: ParseError)
    requires pos < |data|
    requires ParseRecord(data, pos) == Err(e)
    ensures ParseFrom(data, pos, m) == Err(e)
  {
  }

  /** The whole checkpoint, read from an empty model. */
  function ReadModel(data: seq<Byte>): Result<ModelData, ParseError>
  {
    ParseFrom(data, 0, EmptyModel)
  }

  /** Element `i` of a cut payload is its `i`-th run of four bytes. */
  lemma {:induction false} WordsElements(payload: seq<Byte>)
    requires |payload| % 4 == 0
    ensures forall i :: 0 <= i < |Words(payload)| ==> Words(payload)[i] == payload[4 * i..4 * i + 4]
    decreases |payload|
  {
    if |payload| > 0 {
      var rest := payload[4..];
      WordsElements(rest);
      forall i | 0 <= i < |Words(payload)|
        ensures Words(payload)[i] == payload[4 * i..4 * i + 4]
      {
        if i > 0 {
          assert Words(payload)[i] == Words(rest)[i - 1];
          assert rest[4 * (i - 1)..4 * (i - 1) + 4] == payload[4 * i..4 * i + 4];
        }
      }
    }
  }

  /**
   * A record that reads cleanly has a name of exactly the length its
   * field gives: a short name read would leave no room for the size
   * field that must follow it.
   */
  lemma ParseRecordNameIsExact(data: seq<Byte>, pos: nat)
    requires pos < |data|
    ensures ParseRecord(data, pos).Ok? ==>
      pos + 4 + LE32(data[pos..pos + 4]) <= |data| &&
      ParseRecord(data, pos).value.0.name == data[pos + 4..pos + 4 + LE32(data[pos..pos + 4])]
  {
  }

  /**
   * The quantized layout: fewer than 4 bytes fail the scale read, fewer
   * than 8 the size read; otherwise the scale is the next 4 bytes and the
   * packed data the `data_size` bytes after the size field, cut short only
   * by the end of the data, and the cursor moves past exactly those bytes.
   */
  lemma ParseQuantizedLayout(data: seq<Byte>, pos: nat)
    requires pos <= |data|
    ensures |data| - pos < 4 ==> ParseQuantized(data, pos) == Err(TruncatedScale)
    ensures 4 <= |data| - pos < 8 ==> ParseQuantized(data, pos) == Err(TruncatedSize)
    ensures pos + 8 <= |data| ==>
      var r := ParseQuantized(data, pos);
      var n := Min(LE32(data[pos + 4..pos + 8]), |data| - (pos + 8));
      r == Ok((Quantized(data[pos..pos + 4], data[pos + 8..pos + 8 + n]), pos + 8 + n))
  {
  }

  /**
   * The float layout: the size field counts 4-byte elements. With all
   * `4 * count` bytes present the record yields `count` elements, element
   * `i` being the `i`-th 4 bytes after the field; a payload cut short by
   * the end of the data yields the whole elements it holds, or fails when
   * it ends inside one.
   */
  lemma ParseFloatLayout(data: seq<Byte>, pos: nat)
    requires pos <= |data|
    ensures |data| - pos < 4 ==> ParseFloat(data, pos) == Err(TruncatedSize)
    ensures pos + 4 <= |data| && pos + 4 + 4 * LE32(data[pos..pos + 4]) <= |data| ==>
      var count := LE32(data[pos..pos + 4]);
      var r := ParseFloat(data, pos);
      r.Ok? && |r.value.0.values| == count && r.value.1 == pos + 4 + 4 * count &&
      forall i :: 0 <= i < count ==> r.value.0.values[i] == data[pos + 4 + 4 * i..pos + 8 + 4 * i]
    ensures pos + 4 <= |data| && pos + 4 + 4 * LE32(data[pos..pos + 4]) > |data| ==>
      var r := ParseFloat(data, pos);
      if (|data| - (pos + 4)) % 4 != 0 then r == Err(FloatPayloadNotWhole)
      else r.Ok? && |r.value.0.values| == (|data| - (pos + 4)) / 4 && r.value.1 == |data|
  {
    if pos + 4 <= |data| {
      var payload := Read(data, pos + 4, 4 * LE32(data[pos..pos + 4]));
      if |payload| % 4 == 0 {
        WordsElements(payload);
        forall i | 0 <= i < |payload| / 4
          ensures payload[4 * i..4 * i + 4] == data[pos + 4 + 4 * i..pos + 8 + 4 * i]
        {
        }
      }
    }
  }

  /** The reads of the quantized layout after a name: scale, byte count, packed bytes. */
  method ReadQuantized(data: seq<Byte>, start: nat) returns (r: Result<(Payload, nat), ParseError>)
    requires start <= |data|
    ensures r == ParseQuantized(data, start)
  {
    var pos := start;
    var scale := Read(data, pos, 4);
    if |scale| < 4 {
      return Err(TruncatedScale);
    }
    pos := pos + 4;
    var sizeBytes := Read(data, pos, 4);
    if |sizeBytes| < 4 {
      return Err(TruncatedSize);
    }
    pos := pos + 4;
    var packed := Read(data, pos, LE32(sizeBytes));
    pos := pos + |packed|;
    r := Ok((Quantized(scale, packed), pos));
  }

  /** The reads of the float layout after a name: element count, then the elements. */
  method ReadFloat(data: seq<Byte>, start: nat) returns (r: Result<(Payload, nat), ParseError>)
    requires start <= |data|
    ensures r == ParseFloat(data, start)
  {
    var pos := start;
    var sizeBytes := Read(data, pos, 4);
    if |sizeBytes| < 4 {
      return Err(TruncatedSize);
    }
    pos := pos + 4;
    var payload := Read(data, pos, 4 * LE32(sizeBytes));
    if |payload| % 4 != 0 {
      return Err(FloatPayloadNotWhole);
    }
    pos := pos + |payload|;
    r := Ok((Float(Words(payload)), pos));
  }

  /**
   * The reads of one loop iteration of `read_model_from_bin`, from a cursor
   * that is not at the end of the data: the record and the advanced
   * cursor, or the error the reads raise.
   */
  method ReadRecord(data: seq<Byte>, start: nat) returns (r: Result<(Record, nat), ParseError>)
    requires start < |data|
    ensures r == ParseRecord(data, start)
  {
    var pos := start;
    var nameLenBytes := Read(data, pos, 4);
    if |nameLenBytes| < 4 {
      return Err(TruncatedNameLength);
    }
    pos := pos + 4;
    var name := Read(data, pos, LE32(nameLenBytes));
    pos := pos + |name|;
    var body;
    if IsQuantizedName(name) {
      body := ReadQuantized(data, pos);
    } else {
      body := ReadFloat(data, pos);
    }
    match body {
      case Err(e) => r := Err(e);
      case Ok((payload, next)) => r := Ok((Record(name, payload), next));
    }
  }

  /**
   * `read_model_from_bin`: a cursor that advances record by record through
   * the data until an empty read, and the two dictionaries updated by
   * assignment.
   */
  method ReadModelFromBin(data: seq<Byte>) returns (result: Result<ModelData, ParseError>)
    ensures result == ReadModel(data)
  {
    var floatParams: map<Name, seq<Word>> := map[];
    var quantizedParams: map<Name, QuantizedParam> := map[];
    var pos := 0;
    while pos < |data|
      invariant pos <= |data|
      invariant ParseFrom(data, pos, ModelData(floatParams, quantizedParams)) == ReadModel(data)
      decreases |data| - pos
    {
      var record := ReadRecord(data, pos);
      match record {
        case Err(e) =>
          ParseFromError(data, pos, ModelData(floatParams, quantizedParams), e);
          return Err(e);
        case Ok((r, next)) =>
          ParseFromStep(data, pos, ModelData(floatParams, quantizedParams), r, next);
          match r.payload {
            case Quantized(scale, packed) =>
              quantizedParams := quantizedParams[r.name := QuantizedParam(scale, packed)];
            case Float(values) =>
              floatParams := floatParams[r.name := values];
          }
          pos := next;
      }
    }
    result := Ok(ModelData(floatParams, quantizedParams));
  }

  /** Every quantized entry is under a quantized name and every float entry is not. */
  predicate WellClassified(m: ModelData)
  {
    (forall n :: n in m.quantizedParams ==> IsQuantizedName(n)) &&
    (forall n :: n in m.floatParams ==> !IsQuantizedName(n))
  }

  /** The record loop keeps every name in the dictionary its layout selects. */
  lemma {:induction false} ParseFromWellClassified(data: seq<Byte>, pos: nat, m: ModelData)
    requires pos <= |data|
    requires WellClassified(m)
    ensures ParseFrom(data, pos, m).Ok? ==> WellClassified(ParseFrom(data, pos, m).value)
    decreases |data| - pos
  {
    if pos < |data| {
      match ParseRecord(data, pos)
      case Err(_) =>
      case Ok((r, next)) =>
        ParseFromWellClassified(data, next, Store(m, r));
    }
  }

  /**
   * A checkpoint that reads cleanly never holds a name in both
   * dictionaries: the layout of every entry agrees with its name.
   */
  lemma ReadModelWellClassified(data: seq<Byte>)
    ensures ReadModel(data).Ok? ==> WellClassified(ReadModel(data).value)
    ensures ReadModel(data).Ok? ==>
      ReadModel(data).value.floatParams.Keys !! ReadModel(data).value.quantizedParams.Keys
  {
    ParseFromWellClassified(data, 0, EmptyModel);
  }

  /** The bytes of float elements laid end to end. */
  function Flatten(values: seq<Word>): seq<Byte>
  {
    if |values| == 0 then [] else values[0] + Flatten(values[1..])
  }

  lemma {:induction false} WordsOfFlatten(values: seq<Word>)
    requires forall i :: 0 <= i < |values| ==> |values[i]| == 4
    ensures |Flatten(values)| == 4 * |values|
    ensures |Flatten(values)| % 4 == 0 && Words(Flatten(values)) == values
  {
    if |values| > 0 {
      var rest := Flatten(values[1..]);
      var bytes := Flatten(values);
      WordsOfFlatten(values[1..]);
      assert bytes == values[0] + rest;
      assert bytes[..4] == values[0] && bytes[4..] == rest;
      assert values == [values[0]] + values[1..];
    }
  }

  /** A record the writer can produce: its layout matches its name, and every length fits 32 bits. */
  predicate WellFormed(r: Record)
  {
    |r.name| < 0x1_0000_0000 &&
    (r.payload.Quantized? <==> IsQuantizedName(r.name)) &&
    PayloadWellFormed(r.payload)
  }

  predicate PayloadWellFormed(p: Payload)
  {
    match p
    case Quantized(scale, packed) => |scale| == 4 && |packed| < 0x1_0000_0000
    case Float(values) => |values| < 0x1_0000_0000 && forall i :: 0 <= i < |values| ==> |values[i]| == 4
  }

  /** The bytes a writer lays down after a record's name. */
  function EncodePayload(p: Payload): seq<Byte>
    requires PayloadWellFormed(p)
  {
    match p
    case Quantized(scale, packed) => scale + LE32Bytes(|packed|) + packed
    case Float(values) => LE32Bytes(|values|) + Flatten(values)
  }

  /** The bytes a writer lays down for one record. */
  function EncodeRecord(r: Record): seq<Byte>
    requires WellFormed(r)
  {
    LE32Bytes(|r.name|) + r.name + EncodePayload(r.payload)
  }

  /** Every record of a sequence is one the writer can produce. */
  predicate AllWellFormed(rs: seq<Record>)
    decreases |rs|
  {
    |rs| == 0 || (WellFormed(rs[0]) && AllWellFormed(rs[1..]))
  }

  /** The bytes of a whole checkpoint. */
  function Encode(rs: seq<Record>): seq<Byte>
    requires AllWellFormed(rs)
  {
    if |rs| == 0 then [] else EncodeRecord(rs[0]) + Encode(rs[1..])
  }

  /** The dictionaries after storing the records in order. */
  function StoreAll(m: ModelData, rs: seq<Record>): ModelData
    decreases |rs|
  {
    if |rs| == 0 then m else StoreAll(Store(m, rs[0]), rs[1..])
  }

  /** Reading a run of bytes that lies inside the data yields exactly that run. */
  lemma ReadWhole(data: seq<Byte>, pos: nat, bytes: seq<Byte>)
    requires pos + |bytes| <= |data| && data[pos..pos + |bytes|] == bytes
    ensures Read(data, pos, |bytes|) == bytes
  {
  }

  /** The slice holding `a + b` holds `a` and then `b`. */
  lemma SplitSlice(data: seq<Byte>, pos: nat, a: seq<Byte>, b: seq<Byte>)
    requires pos + |a| + |b| <= |data| && data[pos..pos + |a| + |b|] == a + b
    ensures data[pos..pos + |a|] == a
    ensures data[pos + |a|..pos + |a| + |b|] == b
  {
    forall k | 0 <= k < |a|
      ensures data[pos + k] == a[k]
    {
      assert data[pos + k] == data[pos..pos + |a| + |b|][k] == (a + b)[k];
    }
    forall k | 0 <= k < |b|
      ensures data[pos + |a| + k] == b[k]
    {
      assert data[pos + |a| + k] == data[pos..pos + |a| + |b|][|a| + k] == (a + b)[|a| + k];
    }
  }

  /** The quantized layout reads back what was written. */
  lemma ParseQuantizedOfEncoded(data: seq<Byte>, pos: nat, scale: Word, packed: seq<Byte>)
    requires |scale| == 4 && |packed| < 0x1_0000_0000
    requires pos + 8 + |packed| <= |data|
    requires data[pos..pos + 8 + |packed|] == scale + LE32Bytes(|packed|) + packed
    ensures ParseQuantized(data, pos) == Ok((Quantized(scale, packed), pos + 8 + |packed|))
  {
    var size := LE32Bytes(|packed|);
    LE32OfBytes(|packed|);
    SplitSlice(data, pos, scale + size, packed);
    SplitSlice(data, pos, scale, size);
    ReadWhole(data, pos, scale);
    ReadWhole(data, pos + 4, size);
    ReadWhole(data, pos + 8, packed);
  }

  /** The float layout reads back a count and the elements that follow it. */
  lemma ParseFloatOfLayout(data: seq<Byte>, pos: nat, size: seq<Byte>, payload: seq<Byte>, values: seq<Word>)
    requires |size| == 4 && LE32(size) == |values| && |payload| == 4 * |values|
    requires Words(payload) == values
    requires pos + 4 + |payload| <= |data| && data[pos..pos + 4 + |payload|] == size + payload
    ensures ParseFloat(data, pos) == Ok((Float(values), pos + 4 + |payload|))
  {
    SplitSlice(data, pos, size, payload);
    ReadWhole(data, pos, size);
    ReadWhole(data, pos + 4, payload);
  }

  /** The float layout reads back what was written. */
  lemma ParseFloatOfEncoded(data: seq<Byte>, pos: nat, values: seq<Word>)
    requires |values| < 0x1_0000_0000 && forall i :: 0 <= i < |values| ==> |values[i]| == 4
    requires pos + 4 + |Flatten(values)| <= |data|
    requires data[pos..pos + 4 + |Flatten(values)|] == LE32Bytes(|values|) + Flatten(values)
    ensures ParseFloat(data, pos) == Ok((Float(values), pos + 4 + |Flatten(values)|))
  {
    WordsOfFlatten(values);
    LE32OfBytes(|values|);
    ParseFloatOfLayout(data, pos, LE32Bytes(|values|), Flatten(values), values);
  }

  /** The body after a name reads back what was written, in the layout the name selects. */
  lemma ParseBodyOfEncoded(data: seq<Byte>, pos: nat, name: Name, p: Payload)
    requires PayloadWellFormed(p) && (p.Quantized? <==> IsQuantizedName(name))
    requires pos + |EncodePayload(p)| <= |data|
    requires data[pos..pos + |EncodePayload(p)|] == EncodePayload(p)
    ensures ParseBody(data, pos, name) == Ok((p, pos + |EncodePayload(p)|))
  {
    match p
    case Quantized(scale, packed) =>
      ParseQuantizedOfEncoded(data, pos, scale, packed);
    case Float(values) =>
      ParseFloatOfEncoded(data, pos, values);
  }

  /** A record from its length field, its name, and the body after the name. */
  lemma ParseRecordOfParts(data: seq<Byte>, pos: nat, head: seq<Byte>, name: Name, p: Payload, next: nat)
    requires pos + 4 <= |data| && |head| == 4 && Read(data, pos, 4) == head
    requires Read(data, pos + 4, LE32(head)) == name
    requires ParseBody(data, pos + 4 + |name|, name) == Ok((p, next))
    ensures ParseRecord(data, pos) == Ok((Record(name, p), next))
  {
  }

  /** A record reads back as the record that was written, and the cursor lands just after it. */
  lemma ParseRecordOfEncoded(data: seq<Byte>, pos: nat, r: Record)
    requires WellFormed(r)
    requires pos + |EncodeRecord(r)| <= |data|
    requires data[pos..pos + |EncodeRecord(r)|] == EncodeRecord(r)
    ensures pos < |data|
    ensures ParseRecord(data, pos) == Ok((r, pos + |EncodeRecord(r)|))
  {
    var head := LE32Bytes(|r.name|);
    assert EncodeRecord(r) == head + r.name + EncodePayload(r.payload);
    LE32OfBytes(|r.name|);
    ParseRecordOfLayout(data, pos, head, r.name, r.payload);
    assert Record(r.name, r.payload) == r;
  }

  /** A length field, the name it counts, and a written body after the name read back as one record. */
  lemma ParseRecordOfLayout(data: seq<Byte>, pos: nat, head: seq<Byte>, name: Name, p: Payload)
    requires |head| == 4 && LE32(head) == |name|
    requires PayloadWellFormed(p) && (p.Quantized? <==> IsQuantizedName(name))
    requires pos + 4 + |name| + |EncodePayload(p)| <= |data|
    requires data[pos..pos + 4 + |name| + |EncodePayload(p)|] == head + name + EncodePayload(p)
    ensures ParseRecord(data, pos) == Ok((Record(name, p), pos + 4 + |name| + |EncodePayload(p)|))
  {
    var body := EncodePayload(p);
    ReadThreeParts(data, pos, head, name, body);
    ParseBodyOfEncoded(data, pos + 4 + |name|, name, p);
    ParseRecordOfParts(data, pos, head, name, p, pos + 4 + |name| + |body|);
  }

  /** The slice holding `a + b + c`: reads of `a` and `b` in turn, and `c` after them. */
  lemma ReadThreeParts(data: seq<Byte>, pos: nat, a: seq<Byte>, b: seq<Byte>, c: seq<Byte>)
    requires pos + |a| + |b| + |c| <= |data| && data[pos..pos + |a| + |b| + |c|] == a + b + c
    ensures Read(data, pos, |a|) == a
    ensures Read(data, pos + |a|, |b|) == b
    ensures data[pos + |a| + |b|..pos + |a| + |b| + |c|] == c
  {
    SplitSlice(data, pos, a + b, c);
    SplitSlice(data, pos, a, b);
    ReadWhole(data, pos, a);
    ReadWhole(data, pos + |a|, b);
  }

  /** The suffix holding `a + b` starts with `a`, and `b` follows it. */
  lemma SplitSuffix(data: seq<Byte>, pos: nat, a: seq<Byte>, b: seq<Byte>)
    requires pos <= |data| && data[pos..] == a + b
    ensures pos + |a| <= |data|
    ensures data[pos..pos + |a|] == a
    ensures data[pos + |a|..] == b
  {
    assert data[pos..pos + |a|] == data[pos..][..|a|];
    assert data[pos + |a|..] == data[pos..][|a|..];
  }

  /** A non-empty run of written records: the first record's bytes, then the rest. */
  lemma EncodeFirst(rs: seq<Record>)
    requires |rs| > 0 && AllWellFormed(rs)
    ensures WellFormed(rs[0]) && AllWellFormed(rs[1..])
    ensures Encode(rs) == EncodeRecord(rs[0]) + Encode(rs[1..])
  {
  }

  /** From cursor `pos` the record loop reads exactly the records `rs`, one after another, to the end of the data. */
  predicate ReadsAs(data: seq<Byte>, pos: nat, rs: seq<Record>)
    requires pos <= |data|
    decreases |rs|
  {
    if |rs| == 0 then pos == |data|
    else
      pos < |data| &&
      match ParseRecord(data, pos)
      case Err(_) => false
      case Ok((r, next)) => r == rs[0] && ReadsAs(data, next, rs[1..])
  }

  /** Records the loop reads one after another are stored in order. */
  lemma {:induction false} ParseFromOfReadsAs(data: seq<Byte>, pos: nat, rs: seq<Record>, m: ModelData)
    requires pos <= |data| && ReadsAs(data, pos, rs)
    ensures ParseFrom(data, pos, m) == Ok(StoreAll(m, rs))
    decreases |rs|
  {
    if |rs| > 0 {
      match ParseRecord(data, pos) {
        case Ok((r, next)) =>
          ParseFromOfReadsAs(data, next, rs[1..], Store(m, r));
      }
    }
  }

  /** The loop reads a first record at the cursor and then the rest after it. */
  lemma ReadsAsFirst(data: seq<Byte>, pos: nat, rs: seq<Record>, next: nat)
    requires pos < |data| && |rs| > 0 && ParseRecord(data, pos) == Ok((rs[0], next))
    requires next <= |data| && ReadsAs(data, next, rs[1..])
    ensures ReadsAs(data, pos, rs)
  {
  }

  /** The first of the written records reads back, and the bytes of the rest follow it. */
  lemma ParseFirstOfEncoded(data: seq<Byte>, pos: nat, rs: seq<Record>) returns (next: nat)
    requires |rs| > 0 && AllWellFormed(rs)
    requires pos <= |data| && data[pos..] == Encode(rs)
    ensures pos < |data| && ParseRecord(data, pos) == Ok((rs[0], next))
    ensures next <= |data| && AllWellFormed(rs[1..]) && data[next..] == Encode(rs[1..])
  {
    EncodeFirst(rs);
    var e := EncodeRecord(rs[0]);
    SplitSuffix(data, pos, e, Encode(rs[1..]));
    ParseRecordOfEncoded(data, pos, rs[0]);
    next := pos + |e|;
  }

  /** Written records, from any cursor where their bytes begin, are read back one after another. */
  lemma {:induction false} ReadsAsOfEncode(data: seq<Byte>, pos: nat, rs: seq<Record>)
    requires AllWellFormed(rs)
    requires pos <= |data| && data[pos..] == Encode(rs)
    ensures ReadsAs(data, pos, rs)
    decreases |rs|
  {
    if |rs| > 0 {
      var next := ParseFirstOfEncoded(data, pos, rs);
      ReadsAsOfEncode(data, next, rs[1..]);
      ReadsAsFirst(data, pos, rs, next);
    } else {
      assert pos == |data|;
    }
  }

  /**
   * Round trip: a checkpoint written record by record reads back as the
   * dictionaries those records fill in order, later records under a
   * repeated name replacing earlier ones.
   */
  lemma ReadModelOfEncode(rs: seq<Record>)
    requires AllWellFormed(rs)
    ensures ReadModel(Encode(rs)) == Ok(StoreAll(EmptyModel, rs))
  {
    ReadsAsOfEncode(Encode(rs), 0, rs);
    ParseFromOfReadsAs(Encode(rs), 0, rs, EmptyModel);
  }
}
