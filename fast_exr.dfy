/** The metadata-only OpenEXR header parser of src/fast_exr.rs.

    The pure functions named `...At(data, pos)` say what each step of the parser
    does to a byte buffer read from offset `pos`: the value or error it produces and
    where the cursor stands afterwards. The class FastExrParser is the parser itself,
    a byte buffer with a mutable position, and each of its methods is proved to do
    exactly what the function of the same step says. */
module FastExr {
  import opened ExrBytes

  /** The OpenEXR magic number; on disk the bytes 76 2f 31 01. */
  const Magic: uint32 := 20000630

  datatype Error = UnexpectedEndOfData | InvalidMagicNumber | UnknownSampleType(value: uint32)

  datatype Result<T> = Ok(value: T) | Err(error: Error) {
    predicate IsFailure() {
      Err?
    }

    function PropagateFailure<U>(): Result<U>
      requires Err?
    {
      Err(error)
    }

    function Extract(): T
      requires Ok?
    {
      value
    }
  }

  datatype Option<T> = None | Some(value: T)

  /** An f32 kept as its bit pattern: `f32::from_bits` only reinterprets the word. */
  datatype F32 = FromBits(bits: uint32)

  /** The f32 value 1.0. */
  const OneF32: F32 := FromBits(0x3F80_0000)

  datatype SampleType = UInt | Half | Float

  /** The on-disk pixel-type code of a sample type. */
  function SampleTypeCode(t: SampleType): uint32
  {
    match t
    case UInt => 0
    case Half => 1
    case Float => 2
  }

  /** `SampleType::from_u32`: codes 0, 1, 2 and nothing else. */
  function SampleTypeFromU32(value: uint32): (r: Result<SampleType>)
    ensures r.Ok? <==> value < 3
    ensures r.Ok? ==> SampleTypeCode(r.value) == value
    ensures r.Err? ==> r.error == UnknownSampleType(value)
  {
    if value == 0 then Ok(UInt)
    else if value == 1 then Ok(Half)
    else if value == 2 then Ok(Float)
    else Err(UnknownSampleType(value))
  }

  datatype ChannelInfo = ChannelInfo(
    name: seq<uint8>,
    sampleType: SampleType,
    sampling: (int32, int32),
    quantizeLinearly: bool)

  /** FastEXRMetadata; names and string values are kept as the bytes read. */
  datatype Metadata = Metadata(
    channels: seq<ChannelInfo>,
    displayWindow: (int32, int32, int32, int32),
    pixelAspect: F32,
    compression: string,
    lineOrder: string,
    layerName: Option<seq<uint8>>,
    customAttributes: map<seq<uint8>, seq<uint8>>)

  /** The record parse_metadata starts from before reading any attribute. */
  const DefaultMetadata: Metadata :=
    Metadata([], (0, 0, 0, 0), OneF32, "Unknown", "Increasing", None, map[])

  /** Outcome of a step of the parser started at some position: the value or the
      error, and the position of the cursor afterwards. */
  datatype Parsed<T> = Parsed(result: Result<T>, pos: nat)

  /** Passes the error of a failed step on, the cursor left where that step left it. */
  function Fail<T, U>(p: Parsed<T>): (q: Parsed<U>)
    requires p.result.Err?
    ensures q.result.Err? && q.result.error == p.result.error && q.pos == p.pos
  {
    Parsed(Err(p.result.error), p.pos)
  }

  /** The contract of a bounds-checked read of `width` bytes: it fails with
      UnexpectedEndOfData, leaving the cursor where it was, exactly when fewer than
      `width` bytes remain, and otherwise advances the cursor by exactly `width`. */
  ghost predicate BoundsChecked<T>(data: seq<uint8>, pos: nat, p: Parsed<T>, width: nat)
  {
    && (p.result.Ok? <==> pos + width <= |data|)
    && (p.result.Ok? ==> p.pos == pos + width)
    && (p.result.Err? ==> p.result.error == UnexpectedEndOfData && p.pos == pos)
  }

  // ---------------------------------------------------------------------------
  // Primitive reads

  /** `read_u8` */
  function U8At(data: seq<uint8>, pos: nat): (p: Parsed<uint8>)
    requires pos <= |data|
    ensures BoundsChecked(data, pos, p, 1)
    ensures p.result.Ok? ==> p.result.value == data[pos]
  {
    if pos >= |data| then Parsed(Err(UnexpectedEndOfData), pos)
    else Parsed(Ok(data[pos]), pos + 1)
  }

  /** `read_u32`: four bytes, little-endian. */
  function U32At(data: seq<uint8>, pos: nat): (p: Parsed<uint32>)
    requires pos <= |data|
    ensures BoundsChecked(data, pos, p, 4)
    ensures p.result.Ok? ==>
              p.result.value == data[pos] as int + 0x100 * (data[pos + 1] as int)
                                + 0x1_0000 * (data[pos + 2] as int) + 0x100_0000 * (data[pos + 3] as int)
  {
    if pos + 4 > |data| then Parsed(Err(UnexpectedEndOfData), pos)
    else Parsed(Ok(FromLe(data[pos..pos + 4])), pos + 4)
  }

  /** `read_i32`: the word read_u32 gives, reinterpreted as two's complement. */
  function I32At(data: seq<uint8>, pos: nat): (p: Parsed<int32>)
    requires pos <= |data|
    ensures BoundsChecked(data, pos, p, 4)
    ensures p.result.Ok? ==> p.result.value % 0x1_0000_0000 == U32At(data, pos).result.value
  {
    var u := U32At(data, pos);
    if u.result.Err? then Fail(u) else Parsed(Ok(AsInt32(u.result.value)), u.pos)
  }

  /** `read_f32`: the word read_u32 gives, reinterpreted as an f32. */
  function F32At(data: seq<uint8>, pos: nat): (p: Parsed<F32>)
    requires pos <= |data|
    ensures BoundsChecked(data, pos, p, 4)
    ensures p.result.Ok? ==> p.result.value.bits == U32At(data, pos).result.value
  {
    var u := U32At(data, pos);
    if u.result.Err? then Fail(u) else Parsed(Ok(FromBits(u.result.value)), u.pos)
  }

  /** The index of the first 0 byte at or after `pos`, or |data| when there is none. */
  function FirstZeroFrom(data: seq<uint8>, pos: nat): (k: nat)
    requires pos <= |data|
    ensures pos <= k <= |data|
    ensures k < |data| ==> data[k] == 0
    ensures 0 !in data[pos..k]
    decreases |data| - pos
  {
    if pos == |data| || data[pos] == 0 then pos else FirstZeroFrom(data, pos + 1)
  }

  /** `read_null_terminated_string`: never fails; gives the bytes before the first 0
      byte and leaves the cursor just past that 0, or at the end of the buffer when
      there is no 0. */
  function NulStringAt(data: seq<uint8>, pos: nat): (p: Parsed<seq<uint8>>)
    requires pos <= |data|
    ensures p.result.Ok?
    ensures pos + |p.result.value| <= |data| && p.result.value == data[pos..pos + |p.result.value|]
    ensures 0 !in p.result.value
    ensures pos + |p.result.value| < |data| ==>
      data[pos + |p.result.value|] == 0 && p.pos == pos + |p.result.value| + 1
    ensures pos + |p.result.value| == |data| ==> p.pos == |data|
  {
    var k := FirstZeroFrom(data, pos);
    Parsed(Ok(data[pos..k]), if k < |data| then k + 1 else k)
  }

  /** `read_fixed_string`: exactly `size` bytes or nothing. */
  function FixedStringAt(data: seq<uint8>, pos: nat, size: nat): (p: Parsed<seq<uint8>>)
    requires pos <= |data|
    ensures BoundsChecked(data, pos, p, size)
    ensures p.result.Ok? ==> p.result.value == data[pos..pos + size]
  {
    if pos + size > |data| then Parsed(Err(UnexpectedEndOfData), pos)
    else Parsed(Ok(data[pos..pos + size]), pos + size)
  }

  /** `skip` */
  function SkipAt(data: seq<uint8>, pos: nat, count: nat): (p: Parsed<()>)
    requires pos <= |data|
    ensures BoundsChecked(data, pos, p, count)
  {
    if pos + count > |data| then Parsed(Err(UnexpectedEndOfData), pos)
    else Parsed(Ok(()), pos + count)
  }

  // ---------------------------------------------------------------------------
  // Compression and line order

  const CompressionNames: seq<string> :=
    ["None", "RLE", "ZIPS", "ZIP", "PIZ", "PXR24", "B44", "B44A", "DWAA", "DWAB"]

  const LineOrderNames: seq<string> := ["Increasing", "Decreasing", "Random"]

  /** `format!("Unknown({})", code)` */
  function UnknownName(code: uint8): (s: string)
    ensures |s| >= 10 && s[..8] == "Unknown(" && s[|s| - 1] == ')'
    ensures s !in CompressionNames && s !in LineOrderNames
  {
    "Unknown(" + Decimal(code) + ")"
  }

  /** The name read_compression gives a compression code. */
  function CompressionName(code: uint8): (s: string)
    ensures s in CompressionNames <==> code < |CompressionNames|
    ensures s !in CompressionNames ==> s == UnknownName(code)
  {
    if code < |CompressionNames| then CompressionNames[code] else UnknownName(code)
  }

  /** The name read_line_order gives a line-order code. */
  function LineOrderName(code: uint8): (s: string)
    ensures s in LineOrderNames <==> code < |LineOrderNames|
    ensures s !in LineOrderNames ==> s == UnknownName(code)
  {
    if code < |LineOrderNames| then LineOrderNames[code] else UnknownName(code)
  }

  /** `read_compression(size)`: the first payload byte names the compression and
      the other size - 1 bytes are skipped; an empty payload reads nothing. */
  function CompressionAt(data: seq<uint8>, pos: nat, size: nat): (p: Parsed<string>)
    requires pos <= |data|
    ensures pos <= p.pos <= |data|
    ensures p.result.Ok? <==> size == 0 || pos + size <= |data|
    ensures p.result.Ok? ==> p.pos == pos + size
    ensures p.result.Ok? ==> p.result.value == if size == 0 then "Unknown" else CompressionName(data[pos])
    ensures p.result.Err? ==> p.result.error == UnexpectedEndOfData
  {
    if size >= 1 then
      var code := U8At(data, pos);
      if code.result.Err? then Fail(code)
      else
        var rest := SkipAt(data, code.pos, size - 1);
        if rest.result.Err? then Fail(rest)
        else Parsed(Ok(CompressionName(code.result.value)), rest.pos)
    else
      Parsed(Ok("Unknown"), pos)
  }

  /** `read_line_order(size)`, the same shape as read_compression. */
  function LineOrderAt(data: seq<uint8>, pos: nat, size: nat): (p: Parsed<string>)
    requires pos <= |data|
    ensures pos <= p.pos <= |data|
    ensures p.result.Ok? <==> size == 0 || pos + size <= |data|
    ensures p.result.Ok? ==> p.pos == pos + size
    ensures p.result.Ok? ==> p.result.value == if size == 0 then "Increasing" else LineOrderName(data[pos])
    ensures p.result.Err? ==> p.result.error == UnexpectedEndOfData
  {
    if size >= 1 then
      var code := U8At(data, pos);
      if code.result.Err? then Fail(code)
      else
        var rest := SkipAt(data, code.pos, size - 1);
        if rest.result.Err? then Fail(rest)
        else Parsed(Ok(LineOrderName(code.result.value)), rest.pos)
    else
      Parsed(Ok("Increasing"), pos)
  }

  // ---------------------------------------------------------------------------
  // The channel list

  /** Every channel has a non-empty name without 0 bytes. */
  predicate NamedChannels(cs: seq<ChannelInfo>)
  {
    forall i :: 0 <= i < |cs| ==> cs[i].name != [] && 0 !in cs[i].name
  }

  /** One channel record after its name, at offsets 0..16 from `pos`: a u32 pixel
      type (0), a u8 linear flag (4), three reserved bytes (5), and the i32 x and y
      sampling factors (8 and 12). The fields are read in that order, so a record
      cut short fails at the start of the first field that does not fit; the pixel
      type is checked only once all 16 bytes have been read. */
  function ChannelRecordAt(data: seq<uint8>, pos: nat, name: seq<uint8>): (p: Parsed<ChannelInfo>)
    requires pos <= |data|
    ensures pos <= p.pos <= |data|
    ensures p.result.Ok? ==> p.pos == pos + 16 && p.result.value.name == name
  {
    var available := |data| - pos;
    if available < 16 then
      var failedAt := if available < 4 then 0 else if available < 5 then 4
                      else if available < 8 then 5 else if available < 12 then 8 else 12;
      Parsed(Err(UnexpectedEndOfData), pos + failedAt)
    else
      var sampleType := SampleTypeFromU32(FromLe(data[pos..pos + 4]));
      if sampleType.Err? then Parsed(Err(sampleType.error), pos + 16)
      else
        var sampling := (AsInt32(FromLe(data[pos + 8..pos + 12])), AsInt32(FromLe(data[pos + 12..pos + 16])));
        Parsed(Ok(ChannelInfo(name, sampleType.value, sampling, data[pos + 4] != 0)), pos + 16)
  }

  /** What a channel record read gives: it succeeds exactly when all 16 bytes are
      there and the pixel type is 0, 1 or 2; a bad pixel type fails with that code
      after the whole record. The reserved bytes are ignored and any non-zero linear
      flag counts as set. */
  lemma ChannelRecordAtDecodes(data: seq<uint8>, pos: nat, name: seq<uint8>)
    requires pos <= |data|
    ensures var p := ChannelRecordAt(data, pos, name);
            && (p.result.Ok? <==> pos + 16 <= |data| && FromLe(data[pos..pos + 4]) < 3)
            && (pos + 16 > |data| ==> p.result == Err(UnexpectedEndOfData))
            && (pos + 16 <= |data| && FromLe(data[pos..pos + 4]) >= 3 ==>
                  p == Parsed(Err(UnknownSampleType(FromLe(data[pos..pos + 4]))), pos + 16))
            && (p.result.Ok? ==>
                  && SampleTypeCode(p.result.value.sampleType) == FromLe(data[pos..pos + 4])
                  && p.result.value.quantizeLinearly == (data[pos + 4] != 0)
                  && p.result.value.sampling == (AsInt32(FromLe(data[pos + 8..pos + 12])),
                                                 AsInt32(FromLe(data[pos + 12..pos + 16]))))
  {
  }

  /** The loop of parse_channels from position `pos`, with the channels `acc` read
      so far; `end` is where the channel attribute's span ends. Only the start of a
      record is tested against `end`. */
  function ChannelLoop(data: seq<uint8>, end: nat, pos: nat, acc: seq<ChannelInfo>): (p: Parsed<seq<ChannelInfo>>)
    requires pos <= |data|
    ensures pos <= p.pos <= |data|
    ensures p.result.Ok? ==> acc <= p.result.value
    ensures p.result.Ok? && NamedChannels(acc) ==> NamedChannels(p.result.value)
    decreases |data| - pos
  {
    if pos >= end then Parsed(Ok(acc), pos)
    else
      var name := NulStringAt(data, pos);
      if name.result.value == [] then Parsed(Ok(acc), name.pos)
      else
        var channel := ChannelRecordAt(data, name.pos, name.result.value);
        if channel.result.Err? then Fail(channel)
        else ChannelLoop(data, end, channel.pos, acc + [channel.result.value])
  }

  /** One turn of the channel loop on a record with a non-empty name. */
  lemma ChannelLoopUnfold(data: seq<uint8>, end: nat, pos: nat, acc: seq<ChannelInfo>)
    requires pos < end && pos <= |data|
    requires NulStringAt(data, pos).result.value != []
    ensures var name := NulStringAt(data, pos);
            var record := ChannelRecordAt(data, name.pos, name.result.value);
            ChannelLoop(data, end, pos, acc) ==
              if record.result.Err? then Fail(record)
              else ChannelLoop(data, end, record.pos, acc + [record.result.value])
  {
  }

  /** `parse_channels(size)` started at `pos`. */
  function ChannelsAt(data: seq<uint8>, pos: nat, size: nat): (p: Parsed<seq<ChannelInfo>>)
    requires pos <= |data|
    ensures pos <= p.pos <= |data|
    ensures p.result.Ok? ==> NamedChannels(p.result.value)
  {
    ChannelLoop(data, pos + size, pos, [])
  }

  // ---------------------------------------------------------------------------
  // Attributes

  /** The attribute names parse_metadata dispatches on; everything else is Other. */
  datatype AttrKind =
    | ChannelsAttr
    | DisplayWindowAttr
    | PixelAspectRatioAttr
    | CompressionAttr
    | LineOrderAttr
    | NameAttr
    | OtherAttr(name: seq<uint8>)

  /** The bytes of an ASCII string. */
  function Ascii(s: string): (b: seq<uint8>)
    requires forall i :: 0 <= i < |s| ==> s[i] as int < 0x80
    ensures |b| == |s| && forall i :: 0 <= i < |s| ==> b[i] == s[i] as int
  {
    seq(|s|, i requires 0 <= i < |s| => s[i] as int)
  }

  /** The attribute kind `match attr_name` selects: each of the six names the
      parser knows gives its own kind, and any other name is kept as is. */
  function KindOf(name: seq<uint8>): (k: AttrKind)
    ensures k.OtherAttr? ==> k.name == name
  {
    if name == Ascii("channels") then ChannelsAttr
    else if name == Ascii("displayWindow") then DisplayWindowAttr
    else if name == Ascii("pixelAspectRatio") then PixelAspectRatioAttr
    else if name == Ascii("compression") then CompressionAttr
    else if name == Ascii("lineOrder") then LineOrderAttr
    else if name == Ascii("name") then NameAttr
    else OtherAttr(name)
  }

  /** Each of the six names the parser knows selects its own kind and no other
      name does. */
  lemma KindOfNames(name: seq<uint8>)
    ensures KindOf(name) == ChannelsAttr <==> name == Ascii("channels")
    ensures KindOf(name) == DisplayWindowAttr <==> name == Ascii("displayWindow")
    ensures KindOf(name) == PixelAspectRatioAttr <==> name == Ascii("pixelAspectRatio")
    ensures KindOf(name) == CompressionAttr <==> name == Ascii("compression")
    ensures KindOf(name) == LineOrderAttr <==> name == Ascii("lineOrder")
    ensures KindOf(name) == NameAttr <==> name == Ascii("name")
  {
  }

  /** Rust's `is_ascii_graphic`: the visible characters `!` to `~`. */
  predicate IsAsciiGraphic(b: uint8)
  {
    0x21 <= b <= 0x7E
  }

  /** Rust's `is_ascii_whitespace`: space, tab, line feed, form feed, carriage return. */
  predicate IsAsciiWhitespace(b: uint8)
  {
    b == 0x20 || b == 0x09 || b == 0x0A || b == 0x0C || b == 0x0D
  }

  /** The test a custom attribute's value must pass to be kept. */
  predicate Printable(s: seq<uint8>): (r: bool)
    ensures r <==> forall i :: 0 <= i < |s| ==>
                     0x20 <= s[i] <= 0x7E || (0x09 <= s[i] <= 0x0D && s[i] != 0x0B)
  {
    forall i :: 0 <= i < |s| ==> IsAsciiGraphic(s[i]) || IsAsciiWhitespace(s[i])
  }

  /** What parse_metadata lets into custom_attributes: printable values of 1 to 64 bytes. */
  ghost predicate CustomWellFormed(m: map<seq<uint8>, seq<uint8>>)
  {
    forall n :: n in m ==> 0 < |m[n]| <= 64 && Printable(m[n])
  }

  ghost predicate WellFormed(md: Metadata)
  {
    CustomWellFormed(md.customAttributes) && NamedChannels(md.channels)
  }

  /** The starting record is well-formed and empty. Its compression "Unknown" is
      a name read_compression never produces, so a header without a compression
      attribute can be told apart. Its line order is the one code 0 names. */
  lemma DefaultMetadataFields()
    ensures WellFormed(DefaultMetadata)
    ensures DefaultMetadata.channels == [] && DefaultMetadata.customAttributes == map[]
    ensures DefaultMetadata.layerName == None && DefaultMetadata.displayWindow == (0, 0, 0, 0)
    ensures DefaultMetadata.pixelAspect.bits == 0x3F80_0000
    ensures forall code: uint8 :: DefaultMetadata.compression != CompressionName(code)
    ensures DefaultMetadata.lineOrder == LineOrderName(0)
  {
  }

  /** The part of the metadata an attribute of kind `k` is allowed to set. For
      OtherAttr(n) that is the custom attribute stored under `n`. */
  ghost predicate SameField(a: Metadata, b: Metadata, k: AttrKind)
  {
    match k
    case ChannelsAttr => a.channels == b.channels
    case DisplayWindowAttr => a.displayWindow == b.displayWindow
    case PixelAspectRatioAttr => a.pixelAspect == b.pixelAspect
    case CompressionAttr => a.compression == b.compression
    case LineOrderAttr => a.lineOrder == b.lineOrder
    case NameAttr => a.layerName == b.layerName
    case OtherAttr(n) =>
      (n in a.customAttributes <==> n in b.customAttributes)
      && (n in a.customAttributes ==> a.customAttributes[n] == b.customAttributes[n])
  }

  /** `b` differs from `a` at most in the field of kind `k`; for OtherAttr(n), in
      the custom attribute stored under `n`. */
  ghost predicate SameExcept(a: Metadata, b: Metadata, k: AttrKind)
  {
    && (k != ChannelsAttr ==> a.channels == b.channels)
    && (k != DisplayWindowAttr ==> a.displayWindow == b.displayWindow)
    && (k != PixelAspectRatioAttr ==> a.pixelAspect == b.pixelAspect)
    && (k != CompressionAttr ==> a.compression == b.compression)
    && (k != LineOrderAttr ==> a.lineOrder == b.lineOrder)
    && (k != NameAttr ==> a.layerName == b.layerName)
    && (if k.OtherAttr?
        then a.customAttributes - {k.name} == b.customAttributes - {k.name}
        else a.customAttributes == b.customAttributes)
  }

  /** The 16-byte box read for displayWindow: four i32 in the order
      x_min, y_min, x_max, y_max. */
  function Box2iAt(data: seq<uint8>, pos: nat): (p: Parsed<(int32, int32, int32, int32)>)
    requires pos <= |data|
    ensures pos <= p.pos <= |data|
    ensures p.result.Ok? <==> pos + 16 <= |data|
    ensures p.result.Ok? ==>
              && p.pos == pos + 16
              && p.result.value == (AsInt32(FromLe(data[pos..pos + 4])), AsInt32(FromLe(data[pos + 4..pos + 8])),
                                    AsInt32(FromLe(data[pos + 8..pos + 12])), AsInt32(FromLe(data[pos + 12..pos + 16])))
    ensures p.result.Err? ==> p.result.error == UnexpectedEndOfData
  {
    var xMin := I32At(data, pos);
    if xMin.result.Err? then Fail(xMin)
    else
      var yMin := I32At(data, xMin.pos);
      if yMin.result.Err? then Fail(yMin)
      else
        var xMax := I32At(data, yMin.pos);
        if xMax.result.Err? then Fail(xMax)
        else
          var yMax := I32At(data, xMax.pos);
          if yMax.result.Err? then Fail(yMax)
          else Parsed(Ok((xMin.result.value, yMin.result.value, xMax.result.value, yMax.result.value)), yMax.pos)
  }

  /** `skip(size)` with the metadata unchanged. */
  function SkipAttributeAt(data: seq<uint8>, pos: nat, size: nat, md: Metadata): (p: Parsed<Metadata>)
    requires pos <= |data|
    ensures BoundsChecked(data, pos, p, size)
    ensures p.result.Ok? ==> p.result.value == md
  {
    var skipped := SkipAt(data, pos, size);
    if skipped.result.Err? then Fail(skipped) else Parsed(Ok(md), skipped.pos)
  }

  /** The `_` branch of parse_metadata: an attribute of 1 to 64 bytes is read and
      kept under its name when it is printable; any other is skipped. Either way
      exactly `size` bytes are consumed, or the parse fails with the cursor unmoved. */
  function OtherAttributeAt(data: seq<uint8>, pos: nat, name: seq<uint8>, size: nat, md: Metadata): (p: Parsed<Metadata>)
    requires pos <= |data|
    ensures BoundsChecked(data, pos, p, size)
    ensures p.result.Ok? ==>
              p.result.value == md.(customAttributes :=
                                      if 0 < size <= 64 && Printable(data[pos..pos + size])
                                      then md.customAttributes[name := data[pos..pos + size]]
                                      else md.customAttributes)
  {
    if 0 < size <= 64 then
      var value := FixedStringAt(data, pos, size);
      if value.result.Ok? then
        if Printable(value.result.value) then
          Parsed(Ok(md.(customAttributes := md.customAttributes[name := value.result.value])), value.pos)
        else
          Parsed(Ok(md), value.pos)
      else
        // the cursor is put back where the payload starts and the payload skipped
        SkipAttributeAt(data, pos, size, md)
    else
      SkipAttributeAt(data, pos, size, md)
  }

  /** The `match attr_name` of parse_metadata: the payload of attribute `name` of
      declared size `size` starts at `pos`. */
  function AttributeAt(data: seq<uint8>, pos: nat, name: seq<uint8>, size: nat, md: Metadata): (p: Parsed<Metadata>)
    requires pos <= |data|
    ensures pos <= p.pos <= |data|
    ensures p.result.Ok? ==> SameExcept(md, p.result.value, KindOf(name))
    ensures p.result.Ok? && WellFormed(md) ==> WellFormed(p.result.value)
    ensures p.result.Ok? && KindOf(name) == ChannelsAttr ==>
              ChannelsAt(data, pos, size).result == Ok(p.result.value.channels)
    ensures p.result.Ok? && KindOf(name) == DisplayWindowAttr ==>
              if size >= 16 then Box2iAt(data, pos).result == Ok(p.result.value.displayWindow)
              else p.result.value.displayWindow == md.displayWindow
    ensures p.result.Ok? && KindOf(name) == PixelAspectRatioAttr ==>
              if size >= 4 then F32At(data, pos).result == Ok(p.result.value.pixelAspect)
              else p.result.value.pixelAspect == md.pixelAspect
    ensures p.result.Ok? && KindOf(name) == CompressionAttr ==>
              CompressionAt(data, pos, size).result == Ok(p.result.value.compression)
    ensures p.result.Ok? && KindOf(name) == LineOrderAttr ==>
              LineOrderAt(data, pos, size).result == Ok(p.result.value.lineOrder)
    ensures p.result.Ok? && KindOf(name) == NameAttr ==>
              if size > 0 then pos + size <= |data| && p.result.value.layerName == Some(data[pos..pos + size])
              else p.result.value.layerName == md.layerName
    ensures p.result.Ok? && KindOf(name).OtherAttr? ==>
              && pos + size <= |data|
              && p.result.value.customAttributes ==
                   if 0 < size <= 64 && Printable(data[pos..pos + size])
                   then md.customAttributes[name := data[pos..pos + size]]
                   else md.customAttributes
  {
    match KindOf(name)
    case ChannelsAttr =>
      var channels := ChannelsAt(data, pos, size);
      if channels.result.Err? then Fail(channels)
      else Parsed(Ok(md.(channels := channels.result.value)), channels.pos)
    case DisplayWindowAttr =>
      if size >= 16 then
        var window := Box2iAt(data, pos);
        if window.result.Err? then Fail(window)
        else Parsed(Ok(md.(displayWindow := window.result.value)), window.pos)
      else
        SkipAttributeAt(data, pos, size, md)
    case PixelAspectRatioAttr =>
      if size >= 4 then
        var aspect := F32At(data, pos);
        if aspect.result.Err? then Fail(aspect)
        else Parsed(Ok(md.(pixelAspect := aspect.result.value)), aspect.pos)
      else
        SkipAttributeAt(data, pos, size, md)
    case CompressionAttr =>
      var compression := CompressionAt(data, pos, size);
      if compression.result.Err? then Fail(compression)
      else Parsed(Ok(md.(compression := compression.result.value)), compression.pos)
    case LineOrderAttr =>
      var lineOrder := LineOrderAt(data, pos, size);
      if lineOrder.result.Err? then Fail(lineOrder)
      else Parsed(Ok(md.(lineOrder := lineOrder.result.value)), lineOrder.pos)
    case NameAttr =>
      if size > 0 then
        var layer := FixedStringAt(data, pos, size);
        if layer.result.Err? then Fail(layer)
        else Parsed(Ok(md.(layerName := Some(layer.result.value))), layer.pos)
      else
        SkipAttributeAt(data, pos, size, md)
    case OtherAttr(_) =>
      OtherAttributeAt(data, pos, name, size, md)
  }

  /** How an attribute fails: a channel list that fails fails the attribute with
      its error, and so with UnknownSampleType for a bad pixel type; every other
      attribute can only run out of data. */
  lemma AttributeAtFails(data: seq<uint8>, pos: nat, name: seq<uint8>, size: nat, md: Metadata)
    requires pos <= |data|
    ensures var p := AttributeAt(data, pos, name, size, md);
            && (KindOf(name) == ChannelsAttr ==>
                  (p.result.Err? <==> ChannelsAt(data, pos, size).result.Err?))
            && (KindOf(name) == ChannelsAttr && ChannelsAt(data, pos, size).result.Err? ==>
                  p == Fail(ChannelsAt(data, pos, size)))
            && (p.result.Err? && KindOf(name) != ChannelsAttr ==> p.result.error == UnexpectedEndOfData)
  {
  }

  /** Where the attribute loop may stop: at the end of the buffer, or just past
      a 0 byte, which read as an attribute name is the empty name. */
  ghost predicate StopsAt(data: seq<uint8>, q: nat)
  {
    q == |data| || (0 < q <= |data| && NulStringAt(data, q - 1) == Parsed(Ok([]), q))
  }

  /** The attribute loop of parse_metadata from position `pos` with the metadata
      `md` built so far. It stops successfully at an empty attribute name or when
      the cursor reaches the end of the buffer. */
  function AttrLoop(data: seq<uint8>, pos: nat, md: Metadata): (p: Parsed<Metadata>)
    requires pos <= |data|
    ensures pos <= p.pos <= |data|
    ensures p.result.Ok? ==> StopsAt(data, p.pos)
    ensures p.result.Ok? && WellFormed(md) ==> WellFormed(p.result.value)
    decreases |data| - pos
  {
    if pos >= |data| then Parsed(Ok(md), pos)
    else
      var name := NulStringAt(data, pos);
      if name.result.value == [] then
        assert data[pos] == 0 && name.pos == pos + 1;
        Parsed(Ok(md), name.pos)
      else
        var attrType := NulStringAt(data, name.pos);
        var size := U32At(data, attrType.pos);
        if size.result.Err? then Fail(size)
        else
          var next := AttributeAt(data, size.pos, name.result.value, size.result.value, md);
          if next.result.Err? then next
          else AttrLoop(data, next.pos, next.result.value)
  }

  /** `parse_metadata` started at `pos`: the magic number, the version word, then
      the attributes. */
  function MetadataAt(data: seq<uint8>, pos: nat): (p: Parsed<Metadata>)
    requires pos <= |data|
    ensures pos <= p.pos <= |data|
    ensures p.result.Ok? ==> pos + 8 <= |data| && FromLe(data[pos..pos + 4]) == Magic
    ensures pos + 4 <= |data| && FromLe(data[pos..pos + 4]) != Magic ==>
      p == Parsed(Err(InvalidMagicNumber), pos + 4)
    ensures p.result.Ok? ==> WellFormed(p.result.value)
  {
    var magic := U32At(data, pos);
    if magic.result.Err? then Fail(magic)
    else if magic.result.value != Magic then Parsed(Err(InvalidMagicNumber), magic.pos)
    else
      var version := U32At(data, magic.pos);
      if version.result.Err? then Fail(version)
      else AttrLoop(data, version.pos, DefaultMetadata)
  }

  // ---------------------------------------------------------------------------
  // The parser

  /** FastEXRParser: the header bytes and a cursor into them. */
  class FastExrParser {
    const data: seq<uint8>
    var position: nat

    ghost predicate Valid()
      reads this
    {
      position <= |data|
    }

    /** The parser from_file builds, over the bytes it read. */
    constructor (bytes: seq<uint8>)
      ensures Valid() && data == bytes && position == 0
    {
      data := bytes;
      position := 0;
    }

    method ReadU8() returns (r: Result<uint8>)
      requires Valid()
      modifies this
      ensures Valid() && Parsed(r, position) == U8At(data, old(position))
    {
      if position >= |data| {
        return Err(UnexpectedEndOfData);
      }
      var value := data[position];
      position := position + 1;
      return Ok(value);
    }

    method ReadU32() returns (r: Result<uint32>)
      requires Valid()
      modifies this
      ensures Valid() && Parsed(r, position) == U32At(data, old(position))
    {
      if position + 4 > |data| {
        return Err(UnexpectedEndOfData);
      }
      var bytes := [data[position], data[position + 1], data[position + 2], data[position + 3]];
      assert bytes == data[position..position + 4];
      var value := FromLe(bytes);
      position := position + 4;
      return Ok(value);
    }

    method ReadI32() returns (r: Result<int32>)
      requires Valid()
      modifies this
      ensures Valid() && Parsed(r, position) == I32At(data, old(position))
    {
      var value :- ReadU32();
      return Ok(AsInt32(value));
    }

    method ReadF32() returns (r: Result<F32>)
      requires Valid()
      modifies this
      ensures Valid() && Parsed(r, position) == F32At(data, old(position))
    {
      var value :- ReadU32();
      return Ok(FromBits(value));
    }

    method ReadNullTerminatedString() returns (s: seq<uint8>)
      requires Valid()
      modifies this
      ensures Valid() && Parsed(Ok(s), position) == NulStringAt(data, old(position))
    {
      s := [];
      while true
        invariant old(position) <= position <= |data|
        invariant s == data[old(position)..position]
        invariant forall i :: old(position) <= i < position ==> data[i] != 0
        decreases |data| - position
      {
        if position >= |data| {
          break;
        }
        var byte := data[position];
        position := position + 1;
        if byte == 0 {
          break;
        }
        s := s + [byte];
      }
    }

    method ReadFixedString(size: nat) returns (r: Result<seq<uint8>>)
      requires Valid()
      modifies this
      ensures Valid() && Parsed(r, position) == FixedStringAt(data, old(position), size)
    {
      if position + size > |data| {
        return Err(UnexpectedEndOfData);
      }
      var value := data[position..position + size];
      position := position + size;
      return Ok(value);
    }

    method Skip(count: nat) returns (r: Result<()>)
      requires Valid()
      modifies this
      ensures Valid() && Parsed(r, position) == SkipAt(data, old(position), count)
    {
      if position + count > |data| {
        return Err(UnexpectedEndOfData);
      }
      position := position + count;
      return Ok(());
    }

    method ReadCompression(size: nat) returns (r: Result<string>)
      requires Valid()
      modifies this
      ensures Valid() && Parsed(r, position) == CompressionAt(data, old(position), size)
    {
      if size >= 1 {
        var code :- ReadU8();
        var skipped :- Skip(size - 1);
        return Ok(CompressionName(code));
      } else {
        return Ok("Unknown");
      }
    }

    method ReadLineOrder(size: nat) returns (r: Result<string>)
      requires Valid()
      modifies this
      ensures Valid() && Parsed(r, position) == LineOrderAt(data, old(position), size)
    {
      if size >= 1 {
        var code :- ReadU8();
        var skipped :- Skip(size - 1);
        return Ok(LineOrderName(code));
      } else {
        return Ok("Increasing");
      }
    }

    /** The fields of one channel record, read after its name inside the
        parse_channels loop. */
    method ReadChannelRecord(name: seq<uint8>) returns (r: Result<ChannelInfo>)
      requires Valid()
      modifies this
      ensures Valid() && Parsed(r, position) == ChannelRecordAt(data, old(position), name)
    {
      var pixelType :- ReadU32();
      var pLinear :- ReadU8();
      var reserved :- Skip(3);
      var xSampling :- ReadI32();
      var ySampling :- ReadI32();
      var sampleType :- SampleTypeFromU32(pixelType);
      return Ok(ChannelInfo(name, sampleType, (xSampling, ySampling), pLinear != 0));
    }

    method ParseChannels(size: nat) returns (r: Result<seq<ChannelInfo>>)
      requires Valid()
      modifies this
      ensures Valid() && Parsed(r, position) == ChannelsAt(data, old(position), size)
    {
      var startPos := position;
      var channels := [];
      while position < startPos + size
        invariant Valid()
        invariant ChannelLoop(data, startPos + size, position, channels) == ChannelsAt(data, startPos, size)
        decreases |data| - position
      {
        ghost var before := position;
        var name := ReadNullTerminatedString();
        if name == [] {
          break;
        }
        ChannelLoopUnfold(data, startPos + size, before, channels);
        var channel :- ReadChannelRecord(name);
        channels := channels + [channel];
      }
      return Ok(channels);
    }

    /** The `match attr_name` of parse_metadata, with the payload at the cursor. */
    method ApplyAttribute(name: seq<uint8>, size: nat, metadata: Metadata) returns (r: Result<Metadata>)
      requires Valid()
      modifies this
      ensures Valid() && Parsed(r, position) == AttributeAt(data, old(position), name, size, metadata)
    {
      match KindOf(name)
      case ChannelsAttr =>
        var channels :- ParseChannels(size);
        return Ok(metadata.(channels := channels));
      case DisplayWindowAttr =>
        if size >= 16 {
          var xMin :- ReadI32();
          var yMin :- ReadI32();
          var xMax :- ReadI32();
          var yMax :- ReadI32();
          return Ok(metadata.(displayWindow := (xMin, yMin, xMax, yMax)));
        } else {
          var skipped :- Skip(size);
          return Ok(metadata);
        }
      case PixelAspectRatioAttr =>
        if size >= 4 {
          var aspect :- ReadF32();
          return Ok(metadata.(pixelAspect := aspect));
        } else {
          var skipped :- Skip(size);
          return Ok(metadata);
        }
      case CompressionAttr =>
        var compression :- ReadCompression(size);
        return Ok(metadata.(compression := compression));
      case LineOrderAttr =>
        var lineOrder :- ReadLineOrder(size);
        return Ok(metadata.(lineOrder := lineOrder));
      case NameAttr =>
        if size > 0 {
          var layer :- ReadFixedString(size);
          return Ok(metadata.(layerName := Some(layer)));
        } else {
          // skip(0) cannot fail
          var skipped := Skip(size);
          return Ok(metadata);
        }
      case OtherAttr(_) =>
        if 0 < size <= 64 {
          var startPos := position;
          var value := ReadFixedString(size);
          if value.Ok? {
            if Printable(value.value) {
              return Ok(metadata.(customAttributes := metadata.customAttributes[name := value.value]));
            }
            return Ok(metadata);
          } else {
            position := startPos;
            var skipped := Skip(size);
            return if skipped.Ok? then Ok(metadata) else skipped.PropagateFailure();
          }
        } else {
          var skipped :- Skip(size);
          return Ok(metadata);
        }
    }

    method ParseMetadata() returns (r: Result<Metadata>)
      requires Valid()
      modifies this
      ensures Valid() && Parsed(r, position) == MetadataAt(data, old(position))
    {
      var magic :- ReadU32();
      if magic != Magic {
        return Err(InvalidMagicNumber);
      }
      var version :- ReadU32();
      var metadata := DefaultMetadata;
      while position < |data|
        invariant Valid()
        invariant AttrLoop(data, position, metadata) == MetadataAt(data, old(position))
        decreases |data| - position
      {
        var attrName := ReadNullTerminatedString();
        if attrName == [] {
          break;
        }
        var attrType := ReadNullTerminatedString();
        var attrSize :- ReadU32();
        metadata :- ApplyAttribute(attrName, attrSize, metadata);
      }
      return Ok(metadata);
    }
  }
}
