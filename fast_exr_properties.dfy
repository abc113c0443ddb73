/** Properties of the header parser that relate several steps: what the 32-bit reads
    give back for an encoded word, the channel list read back from its on-disk
    encoding, how far each attribute moves the cursor, which metadata fields an
    attribute can touch, and the names of compressions and line orders. */
module FastExrProperties {
  import opened ExrBytes
  import opened FastExr

  // ---------------------------------------------------------------------------
  // Primitive reads of encoded values

  /** read_u32 gives back the word whose little-endian bytes sit at the cursor. */
  lemma U32AtEncoding(data: seq<uint8>, pos: nat, v: uint32)
    requires pos + 4 <= |data| && data[pos..pos + 4] == ToLe(v)
    ensures U32At(data, pos) == Parsed(Ok(v), pos + 4)
  {
    FromLeToLe(v);
  }

  /** read_i32 gives back the int32 whose two's-complement bytes sit at the cursor. */
  lemma I32AtEncoding(data: seq<uint8>, pos: nat, i: int32)
    requires pos + 4 <= |data| && data[pos..pos + 4] == ToLe(AsUint32(i))
    ensures I32At(data, pos) == Parsed(Ok(i), pos + 4)
  {
    U32AtEncoding(data, pos, AsUint32(i));
    AsInt32Bijective(AsUint32(i), i);
  }

  /** read_null_terminated_string on a 0-terminated string without inner 0 bytes
      gives that string and moves past its terminator. */
  lemma NulStringAtTerminated(data: seq<uint8>, pos: nat, s: seq<uint8>)
    requires pos + |s| < |data| && data[pos..pos + |s|] == s && data[pos + |s|] == 0
    requires 0 !in s
    ensures NulStringAt(data, pos) == Parsed(Ok(s), pos + |s| + 1)
  {
    forall i | pos <= i < pos + |s|
      ensures data[i] != 0
    {
      assert data[i] == data[pos..pos + |s|][i - pos];
    }
  }

  // ---------------------------------------------------------------------------
  // The channel list and its on-disk encoding

  /** The 16 bytes of a channel record after its name: pixel type, linear flag,
      three reserved bytes, x and y sampling. */
  function EncodeRecord(c: ChannelInfo): (b: seq<uint8>)
    ensures |b| == 16
  {
    ToLe(SampleTypeCode(c.sampleType)) + [if c.quantizeLinearly then 1 else 0] + [0, 0, 0]
    + ToLe(AsUint32(c.sampling.0)) + ToLe(AsUint32(c.sampling.1))
  }

  /** A channel as stored in the channels attribute: its 0-terminated name, then its record. */
  function EncodeChannel(c: ChannelInfo): (b: seq<uint8>)
    ensures |b| == |c.name| + 17
  {
    c.name + [0] + EncodeRecord(c)
  }

  /** The bytes a list of channels takes up in a channels attribute. */
  function EncodedLength(cs: seq<ChannelInfo>): nat
  {
    if cs == [] then 1 else |cs[0].name| + 17 + EncodedLength(cs[1..])
  }

  /** The payload of a channels attribute: the channels in order, then an empty name. */
  function EncodeChannels(cs: seq<ChannelInfo>): (b: seq<uint8>)
    ensures |b| == EncodedLength(cs)
  {
    if cs == [] then [0] else EncodeChannel(cs[0]) + EncodeChannels(cs[1..])
  }

  lemma SampleTypeRoundTrip(t: SampleType)
    ensures SampleTypeFromU32(SampleTypeCode(t)) == Ok(t)
  {
  }

  /** A record written by EncodeRecord is read back as the same channel, 16 bytes on. */
  lemma ChannelRecordOfEncoding(data: seq<uint8>, pos: nat, c: ChannelInfo)
    requires pos + 16 <= |data| && data[pos..pos + 16] == EncodeRecord(c)
    ensures ChannelRecordAt(data, pos, c.name) == Parsed(Ok(c), pos + 16)
  {
    var code := ToLe(SampleTypeCode(c.sampleType));
    var x := ToLe(AsUint32(c.sampling.0));
    var y := ToLe(AsUint32(c.sampling.1));
    var r := data[pos..pos + 16];
    var head := code + [if c.quantizeLinearly then 1 else 0] + [0, 0, 0];
    assert r == head + (x + y);
    assert r[8..] == x + y;
    assert data[pos..pos + 4] == r[..4] == code;
    assert r[8..12] == r[8..][..4] == (x + y)[..4] == x;
    assert r[12..16] == r[8..][4..] == (x + y)[4..] == y;
    assert data[pos + 8..pos + 12] == r[8..12];
    assert data[pos + 12..pos + 16] == r[12..16];
    assert data[pos + 4] == r[4];
    FromLeToLe(SampleTypeCode(c.sampleType));
    FromLeToLe(AsUint32(c.sampling.0));
    FromLeToLe(AsUint32(c.sampling.1));
    AsInt32Bijective(0, c.sampling.0);
    AsInt32Bijective(0, c.sampling.1);
    SampleTypeRoundTrip(c.sampleType);
  }

  /** An encoded channel is read back by the two steps of one turn of the channel
      loop: its name, then its record. */
  lemma EncodedChannelReads(data: seq<uint8>, pos: nat, c: ChannelInfo)
    requires 0 !in c.name
    requires pos + |EncodeChannel(c)| <= |data|
    requires data[pos..pos + |EncodeChannel(c)|] == EncodeChannel(c)
    ensures NulStringAt(data, pos) == Parsed(Ok(c.name), pos + |c.name| + 1)
    ensures ChannelRecordAt(data, pos + |c.name| + 1, c.name) == Parsed(Ok(c), pos + |EncodeChannel(c)|)
  {
    var n := |c.name|;
    var e := EncodeChannel(c);
    assert data[pos..pos + n] == e[..n] == c.name;
    assert data[pos + n] == e[n] == 0;
    NulStringAtTerminated(data, pos, c.name);
    assert data[pos + n + 1..pos + n + 17] == e[n + 1..] == EncodeRecord(c);
    ChannelRecordOfEncoding(data, pos + n + 1, c);
  }

  /** The channel loop, started at `pos`, reads the names and records of `cs` in
      turn, each starting before `end`, and then an empty name ending at `end`. */
  ghost predicate ChannelsReadAt(data: seq<uint8>, pos: nat, end: nat, cs: seq<ChannelInfo>)
    decreases cs
  {
    && pos < end && pos < |data|
    && if cs == [] then data[pos] == 0 && end == pos + 1
       else
         var name := NulStringAt(data, pos);
         var record := ChannelRecordAt(data, name.pos, cs[0].name);
         && cs[0].name != []
         && name.result.value == cs[0].name
         && record.result == Ok(cs[0])
         && ChannelsReadAt(data, record.pos, end, cs[1..])
  }

  /** A trace is extended at the front by a channel whose name ends at `q` and whose
      record ends at `r`. */
  lemma ChannelsReadAtCons(data: seq<uint8>, pos: nat, end: nat, c: ChannelInfo, rest: seq<ChannelInfo>, q: nat, r: nat)
    requires pos < end && pos < |data| && c.name != []
    requires NulStringAt(data, pos) == Parsed(Ok(c.name), q)
    requires q <= |data| && ChannelRecordAt(data, q, c.name) == Parsed(Ok(c), r)
    requires ChannelsReadAt(data, r, end, rest)
    ensures ChannelsReadAt(data, pos, end, [c] + rest)
  {
    assert ([c] + rest)[0] == c && ([c] + rest)[1..] == rest;
  }

  /** An empty name at the cursor ends the channel loop just past its 0 byte. */
  lemma ChannelLoopAtTerminator(data: seq<uint8>, end: nat, pos: nat, acc: seq<ChannelInfo>)
    requires pos < end && pos < |data| && data[pos] == 0
    ensures ChannelLoop(data, end, pos, acc) == Parsed(Ok(acc), pos + 1)
  {
    NulStringAtTerminated(data, pos, []);
  }

  /** One turn of the channel loop over a channel whose name ends at `q` and whose
      record ends at `r` appends it and moves on to `r`. */
  lemma ChannelLoopTurn(data: seq<uint8>, end: nat, pos: nat, acc: seq<ChannelInfo>, c: ChannelInfo, q: nat, r: nat)
    requires pos < end && pos <= |data| && c.name != []
    requires NulStringAt(data, pos) == Parsed(Ok(c.name), q)
    requires q <= |data| && ChannelRecordAt(data, q, c.name) == Parsed(Ok(c), r)
    ensures ChannelLoop(data, end, pos, acc) == ChannelLoop(data, end, r, acc + [c])
  {
  }

  /** The channel loop over channels it reads in turn collects exactly those. */
  lemma {:induction false} ChannelLoopReads(data: seq<uint8>, end: nat, pos: nat,
                                            acc: seq<ChannelInfo>, cs: seq<ChannelInfo>)
    requires ChannelsReadAt(data, pos, end, cs)
    ensures ChannelLoop(data, end, pos, acc) == Parsed(Ok(acc + cs), end)
    decreases |cs|, 1
  {
    if cs == [] {
      ChannelLoopAtTerminator(data, end, pos, acc);
      assert acc + cs == acc;
    } else {
      ChannelLoopReadsFirst(data, end, pos, acc, cs);
    }
  }

  /** ChannelLoopReads for a non-empty list: one turn, then the rest of the list. */
  lemma {:induction false} ChannelLoopReadsFirst(data: seq<uint8>, end: nat, pos: nat,
                                                 acc: seq<ChannelInfo>, cs: seq<ChannelInfo>)
    requires cs != [] && ChannelsReadAt(data, pos, end, cs)
    ensures ChannelLoop(data, end, pos, acc) == Parsed(Ok(acc + cs), end)
    decreases |cs|, 0
  {
    var name := NulStringAt(data, pos);
    var record := ChannelRecordAt(data, name.pos, cs[0].name);
    ChannelLoopTurn(data, end, pos, acc, cs[0], name.pos, record.pos);
    ChannelLoopReads(data, end, record.pos, acc + [cs[0]], cs[1..]);
    assert acc + [cs[0]] + cs[1..] == acc + cs;
  }

  /** `bytes` sits in `data` at `pos`, byte by byte. */
  ghost predicate BytesAt(data: seq<uint8>, pos: nat, bytes: seq<uint8>)
    decreases bytes
  {
    if bytes == [] then pos <= |data|
    else pos < |data| && data[pos] == bytes[0] && BytesAt(data, pos + 1, bytes[1..])
  }

  lemma {:induction false} BytesAtIsSlice(data: seq<uint8>, pos: nat, bytes: seq<uint8>)
    ensures BytesAt(data, pos, bytes) <==> pos + |bytes| <= |data| && data[pos..pos + |bytes|] == bytes
    decreases bytes
  {
    if bytes != [] {
      BytesAtIsSlice(data, pos + 1, bytes[1..]);
      if pos + |bytes| <= |data| {
        assert data[pos..pos + |bytes|] == [data[pos]] + data[pos + 1..pos + 1 + |bytes[1..]|];
        assert bytes == [bytes[0]] + bytes[1..];
      }
    }
  }

  lemma BytesAtSplit(data: seq<uint8>, pos: nat, a: seq<uint8>, b: seq<uint8>)
    requires BytesAt(data, pos, a + b)
    ensures BytesAt(data, pos, a) && BytesAt(data, pos + |a|, b)
  {
    BytesAtIsSlice(data, pos, a + b);
    BytesAtIsSlice(data, pos, a);
    BytesAtIsSlice(data, pos + |a|, b);
    assert data[pos..pos + |a|] == data[pos..pos + |a + b|][..|a|];
    assert data[pos + |a|..pos + |a| + |b|] == data[pos..pos + |a + b|][|a|..];
  }

  /** The encodings of the named channels of `cs` lie in `data` one after the other
      from `pos`, followed by an empty name. */
  ghost predicate ChannelsEncodedAt(data: seq<uint8>, pos: nat, cs: seq<ChannelInfo>)
    decreases cs
  {
    if cs == [] then pos < |data| && data[pos] == 0
    else
      && cs[0].name != [] && 0 !in cs[0].name
      && BytesAt(data, pos, EncodeChannel(cs[0]))
      && ChannelsEncodedAt(data, pos + |cs[0].name| + 17, cs[1..])
  }

  lemma NamedChannelsTail(cs: seq<ChannelInfo>)
    requires cs != [] && NamedChannels(cs)
    ensures NamedChannels(cs[1..])
  {
    forall i | 0 <= i < |cs[1..]|
      ensures cs[1..][i].name != [] && 0 !in cs[1..][i].name
    {
      assert cs[1..][i] == cs[i + 1];
    }
  }

  /** The encoding of a list of named channels is the encodings of its channels laid
      end to end. */
  lemma {:induction false} EncodingLaidOut(data: seq<uint8>, pos: nat, cs: seq<ChannelInfo>)
    requires NamedChannels(cs)
    requires BytesAt(data, pos, EncodeChannels(cs))
    ensures ChannelsEncodedAt(data, pos, cs)
    decreases cs
  {
    if cs != [] {
      BytesAtSplit(data, pos, EncodeChannel(cs[0]), EncodeChannels(cs[1..]));
      NamedChannelsTail(cs);
      EncodingLaidOut(data, pos + |cs[0].name| + 17, cs[1..]);
    }
  }

  /** An encoded list of named channels is read back channel by channel. */
  lemma {:induction false} EncodedChannelsRead(data: seq<uint8>, pos: nat, cs: seq<ChannelInfo>)
    requires ChannelsEncodedAt(data, pos, cs)
    ensures ChannelsReadAt(data, pos, pos + EncodedLength(cs), cs)
    decreases |cs|, 1
  {
    if cs != [] {
      EncodedChannelsReadFirst(data, pos, cs);
    }
  }

  /** EncodedChannelsRead for a non-empty list: the rest of the list, then its first channel. */
  lemma {:induction false} EncodedChannelsReadFirst(data: seq<uint8>, pos: nat, cs: seq<ChannelInfo>)
    requires cs != [] && ChannelsEncodedAt(data, pos, cs)
    ensures ChannelsReadAt(data, pos, pos + EncodedLength(cs), cs)
    decreases |cs|, 0
  {
    var next := pos + |cs[0].name| + 17;
    EncodedChannelsRead(data, next, cs[1..]);
    EncodedChannelStep(data, pos, next, pos + EncodedLength(cs), cs[0], cs[1..]);
    assert [cs[0]] + cs[1..] == cs;
  }

  /** A trace is extended at the front by a named channel encoded at `pos`. */
  lemma EncodedChannelStep(data: seq<uint8>, pos: nat, next: nat, end: nat, c: ChannelInfo, rest: seq<ChannelInfo>)
    requires c.name != [] && 0 !in c.name && next == pos + |c.name| + 17 && pos < end
    requires BytesAt(data, pos, EncodeChannel(c))
    requires ChannelsReadAt(data, next, end, rest)
    ensures ChannelsReadAt(data, pos, end, [c] + rest)
  {
    BytesAtIsSlice(data, pos, EncodeChannel(c));
    EncodedChannelReads(data, pos, c);
    ChannelsReadAtCons(data, pos, end, c, rest, pos + |c.name| + 1, next);
  }

  /** parse_channels over an encoded channel list whose size is that of the
      encoding gives back the list, in order, and consumes exactly the encoding:
      the name, its 0 and 16 bytes per channel, and the final empty name. */
  lemma ChannelsRoundTrip(data: seq<uint8>, pos: nat, cs: seq<ChannelInfo>)
    requires NamedChannels(cs)
    requires BytesAt(data, pos, EncodeChannels(cs))
    ensures ChannelsAt(data, pos, |EncodeChannels(cs)|) == Parsed(Ok(cs), pos + |EncodeChannels(cs)|)
  {
    assert ChannelsReadAt(data, pos, pos + |EncodeChannels(cs)|, cs) by {
      EncodingLaidOut(data, pos, cs);
      EncodedChannelsRead(data, pos, cs);
    }
    ChannelsAtOfTrace(data, pos, |EncodeChannels(cs)|, cs);
  }

  /** parse_channels(size) over channels it reads in turn, up to the end of the
      declared span, gives back exactly those channels. */
  lemma ChannelsAtOfTrace(data: seq<uint8>, pos: nat, size: nat, cs: seq<ChannelInfo>)
    requires ChannelsReadAt(data, pos, pos + size, cs)
    ensures ChannelsAt(data, pos, size) == Parsed(Ok(cs), pos + size)
  {
    ChannelLoopReads(data, pos + size, pos, [], cs);
    assert [] + cs == cs;
  }

  /** An empty name ends the channel list whatever the declared size: the rest of
      the declared span is not consumed. */
  lemma ChannelsStopAtEmptyName(data: seq<uint8>, pos: nat, size: nat)
    requires pos < |data| && data[pos] == 0 && size > 0
    ensures ChannelsAt(data, pos, size) == Parsed(Ok([]), pos + 1)
  {
    NulStringAtTerminated(data, pos, []);
  }

  /** An empty name ends the channel list even when the declared span goes on: a
      channel, its terminator and anything after it in the span read as that one
      channel, ending just past the terminator. */
  lemma EarlyTerminatorAfterOne(c: ChannelInfo, junk: seq<uint8>, size: nat)
    requires c.name != [] && 0 !in c.name && |c.name| + 17 < size
    ensures ChannelsAt(EncodeChannel(c) + [0] + junk, 0, size) == Parsed(Ok([c]), |c.name| + 18)
  {
    var data := EncodeChannel(c) + [0] + junk;
    var e := |c.name| + 17;
    assert data[0..e] == EncodeChannel(c);
    EncodedChannelReads(data, 0, c);
    ChannelLoopUnfold(data, size, 0, []);
    assert data[e] == 0;
    ChannelLoopAtTerminator(data, size, e, [c]);
    assert [] + [c] == [c];
  }

  /** Only the start of a record is checked against the declared size: a channels
      attribute declared 1 byte long still reads the whole first record. */
  lemma ChannelsOverrunDeclaredSize(c: ChannelInfo)
    requires c.name != [] && 0 !in c.name
    ensures ChannelsAt(EncodeChannel(c), 0, 1) == Parsed(Ok([c]), |c.name| + 17)
  {
    var data := EncodeChannel(c);
    assert data[0..|data|] == data;
    EncodedChannelReads(data, 0, c);
    ChannelLoopUnfold(data, 1, 0, []);
    assert [] + [c] == [c];
  }

  /** A record whose pixel type is not 0, 1 or 2 fails the channel loop with
      UnknownSampleType, once the whole record has been read. */
  lemma ChannelLoopFailsOnBadPixelType(data: seq<uint8>, end: nat, pos: nat, acc: seq<ChannelInfo>)
    requires pos < end && pos <= |data|
    requires NulStringAt(data, pos).result.value != []
    requires NulStringAt(data, pos).pos + 16 <= |data|
    requires FromLe(data[NulStringAt(data, pos).pos..NulStringAt(data, pos).pos + 4]) >= 3
    ensures ChannelLoop(data, end, pos, acc) ==
              Parsed(Err(UnknownSampleType(FromLe(data[NulStringAt(data, pos).pos..NulStringAt(data, pos).pos + 4]))),
                     NulStringAt(data, pos).pos + 16)
  {
    ChannelLoopUnfold(data, end, pos, acc);
  }

  // ---------------------------------------------------------------------------
  // How far an attribute moves the cursor

  /** The bytes an accepted attribute payload other than channels consumes: 16 for
      a displayWindow and 4 for a pixelAspectRatio whatever larger size they declare,
      and the declared size for everything else. */
  function PayloadExtent(k: AttrKind, size: nat): nat
  {
    match k
    case DisplayWindowAttr => if size >= 16 then 16 else size
    case PixelAspectRatioAttr => if size >= 4 then 4 else size
    case _ => size
  }

  /** An accepted attribute other than channels moves the cursor by its payload
      extent, and a payload that lies within the data is always accepted. */
  lemma AttributeExtent(data: seq<uint8>, pos: nat, name: seq<uint8>, size: nat, md: Metadata)
    requires pos <= |data| && KindOf(name) != ChannelsAttr
    ensures AttributeAt(data, pos, name, size, md).result.Ok? ==>
              AttributeAt(data, pos, name, size, md).pos == pos + PayloadExtent(KindOf(name), size)
    ensures pos + PayloadExtent(KindOf(name), size) <= |data| ==>
              AttributeAt(data, pos, name, size, md).result.Ok?
  {
  }

  /** A displayWindow declared longer than 16 bytes leaves the rest of its payload
      to be read as the next attribute's name. */
  lemma LongDisplayWindowReadsSixteen(data: seq<uint8>, pos: nat, size: nat, md: Metadata)
    requires pos + 16 <= |data| && size > 16
    ensures AttributeAt(data, pos, Ascii("displayWindow"), size, md).pos == pos + 16 < pos + size
  {
    AttributeExtent(data, pos, Ascii("displayWindow"), size, md);
  }

  // ---------------------------------------------------------------------------
  // Which fields an attribute can change

  lemma SameExceptGivesSameField(a: Metadata, b: Metadata, changed: AttrKind, k: AttrKind)
    requires SameExcept(a, b, changed) && changed != k
    ensures SameField(a, b, k)
  {
    if k.OtherAttr? {
      var n := k.name;
      if changed.OtherAttr? {
        assert n in a.customAttributes <==> n in a.customAttributes - {changed.name};
        assert n in b.customAttributes <==> n in b.customAttributes - {changed.name};
        if n in a.customAttributes {
          assert a.customAttributes[n] == (a.customAttributes - {changed.name})[n];
          assert b.customAttributes[n] == (b.customAttributes - {changed.name})[n];
        }
      }
    }
  }

  lemma SameFieldTransitive(a: Metadata, b: Metadata, c: Metadata, k: AttrKind)
    requires SameField(a, b, k) && SameField(b, c, k)
    ensures SameField(a, c, k)
  {
  }

  /** The kinds of the attributes the attribute loop applies, in file order. */
  ghost function AttrLoopKinds(data: seq<uint8>, pos: nat, md: Metadata): seq<AttrKind>
    requires pos <= |data|
    decreases |data| - pos
  {
    if pos >= |data| then []
    else
      var name := NulStringAt(data, pos);
      if name.result.value == [] then []
      else
        var attrType := NulStringAt(data, name.pos);
        var size := U32At(data, attrType.pos);
        if size.result.Err? then []
        else
          var next := AttributeAt(data, size.pos, name.result.value, size.result.value, md);
          if next.result.Err? then []
          else [KindOf(name.result.value)] + AttrLoopKinds(data, next.pos, next.result.value)
  }

  /** A field whose attribute the loop never applies comes out as it went in. */
  lemma {:induction false} AttrLoopLeavesOthers(data: seq<uint8>, pos: nat, md: Metadata, k: AttrKind)
    requires pos <= |data|
    requires AttrLoop(data, pos, md).result.Ok?
    requires k !in AttrLoopKinds(data, pos, md)
    ensures SameField(md, AttrLoop(data, pos, md).result.value, k)
    decreases |data| - pos
  {
    if pos < |data| {
      var name := NulStringAt(data, pos);
      if name.result.value != [] {
        var attrType := NulStringAt(data, name.pos);
        var size := U32At(data, attrType.pos);
        var next := AttributeAt(data, size.pos, name.result.value, size.result.value, md);
        SameExceptGivesSameField(md, next.result.value, KindOf(name.result.value), k);
        AttrLoopLeavesOthers(data, next.pos, next.result.value, k);
        SameFieldTransitive(md, next.result.value, AttrLoop(data, pos, md).result.value, k);
      }
    }
  }

  /** A header parsed successfully keeps the default value of every field whose
      attribute does not occur in it: display window (0, 0, 0, 0), pixel aspect 1.0,
      compression "Unknown", line order "Increasing", no layer name, no channels,
      and no custom attribute under a name that does not occur. */
  lemma MetadataKeepsDefaults(data: seq<uint8>, pos: nat, k: AttrKind)
    requires pos <= |data|
    requires MetadataAt(data, pos).result.Ok?
    requires k !in AttrLoopKinds(data, pos + 8, DefaultMetadata)
    ensures SameField(DefaultMetadata, MetadataAt(data, pos).result.value, k)
  {
    AttrLoopLeavesOthers(data, pos + 8, DefaultMetadata, k);
  }

  /** The smallest header: magic number and version word, no attributes and no
      terminator. */
  lemma MinimalHeader(version: uint32)
    ensures MetadataAt(ToLe(Magic) + ToLe(version), 0) == Parsed(Ok(DefaultMetadata), 8)
  {
    var data := ToLe(Magic) + ToLe(version);
    U32AtEncoding(data, 0, Magic);
    assert data[4..8] == ToLe(version);
    U32AtEncoding(data, 4, version);
  }

  /** With the terminating empty name the parse stops just past it. */
  lemma MinimalHeaderTerminated(version: uint32)
    ensures MetadataAt(ToLe(Magic) + ToLe(version) + [0], 0) == Parsed(Ok(DefaultMetadata), 9)
  {
    var data := ToLe(Magic) + ToLe(version) + [0];
    assert data[0..4] == ToLe(Magic);
    U32AtEncoding(data, 0, Magic);
    assert data[4..8] == ToLe(version);
    U32AtEncoding(data, 4, version);
    NulStringAtTerminated(data, 8, []);
  }

  // ---------------------------------------------------------------------------
  // A header carrying one attribute

  /** An attribute record as stored in a header: its 0-terminated name and type
      name, the payload size as a little-endian u32, then the payload. */
  function EncodeAttribute(name: seq<uint8>, attrType: seq<uint8>, payload: seq<uint8>): (b: seq<uint8>)
    requires |payload| < 0x1_0000_0000
    ensures |b| == |name| + |attrType| + 6 + |payload|
  {
    name + [0] + attrType + [0] + ToLe(|payload|) + payload
  }

  /** A header: the magic number, the version word, the attribute records and the
      empty name that ends them. */
  function EncodeHeader(version: uint32, attributes: seq<uint8>): (b: seq<uint8>)
    ensures |b| == |attributes| + 9
  {
    ToLe(Magic) + ToLe(version) + attributes + [0]
  }

  /** One turn of the attribute loop over a record with a non-empty name. */
  lemma {:induction false} AttrLoopTurn(data: seq<uint8>, pos: nat, md: Metadata, name: seq<uint8>, q: nat,
                     attrType: seq<uint8>, r: nat, size: uint32, s: nat, next: Metadata, e: nat)
    requires pos < |data| && name != []
    requires NulStringAt(data, pos) == Parsed(Ok(name), q)
    requires q <= |data| && NulStringAt(data, q) == Parsed(Ok(attrType), r)
    requires r <= |data| && U32At(data, r) == Parsed(Ok(size), s)
    requires s <= |data| && AttributeAt(data, s, name, size, md) == Parsed(Ok(next), e)
    ensures AttrLoop(data, pos, md) == AttrLoop(data, e, next)
  {
  }

  /** The attribute loop stops just past an empty name. */
  lemma {:induction false} AttrLoopAtTerminator(data: seq<uint8>, pos: nat, md: Metadata)
    requires pos < |data| && data[pos] == 0
    ensures AttrLoop(data, pos, md) == Parsed(Ok(md), pos + 1)
  {
    NulStringAtTerminated(data, pos, []);
  }

  /** A record whose attribute fails ends the attribute loop, and so the header,
      with that attribute's failure. */
  lemma {:induction false} AttrLoopFailsWithAttribute(data: seq<uint8>, pos: nat, md: Metadata, name: seq<uint8>, q: nat,
                                                      attrType: seq<uint8>, r: nat, size: uint32, s: nat)
    requires pos < |data| && name != []
    requires NulStringAt(data, pos) == Parsed(Ok(name), q)
    requires q <= |data| && NulStringAt(data, q) == Parsed(Ok(attrType), r)
    requires r <= |data| && U32At(data, r) == Parsed(Ok(size), s)
    requires s <= |data| && AttributeAt(data, s, name, size, md).result.Err?
    ensures AttrLoop(data, pos, md) == AttributeAt(data, s, name, size, md)
  {
  }

  /** Where the parts of a header with one attribute record sit: the magic number,
      the version word, the record's name and type name with their terminators. */
  lemma {:induction false} OneAttributeLayoutFront(version: uint32, name: seq<uint8>, attrType: seq<uint8>,
                                                   payload: seq<uint8>)
    requires |payload| < 0x1_0000_0000
    ensures var data := EncodeHeader(version, EncodeAttribute(name, attrType, payload));
            var n := |name|;
            var t := |attrType|;
            && data[0..4] == ToLe(Magic) && data[4..8] == ToLe(version)
            && data[8..8 + n] == name && data[8 + n] == 0
            && data[9 + n..9 + n + t] == attrType && data[9 + n + t] == 0
  {
    var data := EncodeHeader(version, EncodeAttribute(name, attrType, payload));
    var p1 := ToLe(Magic) + ToLe(version);
    var p2 := p1 + name;
    var p3 := p2 + [0];
    var p4 := p3 + attrType;
    var p5 := p4 + [0];
    var rest := ToLe(|payload|) + payload + [0];
    assert data == p5 + rest;
    BytesAtIsSlice(data, 0, data);
    assert data[0..|data|] == data;
    BytesAtSplit(data, 0, p5, rest);
    BytesAtSplit(data, 0, p4, [0]);
    BytesAtSplit(data, 0, p3, attrType);
    BytesAtSplit(data, 0, p2, [0]);
    BytesAtSplit(data, 0, p1, name);
    BytesAtSplit(data, 0, ToLe(Magic), ToLe(version));
    BytesAtIsSlice(data, 0, ToLe(Magic));
    BytesAtIsSlice(data, 4, ToLe(version));
    BytesAtIsSlice(data, |p1|, name);
    BytesAtIsSlice(data, |p2|, [0]);
    BytesAtIsSlice(data, |p3|, attrType);
    BytesAtIsSlice(data, |p4|, [0]);
  }

  /** The rest of a header with one attribute record: the payload size, the payload
      and the empty name that ends the header. */
  lemma {:induction false} OneAttributeLayoutBack(version: uint32, name: seq<uint8>, attrType: seq<uint8>,
                                                  payload: seq<uint8>)
    requires |payload| < 0x1_0000_0000
    ensures var data := EncodeHeader(version, EncodeAttribute(name, attrType, payload));
            var s := |name| + |attrType| + 14;
            && data[s - 4..s] == ToLe(|payload|)
            && data[s..s + |payload|] == payload && data[s + |payload|] == 0
  {
    var data := EncodeHeader(version, EncodeAttribute(name, attrType, payload));
    var front := ToLe(Magic) + ToLe(version) + name + [0] + attrType + [0];
    var p6 := front + ToLe(|payload|);
    var p7 := p6 + payload;
    assert data == p7 + [0];
    BytesAtIsSlice(data, 0, data);
    assert data[0..|data|] == data;
    BytesAtSplit(data, 0, p7, [0]);
    BytesAtSplit(data, 0, p6, payload);
    BytesAtSplit(data, 0, front, ToLe(|payload|));
    BytesAtIsSlice(data, |front|, ToLe(|payload|));
    BytesAtIsSlice(data, |p6|, payload);
    BytesAtIsSlice(data, |p7|, [0]);
  }

  /** Where all the parts of a header with one attribute record sit. */
  lemma {:induction false} OneAttributeLayout(version: uint32, name: seq<uint8>, attrType: seq<uint8>, payload: seq<uint8>)
    requires |payload| < 0x1_0000_0000
    ensures var data := EncodeHeader(version, EncodeAttribute(name, attrType, payload));
            var n := |name|;
            var t := |attrType|;
            var s := n + t + 14;
            && data[0..4] == ToLe(Magic) && data[4..8] == ToLe(version)
            && data[8..8 + n] == name && data[8 + n] == 0
            && data[9 + n..9 + n + t] == attrType && data[9 + n + t] == 0
            && data[10 + n + t..s] == ToLe(|payload|)
            && data[s..s + |payload|] == payload && data[s + |payload|] == 0
  {
    OneAttributeLayoutFront(version, name, attrType, payload);
    OneAttributeLayoutBack(version, name, attrType, payload);
  }

  /** After a good magic number and a version word the attribute loop starts from
      the defaults at offset 8. */
  lemma {:induction false} MetadataAfterMagic(data: seq<uint8>)
    requires 8 <= |data| && data[0..4] == ToLe(Magic)
    ensures MetadataAt(data, 0) == AttrLoop(data, 8, DefaultMetadata)
  {
    U32AtEncoding(data, 0, Magic);
  }

  /** The name, type name and size of one attribute record read at `pos`; the
      type name starts at `q`, the size at `r` and the payload at `s`. */
  lemma {:induction false} RecordHeadRead(data: seq<uint8>, pos: nat, name: seq<uint8>, attrType: seq<uint8>, size: uint32,
                       q: nat, r: nat, s: nat)
    requires name != [] && 0 !in name && 0 !in attrType
    requires q == pos + |name| + 1 && r == q + |attrType| + 1 && s == r + 4 && s <= |data|
    requires data[pos..q - 1] == name && data[q - 1] == 0
    requires data[q..r - 1] == attrType && data[r - 1] == 0
    requires data[r..s] == ToLe(size)
    ensures NulStringAt(data, pos) == Parsed(Ok(name), q)
    ensures NulStringAt(data, q) == Parsed(Ok(attrType), r)
    ensures U32At(data, r) == Parsed(Ok(size), s)
  {
    NulStringAtTerminated(data, pos, name);
    NulStringAtTerminated(data, q, attrType);
    U32AtEncoding(data, r, size);
  }

  /** A good magic number, a version word, one attribute record applied to the
      defaults as `md` and ending at `e`, then an empty name: the header parses to
      `md`. */
  lemma {:induction false} HeaderWithOneRecord(data: seq<uint8>, name: seq<uint8>, attrType: seq<uint8>, size: uint32,
                            q: nat, r: nat, s: nat, md: Metadata, e: nat)
    requires 8 <= |data| && data[0..4] == ToLe(Magic)
    requires NulStringAt(data, 8) == Parsed(Ok(name), q) && name != []
    requires q <= |data| && NulStringAt(data, q) == Parsed(Ok(attrType), r)
    requires r <= |data| && U32At(data, r) == Parsed(Ok(size), s)
    requires s <= |data| && AttributeAt(data, s, name, size, DefaultMetadata) == Parsed(Ok(md), e)
    requires e < |data| && data[e] == 0
    ensures MetadataAt(data, 0) == Parsed(Ok(md), e + 1)
  {
    MetadataAfterMagic(data);
    AttrLoopTurn(data, 8, DefaultMetadata, name, q, attrType, r, size, s, md, e);
    AttrLoopAtTerminator(data, e, md);
  }

  /** A good magic number and a version word followed by a record whose attribute
      fails: the header fails with that attribute's failure. */
  lemma {:induction false} HeaderFailsInFirstRecord(data: seq<uint8>, name: seq<uint8>, attrType: seq<uint8>,
                                                    size: uint32, q: nat, r: nat, s: nat)
    requires 8 <= |data| && data[0..4] == ToLe(Magic)
    requires NulStringAt(data, 8) == Parsed(Ok(name), q) && name != []
    requires q <= |data| && NulStringAt(data, q) == Parsed(Ok(attrType), r)
    requires r <= |data| && U32At(data, r) == Parsed(Ok(size), s)
    requires s <= |data| && AttributeAt(data, s, name, size, DefaultMetadata).result.Err?
    ensures MetadataAt(data, 0) == AttributeAt(data, s, name, size, DefaultMetadata)
  {
    MetadataAfterMagic(data);
    AttrLoopFailsWithAttribute(data, 8, DefaultMetadata, name, q, attrType, r, size, s);
  }

  /** A header whose one attribute record is applied to the defaults as `md`,
      consuming exactly its payload, parses to `md` and ends after the header. */
  lemma {:induction false} OneAttributeHeader(data: seq<uint8>, version: uint32, name: seq<uint8>, attrType: seq<uint8>,
                           payload: seq<uint8>, md: Metadata)
    requires name != [] && 0 !in name && 0 !in attrType && |payload| < 0x1_0000_0000
    requires data == EncodeHeader(version, EncodeAttribute(name, attrType, payload))
    requires AttributeAt(data, |name| + |attrType| + 14, name, |payload|, DefaultMetadata)
               == Parsed(Ok(md), |name| + |attrType| + 14 + |payload|)
    ensures MetadataAt(data, 0) == Parsed(Ok(md), |data|)
  {
    var q := 9 + |name|;
    var r := q + |attrType| + 1;
    var s := r + 4;
    var e := s + |payload|;
    OneAttributeLayout(version, name, attrType, payload);
    RecordHeadRead(data, 8, name, attrType, |payload|, q, r, s);
    HeaderWithOneRecord(data, name, attrType, |payload|, q, r, s, md, e);
  }

  // ---------------------------------------------------------------------------
  // What each attribute sets

  /** The bytes of an ASCII name without a 0 byte contain no 0 byte. */
  lemma AsciiNameHasNoNul(s: string)
    requires forall i :: 0 <= i < |s| ==> 0 < s[i] as int < 0x80
    ensures 0 !in Ascii(s)
  {
  }

  /** A box2i payload: x_min, y_min, x_max, y_max as little-endian i32. */
  function EncodeBox(w: (int32, int32, int32, int32)): (b: seq<uint8>)
    ensures |b| == 16
  {
    ToLe(AsUint32(w.0)) + ToLe(AsUint32(w.1)) + ToLe(AsUint32(w.2)) + ToLe(AsUint32(w.3))
  }

  /** The four words of an encoded box sit 4 bytes apart. */
  lemma {:induction false} BoxWords(data: seq<uint8>, pos: nat, w: (int32, int32, int32, int32))
    requires pos + 16 <= |data| && data[pos..pos + 16] == EncodeBox(w)
    ensures data[pos..pos + 4] == ToLe(AsUint32(w.0))
    ensures data[pos + 4..pos + 8] == ToLe(AsUint32(w.1))
    ensures data[pos + 8..pos + 12] == ToLe(AsUint32(w.2))
    ensures data[pos + 12..pos + 16] == ToLe(AsUint32(w.3))
  {
    var x0, x1, x2, x3 := ToLe(AsUint32(w.0)), ToLe(AsUint32(w.1)), ToLe(AsUint32(w.2)), ToLe(AsUint32(w.3));
    BytesAtIsSlice(data, pos, x0 + x1 + x2 + x3);
    BytesAtSplit(data, pos, x0 + x1 + x2, x3);
    BytesAtSplit(data, pos, x0 + x1, x2);
    BytesAtSplit(data, pos, x0, x1);
    BytesAtIsSlice(data, pos, x0);
    BytesAtIsSlice(data, pos + 4, x1);
    BytesAtIsSlice(data, pos + 8, x2);
    BytesAtIsSlice(data, pos + 12, x3);
  }

  /** The box read for a displayWindow gives back an encoded box. */
  lemma {:induction false} Box2iOfEncoding(data: seq<uint8>, pos: nat, w: (int32, int32, int32, int32))
    requires pos + 16 <= |data| && data[pos..pos + 16] == EncodeBox(w)
    ensures Box2iAt(data, pos) == Parsed(Ok(w), pos + 16)
  {
    BoxWords(data, pos, w);
    I32AtEncoding(data, pos, w.0);
    I32AtEncoding(data, pos + 4, w.1);
    I32AtEncoding(data, pos + 8, w.2);
    I32AtEncoding(data, pos + 12, w.3);
  }

  /** A 16-byte displayWindow payload sets the display window to the box it encodes. */
  lemma {:induction false} DisplayWindowPayload(data: seq<uint8>, pos: nat, w: (int32, int32, int32, int32), md: Metadata)
    requires pos + 16 <= |data| && data[pos..pos + 16] == EncodeBox(w)
    ensures AttributeAt(data, pos, Ascii("displayWindow"), 16, md) == Parsed(Ok(md.(displayWindow := w)), pos + 16)
  {
    Box2iOfEncoding(data, pos, w);
    assert KindOf(Ascii("displayWindow")) == DisplayWindowAttr;
  }

  /** A 4-byte pixelAspectRatio payload sets the pixel aspect to the f32 with those bits. */
  lemma {:induction false} PixelAspectPayload(data: seq<uint8>, pos: nat, bits: uint32, md: Metadata)
    requires pos + 4 <= |data| && data[pos..pos + 4] == ToLe(bits)
    ensures AttributeAt(data, pos, Ascii("pixelAspectRatio"), 4, md)
              == Parsed(Ok(md.(pixelAspect := FromBits(bits))), pos + 4)
  {
    U32AtEncoding(data, pos, bits);
    assert KindOf(Ascii("pixelAspectRatio")) == PixelAspectRatioAttr;
  }

  /** A 1-byte compression payload sets the compression to the name of its code. */
  lemma {:induction false} CompressionPayload(data: seq<uint8>, pos: nat, code: uint8, md: Metadata)
    requires pos < |data| && data[pos] == code
    ensures AttributeAt(data, pos, Ascii("compression"), 1, md)
              == Parsed(Ok(md.(compression := CompressionName(code))), pos + 1)
  {
    assert KindOf(Ascii("compression")) == CompressionAttr;
  }

  /** A 1-byte lineOrder payload sets the line order to the name of its code. */
  lemma {:induction false} LineOrderPayload(data: seq<uint8>, pos: nat, code: uint8, md: Metadata)
    requires pos < |data| && data[pos] == code
    ensures AttributeAt(data, pos, Ascii("lineOrder"), 1, md)
              == Parsed(Ok(md.(lineOrder := LineOrderName(code))), pos + 1)
  {
    assert KindOf(Ascii("lineOrder")) == LineOrderAttr;
  }

  /** A non-empty name payload becomes the layer name. */
  lemma {:induction false} LayerNamePayload(data: seq<uint8>, pos: nat, value: seq<uint8>, md: Metadata)
    requires 0 < |value| && pos + |value| <= |data| && data[pos..pos + |value|] == value
    ensures AttributeAt(data, pos, Ascii("name"), |value|, md)
              == Parsed(Ok(md.(layerName := Some(value))), pos + |value|)
  {
    assert KindOf(Ascii("name")) == NameAttr;
  }

  /** A printable payload of 1 to 64 bytes under any other name is kept under that name. */
  lemma {:induction false} CustomPayload(data: seq<uint8>, pos: nat, name: seq<uint8>, value: seq<uint8>, md: Metadata)
    requires KindOf(name).OtherAttr? && 0 < |value| <= 64 && Printable(value)
    requires pos + |value| <= |data| && data[pos..pos + |value|] == value
    ensures AttributeAt(data, pos, name, |value|, md)
              == Parsed(Ok(md.(customAttributes := md.customAttributes[name := value])), pos + |value|)
  {
  }

  /** An encoded channel list, with its exact size, sets the channels to that list. */
  lemma {:induction false} ChannelsPayload(data: seq<uint8>, pos: nat, cs: seq<ChannelInfo>, md: Metadata)
    requires NamedChannels(cs) && BytesAt(data, pos, EncodeChannels(cs))
    ensures AttributeAt(data, pos, Ascii("channels"), |EncodeChannels(cs)|, md)
              == Parsed(Ok(md.(channels := cs)), pos + |EncodeChannels(cs)|)
  {
    ChannelsRoundTrip(data, pos, cs);
    assert KindOf(Ascii("channels")) == ChannelsAttr;
  }

  /** A header whose only attribute is a displayWindow parses to the defaults with
      that display window. */
  lemma {:induction false} DisplayWindowHeader(version: uint32, attrType: seq<uint8>, w: (int32, int32, int32, int32))
    requires 0 !in attrType
    ensures var data := EncodeHeader(version, EncodeAttribute(Ascii("displayWindow"), attrType, EncodeBox(w)));
            MetadataAt(data, 0) == Parsed(Ok(DefaultMetadata.(displayWindow := w)), |data|)
  {
    var name := Ascii("displayWindow");
    var data := EncodeHeader(version, EncodeAttribute(name, attrType, EncodeBox(w)));
    AsciiNameHasNoNul("displayWindow");
    OneAttributeLayout(version, name, attrType, EncodeBox(w));
    DisplayWindowPayload(data, |name| + |attrType| + 14, w, DefaultMetadata);
    OneAttributeHeader(data, version, name, attrType, EncodeBox(w), DefaultMetadata.(displayWindow := w));
  }

  /** A header whose only attribute is a pixelAspectRatio parses to the defaults with
      that pixel aspect. */
  lemma {:induction false} PixelAspectHeader(version: uint32, attrType: seq<uint8>, bits: uint32)
    requires 0 !in attrType
    ensures var data := EncodeHeader(version, EncodeAttribute(Ascii("pixelAspectRatio"), attrType, ToLe(bits)));
            MetadataAt(data, 0) == Parsed(Ok(DefaultMetadata.(pixelAspect := FromBits(bits))), |data|)
  {
    var name := Ascii("pixelAspectRatio");
    var data := EncodeHeader(version, EncodeAttribute(name, attrType, ToLe(bits)));
    AsciiNameHasNoNul("pixelAspectRatio");
    OneAttributeLayout(version, name, attrType, ToLe(bits));
    PixelAspectPayload(data, |name| + |attrType| + 14, bits, DefaultMetadata);
    OneAttributeHeader(data, version, name, attrType, ToLe(bits), DefaultMetadata.(pixelAspect := FromBits(bits)));
  }

  /** A header whose only attribute is a compression parses to the defaults with
      that compression's name. */
  lemma {:induction false} CompressionHeader(version: uint32, attrType: seq<uint8>, code: uint8)
    requires 0 !in attrType
    ensures var data := EncodeHeader(version, EncodeAttribute(Ascii("compression"), attrType, [code]));
            MetadataAt(data, 0) == Parsed(Ok(DefaultMetadata.(compression := CompressionName(code))), |data|)
  {
    var name := Ascii("compression");
    var data := EncodeHeader(version, EncodeAttribute(name, attrType, [code]));
    AsciiNameHasNoNul("compression");
    OneAttributeLayout(version, name, attrType, [code]);
    CompressionPayload(data, |name| + |attrType| + 14, code, DefaultMetadata);
    OneAttributeHeader(data, version, name, attrType, [code], DefaultMetadata.(compression := CompressionName(code)));
  }

  /** A header whose only attribute is a lineOrder parses to the defaults with that
      line order's name. */
  lemma {:induction false} LineOrderHeader(version: uint32, attrType: seq<uint8>, code: uint8)
    requires 0 !in attrType
    ensures var data := EncodeHeader(version, EncodeAttribute(Ascii("lineOrder"), attrType, [code]));
            MetadataAt(data, 0) == Parsed(Ok(DefaultMetadata.(lineOrder := LineOrderName(code))), |data|)
  {
    var name := Ascii("lineOrder");
    var data := EncodeHeader(version, EncodeAttribute(name, attrType, [code]));
    AsciiNameHasNoNul("lineOrder");
    OneAttributeLayout(version, name, attrType, [code]);
    LineOrderPayload(data, |name| + |attrType| + 14, code, DefaultMetadata);
    OneAttributeHeader(data, version, name, attrType, [code], DefaultMetadata.(lineOrder := LineOrderName(code)));
  }

  /** A header whose only attribute is a non-empty name parses to the defaults with
      that layer name. */
  lemma {:induction false} LayerNameHeader(version: uint32, attrType: seq<uint8>, value: seq<uint8>)
    requires 0 !in attrType && 0 < |value| < 0x1_0000_0000
    ensures var data := EncodeHeader(version, EncodeAttribute(Ascii("name"), attrType, value));
            MetadataAt(data, 0) == Parsed(Ok(DefaultMetadata.(layerName := Some(value))), |data|)
  {
    var name := Ascii("name");
    var data := EncodeHeader(version, EncodeAttribute(name, attrType, value));
    AsciiNameHasNoNul("name");
    OneAttributeLayout(version, name, attrType, value);
    LayerNamePayload(data, |name| + |attrType| + 14, value, DefaultMetadata);
    OneAttributeHeader(data, version, name, attrType, value, DefaultMetadata.(layerName := Some(value)));
  }

  /** A header whose only attribute is a printable custom attribute of 1 to 64 bytes
      parses to the defaults with that one custom attribute. */
  lemma {:induction false} CustomAttributeHeader(version: uint32, name: seq<uint8>, attrType: seq<uint8>, value: seq<uint8>)
    requires name != [] && 0 !in name && KindOf(name).OtherAttr? && 0 !in attrType
    requires 0 < |value| <= 64 && Printable(value)
    ensures var data := EncodeHeader(version, EncodeAttribute(name, attrType, value));
            MetadataAt(data, 0) == Parsed(Ok(DefaultMetadata.(customAttributes := map[name := value])), |data|)
  {
    var data := EncodeHeader(version, EncodeAttribute(name, attrType, value));
    OneAttributeLayout(version, name, attrType, value);
    CustomPayload(data, |name| + |attrType| + 14, name, value, DefaultMetadata);
    OneAttributeHeader(data, version, name, attrType, value, DefaultMetadata.(customAttributes := map[name := value]));
  }

  /** A header whose only attribute is a channel list parses to the defaults with
      exactly those channels. */
  lemma {:induction false} ChannelsHeader(version: uint32, attrType: seq<uint8>, cs: seq<ChannelInfo>)
    requires 0 !in attrType && NamedChannels(cs) && |EncodeChannels(cs)| < 0x1_0000_0000
    ensures var data := EncodeHeader(version, EncodeAttribute(Ascii("channels"), attrType, EncodeChannels(cs)));
            MetadataAt(data, 0) == Parsed(Ok(DefaultMetadata.(channels := cs)), |data|)
  {
    var name := Ascii("channels");
    var payload := EncodeChannels(cs);
    var data := EncodeHeader(version, EncodeAttribute(name, attrType, payload));
    var s := |name| + |attrType| + 14;
    AsciiNameHasNoNul("channels");
    OneAttributeLayout(version, name, attrType, payload);
    BytesAtIsSlice(data, s, payload);
    ChannelsPayload(data, s, cs, DefaultMetadata);
    OneAttributeHeader(data, version, name, attrType, payload, DefaultMetadata.(channels := cs));
  }

  /** A channel list whose first record has pixel type `code` of 3 or more:
      parse_channels fails with UnknownSampleType(code) after that record. */
  lemma {:induction false} BadPixelTypeChannels(data: seq<uint8>, pos: nat, chName: seq<uint8>, code: uint32,
                                                tail: seq<uint8>)
    requires chName != [] && 0 !in chName && code >= 3 && |tail| == 12
    requires BytesAt(data, pos, chName + [0] + ToLe(code) + tail)
    ensures ChannelsAt(data, pos, |chName| + 17)
              == Parsed(Err(UnknownSampleType(code)), pos + |chName| + 17)
  {
    var n := |chName|;
    BytesAtSplit(data, pos, chName + [0] + ToLe(code), tail);
    BytesAtSplit(data, pos, chName + [0], ToLe(code));
    BytesAtSplit(data, pos, chName, [0]);
    BytesAtIsSlice(data, pos, chName);
    BytesAtIsSlice(data, pos + n, [0]);
    BytesAtIsSlice(data, pos + n + 1, ToLe(code));
    BytesAtIsSlice(data, pos + n + 5, tail);
    NulStringAtTerminated(data, pos, chName);
    FromLeToLe(code);
    ChannelLoopFailsOnBadPixelType(data, pos + n + 17, pos, []);
  }

  /** A header whose only attribute is a channel list with a bad pixel type fails
      with UnknownSampleType of that type, just past the bad record. */
  lemma {:induction false} BadPixelTypeHeader(version: uint32, attrType: seq<uint8>, chName: seq<uint8>,
                                              code: uint32, tail: seq<uint8>)
    requires 0 !in attrType && chName != [] && 0 !in chName && code >= 3 && |tail| == 12
    requires |chName| + 17 < 0x1_0000_0000
    ensures var data := EncodeHeader(version, EncodeAttribute(Ascii("channels"), attrType,
                                                              chName + [0] + ToLe(code) + tail));
            MetadataAt(data, 0) == Parsed(Err(UnknownSampleType(code)), |attrType| + |chName| + 39)
  {
    var name := Ascii("channels");
    var payload := chName + [0] + ToLe(code) + tail;
    var data := EncodeHeader(version, EncodeAttribute(name, attrType, payload));
    var q := 9 + |name|;
    var r := q + |attrType| + 1;
    var s := r + 4;
    AsciiNameHasNoNul("channels");
    OneAttributeLayout(version, name, attrType, payload);
    RecordHeadRead(data, 8, name, attrType, |payload|, q, r, s);
    BytesAtIsSlice(data, s, payload);
    BadPixelTypeChannels(data, s, chName, code, tail);
    assert KindOf(name) == ChannelsAttr;
    AttributeAtFails(data, s, name, |payload|, DefaultMetadata);
    HeaderFailsInFirstRecord(data, name, attrType, |payload|, q, r, s);
  }

  /** A 1920x1080 image: magic, version 0, a box2i displayWindow (0, 0, 1919, 1079)
      and the terminator give that window, with compression and line order left at
      "Unknown" and "Increasing". */
  lemma FullHdDisplayWindow()
    ensures var md := MetadataAt(EncodeHeader(0, EncodeAttribute(Ascii("displayWindow"), Ascii("box2i"),
                                                                EncodeBox((0, 0, 1919, 1079)))), 0);
            && md.result.Ok?
            && md.result.value.displayWindow == (0, 0, 1919, 1079)
            && md.result.value.compression == "Unknown"
            && md.result.value.lineOrder == "Increasing"
  {
    AsciiNameHasNoNul("box2i");
    DisplayWindowHeader(0, Ascii("box2i"), (0, 0, 1919, 1079));
  }

  // ---------------------------------------------------------------------------
  // Compression and line-order names

  lemma UnknownNameShape(code: uint8)
    ensures |UnknownName(code)| >= 10 && UnknownName(code)[0] == 'U'
  {
  }

  lemma UnknownNameInjective(a: uint8, b: uint8)
    requires UnknownName(a) == UnknownName(b)
    ensures a == b
  {
    var sa := UnknownName(a);
    var sb := UnknownName(b);
    assert Decimal(a) == sa[8..|sa| - 1];
    assert Decimal(b) == sb[8..|sb| - 1];
    DecimalInjective(a, b);
  }

  /** Different compression codes get different names, and none of them is the
      "Unknown" an empty payload gives. */
  lemma CompressionNameInjective(a: uint8, b: uint8)
    requires CompressionName(a) == CompressionName(b)
    ensures a == b
    ensures CompressionName(a) != "Unknown"
  {
    UnknownNameShape(a);
    UnknownNameShape(b);
    if a >= |CompressionNames| && b >= |CompressionNames| {
      UnknownNameInjective(a, b);
    }
  }

  /** Different line-order codes get different names. */
  lemma LineOrderNameInjective(a: uint8, b: uint8)
    requires LineOrderName(a) == LineOrderName(b)
    ensures a == b
  {
    UnknownNameShape(a);
    UnknownNameShape(b);
    if a >= |LineOrderNames| && b >= |LineOrderNames| {
      UnknownNameInjective(a, b);
    }
  }

  /** The compression attribute reads "Unknown" exactly when its payload is empty. */
  lemma CompressionUnknownIffEmpty(data: seq<uint8>, pos: nat, size: nat)
    requires pos <= |data| && CompressionAt(data, pos, size).result.Ok?
    ensures CompressionAt(data, pos, size).result.value == "Unknown" <==> size == 0
  {
    if size > 0 {
      CompressionNameInjective(data[pos], data[pos]);
    }
  }
}
