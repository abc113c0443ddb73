# EXR header reader and channel-name classifier

This project models the two hot paths of an EXR thumbnailer.

**`src/fast_exr.rs`: the header parser.** `FastEXRParser` holds the file's bytes and a read position. Its readers move that position across the header:

- little-endian `u8`/`u32`/`i32`/`f32`;
- NUL-terminated and fixed-length strings;
- the `compression` and `lineOrder` enumerations;
- the `chlist` channel list;
- the attribute loop of `parse_metadata`.

`parse_metadata` checks the magic number 20000630 and skips the version word. It then dispatches on each attribute name, filling a `FastEXRMetadata` record, until it reaches the empty name that ends the header.

**`src/simd_patterns.rs`: the channel-name matcher and classifier.**

- The glob-like matcher `matches_pattern_simd` handles `*`, `prefix*`, `*suffix` and exact patterns.
- Its prefix test has a 16-byte-chunk variant (`matches_prefix_sse2`).
- `determine_channel_group_ultra_fast` maps the layer prefix of a channel name (`Beauty`, `LightMix`, `ID0`, …) to one of the groups `base`, `scene`, `technical`, `light`, `cryptomatte` or `scene_objects`.

Structure:

- **`ExrBytes`** (`exr_bytes.dfy`) holds the fixed-width integer types, the little-endian encoding and its inverse, and the two's-complement view of a 32-bit word. It also holds the decimal rendering used in `Unknown(n)` names.
- **`FastExr`** (`fast_exr.dfy`) has two layers:
  - Each reader is given as a pure function `XAt(data, pos)`. The function returns the result together with the position the parser ends at, *including on failure* (the Rust parser advances `position` before some of its checks fail).
  - The class `FastExrParser` has a `data` constant and a mutable `position`. Each method is proved to return what its function returns and to leave `position` where that function says. `parse_channels` and the attribute loop of `parse_metadata` are `while` loops proved against `ChannelsAt` and `MetadataAt`.
- **`FastExrProperties`** (`fast_exr_properties.dfy`) holds the lemmas about the header functions:
  - the encoders of a channel list, and the round trip from them back through the parser;
  - the early terminator and the overrun of the declared `channels` size;
  - how far each attribute kind moves the position;
  - that fields not named in the header keep their defaults;
  - that a failing attribute, such as a channel list with a bad pixel type, makes the whole header fail with its error;
  - what a header carrying one attribute of each kind parses to, down to the 1920x1080 display window `(0, 0, 1919, 1079)`;
  - the injectivity of the enumeration names.
- **`SimdPatterns`** (`simd_patterns.dfy`) holds the matcher, the chunked prefix test (proved equal to `starts_with`), the prefix table, and the classifier with a reference definition and the examples from the source's tests.

Where the code and the OpenEXR file layout (an attribute payload of exactly `size` bytes) disagree, the model follows the code:

- A `displayWindow` attribute longer than 16 bytes has only 16 bytes consumed, and the rest is read as the next attribute name (`LongDisplayWindowReadsSixteen`). The same holds for a `pixelAspectRatio` longer than 4 bytes.
- `parse_channels` stops at the first empty name without moving to the end of the declared span (`ChannelsStopAtEmptyName`).
- `parse_channels` tests the span only before each name, so it can read past the declared size (`ChannelsOverrunDeclaredSize`).

## Model

| member | source | states |
|---|---|---|
| FastExr.SampleTypeFromU32 | src/fast_exr.rs:37-44 | succeeds exactly for codes 0, 1 and 2, returning the sample type whose code is the input; any other code fails with that code in the error |
| FastExr.U8At | src/fast_exr.rs:235-242 | fails at the end of the data without moving; otherwise returns the byte at the position and advances by one |
| FastExr.U32At | src/fast_exr.rs:244-256 | fails without moving when fewer than 4 bytes remain; otherwise returns the little-endian value of the next 4 bytes and advances by 4 |
| FastExr.I32At | src/fast_exr.rs:258-260 | same bounds as `read_u32`; the value is the int32 congruent to that word modulo 2^32 |
| FastExr.F32At | src/fast_exr.rs:262-264 | same bounds as `read_u32`; the float's bit pattern is that word |
| FastExr.NulStringAt | src/fast_exr.rs:266-280 | never fails; returns the longest NUL-free run starting at the position, consuming its terminator when there is one and stopping at the end of the data otherwise |
| FastExr.FixedStringAt | src/fast_exr.rs:282-289 | fails without moving when fewer than `size` bytes remain; otherwise returns exactly those `size` bytes and advances past them |
| FastExr.SkipAt | src/fast_exr.rs:291-297 | fails without moving when fewer than `count` bytes remain; otherwise advances by exactly `count` |
| FastExr.CompressionAt | src/fast_exr.rs:197-217 | succeeds iff the size is 0 or the span fits; then advances by the size and names the first byte's compression, or "Unknown" for an empty span; otherwise fails with end-of-data |
| FastExr.LineOrderAt | src/fast_exr.rs:219-232 | same shape as the compression reader, with "Increasing" for an empty span and the line-order names otherwise |
| FastExr.ChannelRecordAt | src/fast_exr.rs:180-191 | on success the record spans exactly 16 bytes and carries the channel name it was given |
| FastExr.ChannelRecordAtDecodes | src/fast_exr.rs:180-191 | a record read succeeds exactly when 16 bytes remain and the pixel-type code is below 3; a short record fails with end-of-data; a bad code fails with that code after the 16 bytes; on success the sample type has the code read, the linear flag is set for any non-zero byte, the three reserved bytes are ignored, and the sampling is the two little-endian i32 that follow |
| FastExr.ChannelLoop | src/fast_exr.rs:174-192 | the loop only appends to what it has collected, and every channel it appends has a non-empty, NUL-free name |
| FastExr.ChannelsAt | src/fast_exr.rs:170-195 | the position never moves backward or past the data, and every channel returned has a non-empty, NUL-free name |
| FastExr.Box2iAt | src/fast_exr.rs:114-125 | succeeds iff 16 bytes remain; then yields the four little-endian i32 values of the window in order and advances by 16 |
| FastExr.OtherAttributeAt | src/fast_exr.rs:146-163 | consumes exactly the attribute's size (or fails without it fitting); stores the value under its name only when the size is 1..64 and every byte is ASCII graphic or whitespace |
| FastExr.AttributeAt | src/fast_exr.rs:110-164 | on success only the field the attribute name selects may change, and that field becomes what its reader returns: the channel list read over `size` bytes; the box when the size is at least 16; the f32 read when the size is at least 4 (below those sizes, the old value); the compression or line-order name; the `size` bytes as layer name when the size is non-zero; for any other name, the value stored under it exactly when it has 1 to 64 printable bytes. Well-formed custom attributes stay well-formed |
| FastExr.AttributeAtFails | src/fast_exr.rs:111-113 | a channels attribute fails exactly when its channel list fails, and with the same error and position, so a bad pixel type gives UnknownSampleType; every other attribute can fail only with end-of-data |
| FastExr.KindOf | src/fast_exr.rs:110-146 | any name other than the six the parser matches is kept as the key of its own custom kind |
| FastExr.KindOfNames | src/fast_exr.rs:110-146 | each of `channels`, `displayWindow`, `pixelAspectRatio`, `compression`, `lineOrder` and `name` selects its own branch, and no other name selects it |
| FastExr.Printable | src/fast_exr.rs:153 | a custom value passes exactly when each byte is a visible ASCII character, a space, or one of tab, line feed, form feed and carriage return (`is_ascii_graphic` or `is_ascii_whitespace`) |
| FastExr.DefaultMetadataFields | src/fast_exr.rs:90-98 | the starting record is well-formed, with no channels, custom attributes or layer name, a zero window and pixel aspect 1.0f32; its compression "Unknown" is never a name read_compression gives, and its line order is the one code 0 names |
| FastExr.AttrLoop | src/fast_exr.rs:101-166 | a successful loop ends at the end of the data or just past a 0 byte, which read as a name is the empty name; the metadata stays well-formed |
| FastExr.MetadataAt | src/fast_exr.rs:76-168 | success requires the magic number and the version word; a wrong magic number fails right after the magic word; the metadata returned is well-formed |
| FastExr.FastExrParser.constructor | src/fast_exr.rs:48-51 | a parser over the given bytes starts at position 0 |
| FastExr.FastExrParser.ReadU8 | src/fast_exr.rs:235-242 | returns and moves exactly as `U8At` specifies |
| FastExr.FastExrParser.ReadU32 | src/fast_exr.rs:244-256 | returns and moves exactly as `U32At` specifies |
| FastExr.FastExrParser.ReadI32 | src/fast_exr.rs:258-260 | returns and moves exactly as `I32At` specifies |
| FastExr.FastExrParser.ReadF32 | src/fast_exr.rs:262-264 | returns and moves exactly as `F32At` specifies |
| FastExr.FastExrParser.ReadNullTerminatedString | src/fast_exr.rs:266-280 | the byte-at-a-time loop returns and moves exactly as `NulStringAt` specifies |
| FastExr.FastExrParser.ReadFixedString | src/fast_exr.rs:282-289 | returns and moves exactly as `FixedStringAt` specifies |
| FastExr.FastExrParser.Skip | src/fast_exr.rs:291-297 | returns and moves exactly as `SkipAt` specifies |
| FastExr.FastExrParser.ReadCompression | src/fast_exr.rs:197-217 | returns and moves exactly as `CompressionAt` specifies |
| FastExr.FastExrParser.ReadLineOrder | src/fast_exr.rs:219-232 | returns and moves exactly as `LineOrderAt` specifies |
| FastExr.FastExrParser.ReadChannelRecord | src/fast_exr.rs:180-191 | returns and moves exactly as `ChannelRecordAt` specifies |
| FastExr.FastExrParser.ParseChannels | src/fast_exr.rs:170-195 | the `while` loop over the span returns and moves exactly as `ChannelsAt` specifies |
| FastExr.FastExrParser.ApplyAttribute | src/fast_exr.rs:110-164 | the dispatch on the attribute name returns and moves exactly as `AttributeAt` specifies |
| FastExr.FastExrParser.ParseMetadata | src/fast_exr.rs:76-168 | the whole header parse returns and moves exactly as `MetadataAt` specifies |
| FastExrProperties.U32AtEncoding | src/fast_exr.rs:244-256 | reading a word written with `to_le_bytes` gives back that word and advances by 4 |
| FastExrProperties.I32AtEncoding | src/fast_exr.rs:258-260 | reading the little-endian encoding of an i32 gives back that i32 |
| FastExrProperties.NulStringAtTerminated | src/fast_exr.rs:266-280 | a NUL-free string followed by NUL reads back as itself, consuming the terminator |
| FastExrProperties.SampleTypeRoundTrip | src/fast_exr.rs:37-44 | decoding a sample type's code gives back that sample type |
| FastExrProperties.ChannelRecordOfEncoding | src/fast_exr.rs:180-191 | the 16-byte record written for a channel (type, pLinear, three reserved bytes, sampling) reads back as that channel |
| FastExrProperties.EncodedChannelReads | src/fast_exr.rs:175-191 | an encoded channel (name, NUL, record) reads back as its name and then its record, ending just past its encoding |
| FastExrProperties.ChannelLoopReads | src/fast_exr.rs:174-192 | a byte span holding a sequence of readable channels and a final end position makes the loop return exactly those channels, in on-disk order, after what it had already collected |
| FastExrProperties.ChannelsRoundTrip | src/fast_exr.rs:170-195 | parsing the encoding of any list of named channels with its exact size gives back that list and ends just past the encoding |
| FastExrProperties.ChannelsAtOfTrace | src/fast_exr.rs:170-195 | a span that reads as a sequence of channels reaching exactly the declared end makes `parse_channels` return those channels |
| FastExrProperties.ChannelsStopAtEmptyName | src/fast_exr.rs:174-178 | an empty first name ends the list, consuming only its NUL and not the remaining declared span |
| FastExrProperties.EarlyTerminatorAfterOne | src/fast_exr.rs:174-178 | a channel, its empty name and trailing bytes inside a longer declared span read as that one channel, ending just past the empty name |
| FastExrProperties.ChannelsOverrunDeclaredSize | src/fast_exr.rs:174 | with a declared size of 1 the loop still reads a whole channel, ending beyond the declared span |
| FastExrProperties.ChannelLoopFailsOnBadPixelType | src/fast_exr.rs:180-182 | a pixel-type code of 3 or more fails the whole list with that code, after the 16-byte record |
| FastExrProperties.BadPixelTypeChannels | src/fast_exr.rs:170-195 | a channel list whose first record has pixel type 3 or more fails with UnknownSampleType of that code, just past the record |
| FastExrProperties.AttributeExtent | src/fast_exr.rs:110-164 | apart from `channels`, a successful attribute moves the position by its payload extent (16 for displayWindow, 4 for pixelAspectRatio, the size for all others), and it succeeds whenever that extent fits |
| FastExrProperties.LongDisplayWindowReadsSixteen | src/fast_exr.rs:114-125 | a displayWindow attribute declared longer than 16 bytes consumes only 16 of them |
| FastExrProperties.AttrLoopLeavesOthers | src/fast_exr.rs:101-166 | a metadata field whose attribute never occurs in the header keeps the value it had before the loop |
| FastExrProperties.MetadataKeepsDefaults | src/fast_exr.rs:90-98 | a field whose attribute is absent from the header keeps its default value |
| FastExrProperties.MinimalHeader | src/fast_exr.rs:76-98 | magic plus version with nothing after it parses to the defaults, ending after 8 bytes |
| FastExrProperties.MinimalHeaderTerminated | src/fast_exr.rs:99-105 | magic, version and an empty attribute name parse to the defaults, ending after the terminator |
| FastExrProperties.OneAttributeLayout | src/fast_exr.rs:101-108 | in a header with one attribute record, the magic number, version, name, type name, their terminators, the size word, the payload and the final empty name sit where the parser expects them |
| FastExrProperties.OneAttributeHeader | src/fast_exr.rs:76-168 | a header with one attribute record whose payload is applied to the defaults exactly, consuming its declared size, parses to that metadata and ends at the end of the header |
| FastExrProperties.AttrLoopFailsWithAttribute | src/fast_exr.rs:101-112 | a record whose attribute fails ends the attribute loop with that attribute's failure, error and position alike |
| FastExrProperties.HeaderFailsInFirstRecord | src/fast_exr.rs:76-112 | after a good magic number and version, a first record whose attribute fails makes the whole header fail with that failure |
| FastExrProperties.BadPixelTypeHeader | src/fast_exr.rs:76-195 | a header whose only attribute is a channel list with pixel type 3 or more fails with UnknownSampleType of that code |
| FastExrProperties.Box2iOfEncoding | src/fast_exr.rs:116-121 | reading the box at an encoded box gives back its four corners and advances by 16 |
| FastExrProperties.DisplayWindowPayload | src/fast_exr.rs:114-125 | a 16-byte displayWindow payload sets the display window to the box it encodes and nothing else |
| FastExrProperties.PixelAspectPayload | src/fast_exr.rs:126-132 | a 4-byte pixelAspectRatio payload sets the pixel aspect to the f32 with those bits |
| FastExrProperties.CompressionPayload | src/fast_exr.rs:133-135 | a 1-byte compression payload sets the compression to the name of its code |
| FastExrProperties.LineOrderPayload | src/fast_exr.rs:136-138 | a 1-byte lineOrder payload sets the line order to the name of its code |
| FastExrProperties.LayerNamePayload | src/fast_exr.rs:139-145 | a non-empty name payload becomes the layer name |
| FastExrProperties.CustomPayload | src/fast_exr.rs:146-163 | a printable payload of 1 to 64 bytes under any other name is stored under that name |
| FastExrProperties.ChannelsPayload | src/fast_exr.rs:111-113 | an encoded channel list with its exact size sets the channels to that list |
| FastExrProperties.DisplayWindowHeader | src/fast_exr.rs:76-168 | magic, version, one displayWindow record and the terminator parse to the defaults with that window |
| FastExrProperties.PixelAspectHeader | src/fast_exr.rs:76-168 | the same for a pixelAspectRatio record: the defaults with that pixel aspect |
| FastExrProperties.CompressionHeader | src/fast_exr.rs:76-168 | the same for a compression record: the defaults with that compression's name |
| FastExrProperties.LineOrderHeader | src/fast_exr.rs:76-168 | the same for a lineOrder record: the defaults with that line order's name |
| FastExrProperties.LayerNameHeader | src/fast_exr.rs:76-168 | the same for a non-empty name record: the defaults with that layer name |
| FastExrProperties.CustomAttributeHeader | src/fast_exr.rs:76-168 | the same for a printable custom attribute of 1 to 64 bytes: the defaults with exactly that one custom attribute |
| FastExrProperties.ChannelsHeader | src/fast_exr.rs:76-168 | the same for a channels record: the defaults with exactly the encoded channels |
| FastExrProperties.FullHdDisplayWindow | src/fast_exr.rs:76-168 | magic, version 0, a box2i displayWindow (0, 0, 1919, 1079) and the terminator parse to that window, with compression "Unknown" and line order "Increasing" |
| FastExrProperties.UnknownNameInjective | src/fast_exr.rs:212 | different codes give different `Unknown(n)` names |
| FastExrProperties.CompressionNameInjective | src/fast_exr.rs:201-213 | different compression codes give different names, and none is "Unknown" |
| FastExrProperties.LineOrderNameInjective | src/fast_exr.rs:223-228 | different line-order codes give different names |
| FastExrProperties.CompressionUnknownIffEmpty | src/fast_exr.rs:197-216 | a successful compression read says "Unknown" exactly when the attribute is empty |
| FastExr.UnknownName | src/fast_exr.rs:212 | `Unknown(n)` is at least 10 characters, starts `Unknown(`, ends `)`, and is none of the table names |
| FastExr.CompressionName | src/fast_exr.rs:201-213 | a code gets a table name exactly when it is below 10, and otherwise its `Unknown(n)` name |
| FastExr.LineOrderName | src/fast_exr.rs:223-228 | a code gets a table name exactly when it is below 3, and otherwise its `Unknown(n)` name |
| ExrBytes.FromLeToLe | src/fast_exr.rs:244-256 | decoding the little-endian bytes of a word gives that word |
| ExrBytes.FromLeByteOrder | src/fast_exr.rs:248-253 | `from_le_bytes` takes the first byte as the least significant and the last as the most significant |
| ExrBytes.Decimal | src/fast_exr.rs:212 | the `{}` rendering of a number is a non-empty string of decimal digits |
| ExrBytes.ToLeFromLe | src/fast_exr.rs:244-256 | encoding a decoded 4-byte group gives back those bytes |
| ExrBytes.AsInt32 | src/fast_exr.rs:258-260 | the reinterpreted i32 is congruent to the word modulo 2^32, and is negative exactly when the top bit is set |
| ExrBytes.AsInt32Bijective | src/fast_exr.rs:258-260 | the u32/i32 reinterpretations are inverse to each other |
| ExrBytes.DecimalRoundTrip | src/fast_exr.rs:212 | the decimal rendering of a number denotes that number |
| ExrBytes.DecimalInjective | src/fast_exr.rs:227 | different numbers render differently |
| SimdPatterns.StartsWith | src/simd_patterns.rs:79-82 | true exactly when the prefix fits and agrees with the text at every index |
| SimdPatterns.EndsWith | src/simd_patterns.rs:84-88 | true exactly when the suffix fits and agrees with the end of the text at every index |
| SimdPatterns.MatchesPattern | src/simd_patterns.rs:9-31 | "*" matches everything; a trailing `*` means a prefix test on the rest of the pattern; otherwise a leading `*` means a suffix test; any other pattern must equal the text |
| SimdPatterns.MatchesPatternExamples | src/simd_patterns.rs:165-170 | the matcher cases from the source's tests |
| SimdPatterns.EqualityMask | src/simd_patterns.rs:61-62 | the byte-equality mask of two chunks fits in one bit per lane |
| SimdPatterns.MaskFullIffEqual | src/simd_patterns.rs:61-66 | the mask has every lane set exactly when the two chunks are equal |
| SimdPatterns.MatchesPrefixSse2 | src/simd_patterns.rs:54-77 | the chunk-by-chunk comparison, with a scalar tail, gives exactly `starts_with` |
| SimdPatterns.MatchesPrefixSimd | src/simd_patterns.rs:34-51 | whether SSE2 is available or not, the result is `starts_with`, including `false` for a prefix longer than the text |
| SimdPatterns.MatchesPatternSimd | src/simd_patterns.rs:9-31 | the matcher built on the chunked prefix test agrees with the pattern semantics |
| SimdPatterns.TableKeysCapitalised | src/simd_patterns.rs:95-126 | every layer prefix in the table is non-empty and starts with a capital letter |
| SimdPatterns.TableGroups | src/simd_patterns.rs:95-126 | every prefix in the table maps to one of base, scene, technical, light and cryptomatte, never to the scene_objects fallback; R, G, B and A map to base |
| SimdPatterns.LayerPrefix | src/simd_patterns.rs:135-140 | the layer prefix is the part of the name before its first `.`, or the whole name when there is none |
| SimdPatterns.DetermineChannelGroup | src/simd_patterns.rs:129-158 | the group is one of the six groups the table and the fallbacks use; R, G, B and A are `base`; a prefix in the table gives its table group |
| SimdPatterns.DetermineChannelGroupIsClassifyPrefix | src/simd_patterns.rs:129-158 | the classification agrees with a reference definition on the layer prefix alone |
| SimdPatterns.ClassificationUsesOnlyLayerPrefix | src/simd_patterns.rs:135-158 | two names with the same layer prefix fall in the same group |
| SimdPatterns.LayerPrefixOfDotted | src/simd_patterns.rs:135-140 | the prefix of `layer.rest` is `layer` when `layer` has no dot |
| SimdPatterns.UnmappedPrefix | src/simd_patterns.rs:148-157 | an unmapped prefix gives `light` exactly when it starts with "Light", and `scene_objects` otherwise |
| SimdPatterns.ClassifyDotted | src/simd_patterns.rs:135-158 | a dotted name is classified by its layer alone |
| SimdPatterns.ClassificationExamples | src/simd_patterns.rs:173-180 | the classifier cases from the source's tests |

## Left out

- `from_file` (opening the file, memory-mapping large files, reading a 64 KiB prefix) is I/O. The parser is built directly over the header bytes.
- `read_exr_metadata_ultra_fast` only chains `from_file` and `parse_metadata`, so it is covered by `ParseMetadata`.
- Strings are kept as bytes: attribute names, the `name` attribute, custom values and channel names. The lossy UTF-8 conversion (`String::from_utf8_lossy`) is not modelled. Names are compared byte-wise, which agrees with the Rust comparison for the ASCII names the dispatch tests.
- Custom-attribute keys are the raw name bytes. Two names that are different invalid UTF-8 but decode lossily to the same `String` are one `HashMap` key in the source and two keys in the model.
- `f32` values (pixelAspectRatio, `read_f32`) are kept as their 32-bit pattern. Floating-point interpretation is not modelled.
- The version word's flag bits are computed and then discarded by the source. The model reads the word and keeps nothing from it.
- `FastExr.ChannelsAt`: `usize` overflow of `position + size` is not modelled, because integers are unbounded. The source would wrap or panic only for spans near 2^64.
- The SSE2 intrinsics and `is_x86_feature_detected!` are not modelled. Detection becomes the `sse2Available` parameter. `_mm_cmpeq_epi8` and `_mm_movemask_epi8` become `EqualityMask` over a 16-element chunk.
- `SimdPatterns.MatchesPrefixSse2` is generic over the element type. On a `string` its chunks are 16 characters rather than 16 UTF-8 bytes. This does not change the result, because for valid UTF-8 a byte prefix is a character prefix.
- `CHANNEL_PREFIX_MAP` is a lazily built `HashMap` in the source. Here it is a constant `map`.
- `SimdPatterns.DetermineChannelGroup` works on characters rather than UTF-8 bytes. This has no effect on the result.
- `FastExr.FastExrParser.ReadChannelRecord` is not a separate function in the source. It is the body of the `parse_channels` loop after the name, split out so the loop's proof stays small.
- Errors are an `Error` datatype, not the source's formatted messages. The kind and the code carried (for example the unknown sample type) are kept; the wording is not.
- The thumbnail tool's `main.rs`, other source files and the Python release scripts are not part of this model.
