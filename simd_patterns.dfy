/** Single-wildcard pattern matching and the channel-name classifier that groups the
    channels of a multi-layer EXR file by the layer prefix of their names. */
module SimdPatterns {

  /** `text.starts_with(prefix)`: `prefix` is an initial segment of `text`. */
  function StartsWith<T(==)>(text: seq<T>, prefix: seq<T>): (r: bool)
    ensures r <==> |prefix| <= |text| && forall i :: 0 <= i < |prefix| ==> text[i] == prefix[i]
  {
    |prefix| <= |text| && text[..|prefix|] == prefix
  }

  /** `text.ends_with(suffix)`, which is all matches_suffix_simd does: `suffix` is a
      final segment of `text`. */
  function EndsWith<T(==)>(text: seq<T>, suffix: seq<T>): (r: bool)
    ensures r <==> |suffix| <= |text| &&
                   forall i :: 0 <= i < |suffix| ==> text[|text| - |suffix| + i] == suffix[i]
  {
    |suffix| <= |text| && text[|text| - |suffix|..] == suffix
  }

  /** matches_pattern_simd: `*` matches everything, the empty pattern only the empty
      text, `P*` the texts starting with P (tried before the leading-star rule, so
      `*P*` is a prefix pattern for `*P`), `*S` the texts ending with S, and any other
      pattern only itself. */
  function MatchesPattern(text: string, pattern: string): (r: bool)
    ensures pattern == "*" ==> r
    ensures pattern == "" ==> (r <==> text == "")
    ensures pattern != "*" && |pattern| > 0 && pattern[|pattern| - 1] == '*' ==>
              (r <==> |pattern| - 1 <= |text| &&
                      forall i :: 0 <= i < |pattern| - 1 ==> text[i] == pattern[i])
    ensures |pattern| > 0 && pattern[|pattern| - 1] != '*' && pattern[0] == '*' ==>
              (r <==> |pattern| - 1 <= |text| &&
                      forall i :: 1 <= i < |pattern| ==> text[|text| - |pattern| + i] == pattern[i])
    ensures |pattern| > 0 && pattern[|pattern| - 1] != '*' && pattern[0] != '*' ==>
              (r <==> text == pattern)
  {
    if pattern == "*" then true
    else if pattern == "" then text == ""
    else if pattern[|pattern| - 1] == '*' then StartsWith(text, pattern[..|pattern| - 1])
    else if pattern[0] == '*' then EndsWith(text, pattern[1..])
    else text == pattern
  }

  /** The unit-test expectations for the matcher. */
  lemma MatchesPatternExamples()
    ensures MatchesPattern("LightMix", "Light*")
    ensures MatchesPattern("Background", "Back*")
    ensures MatchesPattern("test", "*")
    ensures !MatchesPattern("test", "other*")
  {
    assert "LightMix"[..5] == "Light";
    assert "Background"[..4] == "Back";
  }

  function Pow2(n: nat): (p: nat)
    ensures p >= 1
  {
    if n == 0 then 1 else 2 * Pow2(n - 1)
  }

  /** `_mm_movemask_epi8(_mm_cmpeq_epi8(a, b))`: bit i of the mask is set exactly
      when the i-th elements of the two chunks are equal. */
  function EqualityMask<T(==)>(a: seq<T>, b: seq<T>): (m: nat)
    requires |a| == |b|
    ensures m < Pow2(|a|)
  {
    if a == [] then 0
    else (if a[0] == b[0] then 1 else 0) + 2 * EqualityMask(a[1..], b[1..])
  }

  /** The mask has every bit set exactly when the chunks are equal; for 16-element
      chunks the full mask is 0xFFFF. */
  lemma {:induction false} MaskFullIffEqual<T>(a: seq<T>, b: seq<T>)
    requires |a| == |b|
    ensures EqualityMask(a, b) == Pow2(|a|) - 1 <==> a == b
  {
    if a != [] {
      MaskFullIffEqual(a[1..], b[1..]);
      assert a == [a[0]] + a[1..] && b == [b[0]] + b[1..];
    }
  }

  lemma {:induction false} Pow2Add(m: nat, n: nat)
    ensures Pow2(m + n) == Pow2(m) * Pow2(n)
    decreases m
  {
    if m > 0 {
      Pow2Add(m - 1, n);
    }
  }

  lemma Pow2Sixteen()
    ensures Pow2(16) == 0x1_0000
  {
    assert Pow2(4) == 16;
    Pow2Add(4, 4);
    Pow2Add(8, 8);
  }

  /** matches_prefix_sse2: compares whole 16-element chunks by their equality mask,
      then the remaining tail. Agrees with the plain prefix test whenever the prefix
      fits in the text, the only way its caller invokes it. */
  method MatchesPrefixSse2<T(==)>(text: seq<T>, prefix: seq<T>) returns (r: bool)
    requires |prefix| <= |text|
    ensures r == StartsWith(text, prefix)
  {
    Pow2Sixteen();
    var chunks := |prefix| / 16;
    for i := 0 to chunks
      invariant text[..i * 16] == prefix[..i * 16]
    {
      var textChunk := text[i * 16..i * 16 + 16];
      var prefixChunk := prefix[i * 16..i * 16 + 16];
      var mask := EqualityMask(textChunk, prefixChunk);
      MaskFullIffEqual(textChunk, prefixChunk);
      if mask != 0xFFFF {
        assert text[i * 16] != prefix[i * 16] || textChunk[1..] != prefixChunk[1..] by {
          assert textChunk != prefixChunk;
        }
        assert text[..|prefix|] != prefix by {
          assert text[..|prefix|][i * 16..i * 16 + 16] == textChunk;
        }
        return false;
      }
      assert text[..i * 16 + 16] == text[..i * 16] + textChunk;
      assert prefix[..i * 16 + 16] == prefix[..i * 16] + prefixChunk;
    }
    var remaining := |prefix| % 16;
    var start := chunks * 16;
    if remaining > 0 {
      assert text[..|prefix|] == text[..start] + text[start..start + remaining];
      assert prefix == prefix[..start] + prefix[start..];
      return text[start..start + remaining] == prefix[start..];
    }
    assert prefix == prefix[..start];
    return true;
  }

  /** matches_prefix_simd: a prefix longer than the text never matches; a prefix of
      at least 16 elements goes through the chunked comparison when SSE2 is present
      (`sse2Available` stands for the run-time feature test), any other through the
      plain test. Either way the answer is the plain prefix test. */
  method MatchesPrefixSimd(text: string, prefix: string, sse2Available: bool) returns (r: bool)
    ensures r == StartsWith(text, prefix)
  {
    if |prefix| > |text| {
      return false;
    }
    if |prefix| >= 16 && sse2Available {
      r := MatchesPrefixSse2(text, prefix);
      return;
    }
    return StartsWith(text, prefix);
  }

  /** matches_pattern_simd with its prefix case running through MatchesPrefixSimd. */
  method MatchesPatternSimd(text: string, pattern: string, sse2Available: bool) returns (r: bool)
    ensures r == MatchesPattern(text, pattern)
  {
    if pattern == "*" {
      return true;
    }
    if pattern == "" {
      return text == "";
    }
    if pattern[|pattern| - 1] == '*' {
      r := MatchesPrefixSimd(text, pattern[..|pattern| - 1], sse2Available);
      return;
    }
    if pattern[0] == '*' {
      return EndsWith(text, pattern[1..]);
    }
    return text == pattern;
  }

  /** CHANNEL_PREFIX_MAP: the layer prefixes with a fixed group. */
  const ChannelPrefixMap: map<string, string> := map[
    "Beauty" := "base", "R" := "base", "G" := "base", "B" := "base", "A" := "base",
    "Background" := "scene", "Translucency" := "scene", "Translucency0" := "scene",
    "VirtualBeauty" := "scene", "ZDepth" := "scene",
    "RenderStamp" := "technical", "RenderStamp0" := "technical",
    "Sky" := "light", "Sun" := "light", "LightMix" := "light",
    "Cryptomatte" := "cryptomatte", "Cryptomatte0" := "cryptomatte"
  ]

  /** Every table key is a non-empty name starting with a capital letter, so names
      starting otherwise (`_walls`, lower-case layers) always fall through the table. */
  lemma TableKeysCapitalised()
    ensures forall k :: k in ChannelPrefixMap ==> |k| > 0 && 'A' <= k[0] <= 'Z'
  {
  }

  /** Every group key the classifier can return. */
  const GroupKeys: set<string> := {"base", "scene", "technical", "light", "cryptomatte", "scene_objects"}

  /** Every prefix in the table is mapped to one of the five fixed groups, never to
      the scene_objects fallback; the single-letter R, G, B and A layers are base. */
  lemma TableGroups()
    ensures forall k :: k in ChannelPrefixMap ==> ChannelPrefixMap[k] in GroupKeys - {"scene_objects"}
    ensures forall k :: k in ["R", "G", "B", "A"] ==> k in ChannelPrefixMap && ChannelPrefixMap[k] == "base"
  {
  }

  /** The layer prefix of a channel name: everything before the first `.`, or the
      whole name when it has none. */
  function LayerPrefix(name: string): (p: string)
    ensures |p| <= |name| && name[..|p|] == p
    ensures forall i :: 0 <= i < |p| ==> p[i] != '.'
    ensures |p| == |name| || name[|p|] == '.'
  {
    if name == "" || name[0] == '.' then ""
    else [name[0]] + LayerPrefix(name[1..])
  }

  /** determine_channel_group_ultra_fast. */
  function DetermineChannelGroup(name: string): (g: string)
    ensures g in GroupKeys
    ensures name in {"R", "G", "B", "A"} ==> g == "base"
    ensures LayerPrefix(name) in ChannelPrefixMap ==> g == ChannelPrefixMap[LayerPrefix(name)]
  {
    if name in {"R", "G", "B", "A"} then "base"
    else
      var prefix := LayerPrefix(name);
      if prefix in ChannelPrefixMap then ChannelPrefixMap[prefix]
      else if MatchesPattern(prefix, "Light*") then "light"
      else if MatchesPattern(prefix, "ID*") || MatchesPattern(prefix, "_*") then "scene_objects"
      else "scene_objects"
  }

  /** A reference classification of a layer prefix: its table entry, else "light"
      for a `Light` prefix, else "scene_objects". */
  function ClassifyPrefix(prefix: string): string
  {
    if prefix in ChannelPrefixMap then ChannelPrefixMap[prefix]
    else if StartsWith(prefix, "Light") then "light"
    else "scene_objects"
  }

  /** The classifier is the reference classification of the layer prefix: the bare
      R/G/B/A fast path agrees with the table, and the `ID*`/`_*` test changes nothing. */
  lemma DetermineChannelGroupIsClassifyPrefix(name: string)
    ensures DetermineChannelGroup(name) == ClassifyPrefix(LayerPrefix(name))
  {
    if name in {"R", "G", "B", "A"} {
      assert LayerPrefix(name) == name by {
        assert LayerPrefix(name[1..]) == "";
      }
    }
  }

  /** Only the part of the name before the first `.` matters. */
  lemma ClassificationUsesOnlyLayerPrefix(a: string, b: string)
    requires LayerPrefix(a) == LayerPrefix(b)
    ensures DetermineChannelGroup(a) == DetermineChannelGroup(b)
  {
    DetermineChannelGroupIsClassifyPrefix(a);
    DetermineChannelGroupIsClassifyPrefix(b);
  }

  /** A name built as `layer.rest` from a dot-free layer has that layer as prefix. */
  lemma {:induction false} LayerPrefixOfDotted(layer: string, rest: string)
    requires forall i :: 0 <= i < |layer| ==> layer[i] != '.'
    ensures LayerPrefix(layer + "." + rest) == layer
  {
    if layer != "" {
      assert (layer + "." + rest)[1..] == layer[1..] + "." + rest;
      LayerPrefixOfDotted(layer[1..], rest);
    }
  }

  /** Off the table, a prefix is "light" exactly when it starts with `Light`, and
      "scene_objects" otherwise. */
  lemma UnmappedPrefix(name: string)
    requires name !in {"R", "G", "B", "A"}
    requires LayerPrefix(name) !in ChannelPrefixMap
    ensures DetermineChannelGroup(name) == "light" <==> StartsWith(LayerPrefix(name), "Light")
    ensures DetermineChannelGroup(name) != "light" ==> DetermineChannelGroup(name) == "scene_objects"
  {
  }

  /** A dotted name that is not a bare R/G/B/A is classified by its layer. */
  lemma ClassifyDotted(layer: string, rest: string)
    requires forall i :: 0 <= i < |layer| ==> layer[i] != '.'
    ensures DetermineChannelGroup(layer + "." + rest) == ClassifyPrefix(layer)
  {
    LayerPrefixOfDotted(layer, rest);
    DetermineChannelGroupIsClassifyPrefix(layer + "." + rest);
  }

  lemma ClassifiesBeautyRed()
    ensures DetermineChannelGroup("Beauty.red") == "base"
  {
    ClassifyDotted("Beauty", "red");
    assert "Beauty" + "." + "red" == "Beauty.red";
    assert ChannelPrefixMap["Beauty"] == "base";
  }

  lemma ClassifiesLightMixBlue()
    ensures DetermineChannelGroup("LightMix.blue") == "light"
  {
    ClassifyDotted("LightMix", "blue");
    assert "LightMix" + "." + "blue" == "LightMix.blue";
    assert ChannelPrefixMap["LightMix"] == "light";
  }

  lemma ClassifiesBackgroundRed()
    ensures DetermineChannelGroup("Background.red") == "scene"
  {
    ClassifyDotted("Background", "red");
    assert "Background" + "." + "red" == "Background.red";
    assert ChannelPrefixMap["Background"] == "scene";
  }

  lemma ClassifiesIdRed()
    ensures DetermineChannelGroup("ID0.red") == "scene_objects"
  {
    ClassifyDotted("ID0", "red");
    assert "ID0" + "." + "red" == "ID0.red";
    assert !StartsWith("ID0", "Light");
  }

  lemma ClassifiesWallsBlue()
    ensures DetermineChannelGroup("_walls.blue") == "scene_objects"
  {
    ClassifyDotted("_walls", "blue");
    assert "_walls" + "." + "blue" == "_walls.blue";
    assert !StartsWith("_walls", "Light");
    TableKeysCapitalised();
    assert "_walls" !in ChannelPrefixMap by {
      assert "_walls"[0] == '_';
    }
  }

  /** The unit-test expectations for the classifier. */
  lemma ClassificationExamples()
    ensures DetermineChannelGroup("R") == "base"
    ensures DetermineChannelGroup("Beauty.red") == "base"
    ensures DetermineChannelGroup("LightMix.blue") == "light"
    ensures DetermineChannelGroup("Background.red") == "scene"
    ensures DetermineChannelGroup("ID0.red") == "scene_objects"
    ensures DetermineChannelGroup("_walls.blue") == "scene_objects"
  {
    ClassifiesBeautyRed();
    ClassifiesLightMixBlue();
    ClassifiesBackgroundRed();
    ClassifiesIdRed();
    ClassifiesWallsBlue();
  }
}
