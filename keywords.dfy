/**
 * The `.mhmat` keyword schema: the values a settings field can hold, the
 * converters that turn a line's value tokens into such a value, and the
 * two keyword tables (`valid_keywords` and `ignored_keywords`).
 */
module Keywords {
  import opened Wrappers
  import opened Text

  /** A loaded image, seen only through what the importer looks at: the
      file it came from, its channel count, and whether its colour space
      was set to linear. */
  datatype Image = Image(file: string, channels: nat, linear: bool)

  /** What the importer asks of its host: Python's `float()` on one token
      (None where it raises ValueError) and the channel count of the image
      a texture line names. */
  datatype Host = Host(parseFloat: string -> Option<real>, imageChannels: string -> nat)

  /** A settings field's value. A colour is Python's tuple of reals. */
  datatype Value =
    | Num(x: real)
    | Colour(rgba: seq<real>)
    | Texture(image: Option<Image>)
    | Flag(on: bool)

  /** The converter a keyword runs on its value tokens. */
  datatype Converter =
    | AsColour
    | AsFloat
    | AsFloatUpto(maxval: real)
    | AsImage(isColour: bool)
    | AsBool

  datatype Entry = Entry(convert: Converter, nrArgs: nat, default: Value)

  /** The keywords the importer understands, one per settings field. */
  datatype Keyword =
    | DiffuseColor | Shininess | EmissiveColor | Opacity
    | DiffuseTexture | BumpmapTexture | BumpmapIntensity
    | NormalmapTexture | NormalmapIntensity
    | DisplacementmapTexture | DisplacementmapIntensity
    | SpecularmapTexture | SpecularmapIntensity
    | TransparencymapTexture | TransparencymapIntensity
    | SssEnabled | SssRScale | SssGScale | SssBScale

  /** The keywords in the order `valid_keywords` lists them. */
  const AllKeywords: seq<Keyword> := [
    DiffuseColor, Shininess, EmissiveColor, Opacity, DiffuseTexture,
    BumpmapTexture, BumpmapIntensity, NormalmapTexture, NormalmapIntensity,
    DisplacementmapTexture, DisplacementmapIntensity, SpecularmapTexture,
    SpecularmapIntensity, TransparencymapTexture, TransparencymapIntensity,
    SssEnabled, SssRScale, SssGScale, SssBScale
  ]

  /** How a keyword is written in a `.mhmat` file. */
  function Spelling(k: Keyword): string
  {
    match k
    case DiffuseColor => "diffuseColor"
    case Shininess => "shininess"
    case EmissiveColor => "emissiveColor"
    case Opacity => "opacity"
    case DiffuseTexture => "diffuseTexture"
    case BumpmapTexture => "bumpmapTexture"
    case BumpmapIntensity => "bumpmapIntensity"
    case NormalmapTexture => "normalmapTexture"
    case NormalmapIntensity => "normalmapIntensity"
    case DisplacementmapTexture => "displacementmapTexture"
    case DisplacementmapIntensity => "displacementmapIntensity"
    case SpecularmapTexture => "specularmapTexture"
    case SpecularmapIntensity => "specularmapIntensity"
    case TransparencymapTexture => "transparencymapTexture"
    case TransparencymapIntensity => "transparencymapIntensity"
    case SssEnabled => "sssEnabled"
    case SssRScale => "sssRScale"
    case SssGScale => "sssGScale"
    case SssBScale => "sssBScale"
  }

  /** A word of ASCII letters that starts with a lower-case one. */
  predicate LowerWord(w: string)
  {
    w != [] && 'a' <= w[0] <= 'z' && forall i :: 0 <= i < |w| ==> 'a' <= w[i] <= 'z' || 'A' <= w[i] <= 'Z'
  }

  /** Every spelling is one word of ASCII letters that starts with a
      lower-case letter, so a keyword line is neither blank nor a comment. */
  lemma SpellingIsWord(k: Keyword)
    ensures Spelling(k) != [] && NoSpace(Spelling(k))
    ensures 'a' <= Spelling(k)[0] <= 'z'
    ensures forall i :: 0 <= i < |Spelling(k)| ==> 'a' <= Spelling(k)[i] <= 'z' || 'A' <= Spelling(k)[i] <= 'Z'
  {
    SpellingLower(k);
    var w := Spelling(k);
    assert forall i :: 0 <= i < |w| ==> !IsSpace(w[i]);
  }

  lemma SpellingLower(k: Keyword)
    ensures LowerWord(Spelling(k))
  {
    match k {
    case DiffuseColor | Shininess | EmissiveColor => LettersColours(k);
    case Opacity | DiffuseTexture => LettersOpacity(k);
    case BumpmapTexture | BumpmapIntensity => LettersBump(k);
    case NormalmapTexture | NormalmapIntensity => LettersNormal(k);
    case DisplacementmapTexture | DisplacementmapIntensity => LettersDisplacement(k);
    case SpecularmapTexture | SpecularmapIntensity => LettersSpecular(k);
    case TransparencymapTexture | TransparencymapIntensity => LettersTransparency(k);
    case SssEnabled | SssRScale | SssGScale | SssBScale => LettersSubsurface(k);
    }
  }

  lemma LettersColours(k: Keyword)
    requires k == DiffuseColor || k == Shininess || k == EmissiveColor
    ensures LowerWord(Spelling(k))
  {
  }

  lemma LettersOpacity(k: Keyword)
    requires k == Opacity || k == DiffuseTexture
    ensures LowerWord(Spelling(k))
  {
  }

  lemma LettersBump(k: Keyword)
    requires k == BumpmapTexture || k == BumpmapIntensity
    ensures LowerWord(Spelling(k))
  {
  }

  lemma LettersNormal(k: Keyword)
    requires k == NormalmapTexture || k == NormalmapIntensity
    ensures LowerWord(Spelling(k))
  {
  }

  lemma LettersDisplacement(k: Keyword)
    requires k == DisplacementmapTexture || k == DisplacementmapIntensity
    ensures LowerWord(Spelling(k))
  {
  }

  lemma LettersSpecular(k: Keyword)
    requires k == SpecularmapTexture || k == SpecularmapIntensity
    ensures LowerWord(Spelling(k))
  {
  }

  lemma LettersTransparency(k: Keyword)
    requires k == TransparencymapTexture || k == TransparencymapIntensity
    ensures LowerWord(Spelling(k))
  {
  }

  lemma LettersSubsurface(k: Keyword)
    requires k == SssEnabled || k == SssRScale || k == SssGScale || k == SssBScale
    ensures LowerWord(Spelling(k))
  {
  }

  /** `valid_keywords[kw]`: converter, exact argument count and default. */
  function EntryOf(k: Keyword): (e: Entry)
    ensures e.nrArgs == if e.convert.AsColour? then 3 else 1
  {
    match k
    case DiffuseColor => Entry(AsColour, 3, Colour([1.0, 1.0, 1.0, 1.0]))
    case Shininess => Entry(AsFloatUpto(1.0), 1, Num(0.0))
    case EmissiveColor => Entry(AsColour, 3, Colour([0.0, 0.0, 0.0, 1.0]))
    case Opacity => Entry(AsFloat, 1, Num(1.0))
    case DiffuseTexture => Entry(AsImage(true), 1, Texture(None))
    case BumpmapTexture => Entry(AsImage(false), 1, Texture(None))
    case BumpmapIntensity => Entry(AsFloat, 1, Num(1.0))
    case NormalmapTexture => Entry(AsImage(false), 1, Texture(None))
    case NormalmapIntensity => Entry(AsFloat, 1, Num(1.0))
    case DisplacementmapTexture => Entry(AsImage(false), 1, Texture(None))
    case DisplacementmapIntensity => Entry(AsFloat, 1, Num(1.0))
    case SpecularmapTexture => Entry(AsImage(true), 1, Texture(None))
    case SpecularmapIntensity => Entry(AsFloat, 1, Num(1.0))
    case TransparencymapTexture => Entry(AsImage(false), 1, Texture(None))
    case TransparencymapIntensity => Entry(AsFloat, 1, Num(1.0))
    case SssEnabled => Entry(AsBool, 1, Flag(false))
    case SssRScale => Entry(AsFloat, 1, Num(1.0))
    case SssGScale => Entry(AsFloat, 1, Num(1.0))
    case SssBScale => Entry(AsFloat, 1, Num(1.0))
  }

  /** `valid_keywords`: every keyword by its spelling. */
  const ValidKeywords: map<string, Keyword> := map[
    "diffuseColor" := DiffuseColor,
    "shininess" := Shininess,
    "emissiveColor" := EmissiveColor,
    "opacity" := Opacity,
    "diffuseTexture" := DiffuseTexture,
    "bumpmapTexture" := BumpmapTexture,
    "bumpmapIntensity" := BumpmapIntensity,
    "normalmapTexture" := NormalmapTexture,
    "normalmapIntensity" := NormalmapIntensity,
    "displacementmapTexture" := DisplacementmapTexture,
    "displacementmapIntensity" := DisplacementmapIntensity,
    "specularmapTexture" := SpecularmapTexture,
    "specularmapIntensity" := SpecularmapIntensity,
    "transparencymapTexture" := TransparencymapTexture,
    "transparencymapIntensity" := TransparencymapIntensity,
    "sssEnabled" := SssEnabled,
    "sssRScale" := SssRScale,
    "sssGScale" := SssGScale,
    "sssBScale" := SssBScale
  ]

  /** `keyword in valid_keywords`, answered with the keyword itself. */
  function KeywordNamed(s: string): (r: Option<Keyword>)
    ensures r.Some? ==> Spelling(r.value) == s
  {
    if s in ValidKeywords then ValidKeywordsSpelled(); Some(ValidKeywords[s]) else None
  }

  /** The table files each keyword under its own spelling. */
  lemma ValidKeywordsSpelled()
    ensures forall s :: s in ValidKeywords ==> Spelling(ValidKeywords[s]) == s
  {
    FoundColours();
    FoundTextures();
    FoundNormals();
    FoundSpeculars();
    FoundTransparency();
    FoundEnabled();
    FoundScales();
  }

  /** `ignored_keywords`: metadata keywords skipped without a warning. */
  const IgnoredKeywords: set<string> := {
    "alphaToCoverage", "castShadows", "description", "name", "receiveShadows",
    "shader", "shaderConfig", "tag", "transparent", "viewPortColor",
    "viewPortAlpha"
  }

  /** The shape a converter's result has: the type invariant of a settings
      field, including the range of a bounded float. */
  predicate Fits(e: Entry, v: Value)
  {
    match e.convert
    case AsColour => v.Colour? && |v.rgba| == e.nrArgs + 1 && v.rgba[e.nrArgs] == 1.0
    case AsFloat => v.Num?
    case AsFloatUpto(maxval) => v.Num? && 0.0 <= v.x <= maxval
    case AsImage(isColour) => v.Texture? && (v.image.Some? ==> v.image.value.linear == !isColour)
    case AsBool => v.Flag?
  }

  /** Every default in the table has the shape its converter produces. */
  lemma DefaultFits(k: Keyword)
    ensures Fits(EntryOf(k), EntryOf(k).default)
  {
  }

  /** Every keyword is listed in the table's order. */
  lemma KeywordListed(k: Keyword)
    ensures k in AllKeywords
  {
  }

  /** Every keyword is found under its own spelling. The lookups are
      proved a few at a time only to keep each proof small. */
  lemma KeywordFound(k: Keyword)
    ensures KeywordNamed(Spelling(k)) == Some(k)
  {
    match k
    case DiffuseColor | Shininess | EmissiveColor | Opacity =>
      FoundColours();
    case DiffuseTexture | BumpmapTexture | BumpmapIntensity =>
      FoundTextures();
    case NormalmapTexture | NormalmapIntensity | DisplacementmapTexture =>
      FoundNormals();
    case DisplacementmapIntensity | SpecularmapTexture | SpecularmapIntensity =>
      FoundSpeculars();
    case TransparencymapTexture | TransparencymapIntensity =>
      FoundTransparency();
    case SssEnabled | SssRScale =>
      FoundEnabled();
    case SssGScale | SssBScale =>
      FoundScales();
  }

  lemma FoundColours()
    ensures "diffuseColor" in ValidKeywords && ValidKeywords["diffuseColor"] == DiffuseColor
    ensures "shininess" in ValidKeywords && ValidKeywords["shininess"] == Shininess
    ensures "emissiveColor" in ValidKeywords && ValidKeywords["emissiveColor"] == EmissiveColor
    ensures "opacity" in ValidKeywords && ValidKeywords["opacity"] == Opacity
  {
  }

  lemma FoundTextures()
    ensures "diffuseTexture" in ValidKeywords && ValidKeywords["diffuseTexture"] == DiffuseTexture
    ensures "bumpmapTexture" in ValidKeywords && ValidKeywords["bumpmapTexture"] == BumpmapTexture
    ensures "bumpmapIntensity" in ValidKeywords && ValidKeywords["bumpmapIntensity"] == BumpmapIntensity
  {
  }

  lemma FoundNormals()
    ensures "normalmapTexture" in ValidKeywords && ValidKeywords["normalmapTexture"] == NormalmapTexture
    ensures "normalmapIntensity" in ValidKeywords && ValidKeywords["normalmapIntensity"] == NormalmapIntensity
    ensures "displacementmapTexture" in ValidKeywords && ValidKeywords["displacementmapTexture"] == DisplacementmapTexture
  {
  }

  lemma FoundSpeculars()
    ensures "displacementmapIntensity" in ValidKeywords && ValidKeywords["displacementmapIntensity"] == DisplacementmapIntensity
    ensures "specularmapTexture" in ValidKeywords && ValidKeywords["specularmapTexture"] == SpecularmapTexture
    ensures "specularmapIntensity" in ValidKeywords && ValidKeywords["specularmapIntensity"] == SpecularmapIntensity
  {
  }

  lemma FoundTransparency()
    ensures "transparencymapTexture" in ValidKeywords && ValidKeywords["transparencymapTexture"] == TransparencymapTexture
    ensures "transparencymapIntensity" in ValidKeywords && ValidKeywords["transparencymapIntensity"] == TransparencymapIntensity
  {
  }

  lemma FoundEnabled()
    ensures "sssEnabled" in ValidKeywords && ValidKeywords["sssEnabled"] == SssEnabled
    ensures "sssRScale" in ValidKeywords && ValidKeywords["sssRScale"] == SssRScale
  {
  }

  lemma FoundScales()
    ensures "sssGScale" in ValidKeywords && ValidKeywords["sssGScale"] == SssGScale
    ensures "sssBScale" in ValidKeywords && ValidKeywords["sssBScale"] == SssBScale
  {
  }

  /** No keyword is both understood and ignored. */
  lemma KeywordNotIgnored(k: Keyword)
    ensures Spelling(k) !in IgnoredKeywords
  {
  }

  /** Every token parsed as a float, or None as soon as one does not parse. */
  function ParseAll(host: Host, words: seq<string>): (r: Option<seq<real>>)
    ensures r.Some? <==> forall i :: 0 <= i < |words| ==> host.parseFloat(words[i]).Some?
    ensures r.Some? ==> |r.value| == |words|
                        && forall i :: 0 <= i < |words| ==> Some(r.value[i]) == host.parseFloat(words[i])
  {
    if words == [] then Some([])
    else match (host.parseFloat(words[0]), ParseAll(host, words[1..]))
      case (Some(x), Some(xs)) => Some([x] + xs)
      case _ => None
  }

  /** `convert_colour`: the tokens as floats with an alpha of 1 appended. */
  function ConvertColour(host: Host, words: seq<string>): (r: Option<seq<real>>)
    ensures r.Some? <==> forall i :: 0 <= i < |words| ==> host.parseFloat(words[i]).Some?
    ensures r.Some? ==> |r.value| == |words| + 1 && r.value[|words|] == 1.0
                        && forall i :: 0 <= i < |words| ==> Some(r.value[i]) == host.parseFloat(words[i])
  {
    match ParseAll(host, words)
    case Some(xs) => Some(xs + [1.0])
    case None => None
  }

  /** The converter `def_convert_float_upto(maxval)` returns: a float in the
      closed range [0, maxval], boundaries included. */
  function ConvertFloatUpto(host: Host, maxval: real, words: seq<string>): (r: Option<real>)
    requires |words| > 0
    ensures r.Some? <==> host.parseFloat(words[0]).Some?
                         && 0.0 <= host.parseFloat(words[0]).value <= maxval
    ensures r.Some? ==> r == host.parseFloat(words[0])
  {
    match host.parseFloat(words[0])
    case Some(v) => if v < 0.0 || v > maxval then None else Some(v)
    case None => None
  }

  /** The converter `def_load_image(is_colour)` returns: the tokens joined by
      spaces name the image, which is made linear unless it is a colour map.
      The path rewriting and packing are host bookkeeping. */
  function LoadImage(host: Host, isColour: bool, words: seq<string>): (img: Image)
    ensures img.linear == !isColour
    ensures |words| == 1 ==> img.file == words[0]
    ensures img.channels == host.imageChannels(img.file)
  {
    var file := Join(words, " ");
    Image(file, host.imageChannels(file), !isColour)
  }

  /** Run the converter of keyword `kw` on exactly `nr_args` value tokens;
      None is the ValueError that aborts the import. `convert_float` is
      `float(words[0])`, later tokens not looked at; the boolean converter
      is Python's `bool` applied to the list of tokens (not to the token),
      true for any non-empty list, whatever it holds. */
  function Convert(host: Host, kw: Keyword, words: seq<string>): (r: Option<Value>)
    requires |words| == EntryOf(kw).nrArgs
    ensures r.Some? ==> Fits(EntryOf(kw), r.value)
  {
    match EntryOf(kw).convert
    case AsColour =>
      (match ConvertColour(host, words) case Some(c) => Some(Colour(c)) case None => None)
    case AsFloat =>
      (match host.parseFloat(words[0]) case Some(x) => Some(Num(x)) case None => None)
    case AsFloatUpto(maxval) =>
      (match ConvertFloatUpto(host, maxval, words) case Some(x) => Some(Num(x)) case None => None)
    case AsImage(isColour) => Some(Texture(Some(LoadImage(host, isColour, words))))
    case AsBool => Some(Flag(|words| > 0))
  }

  /** `shininess` is accepted exactly when its value lies in [0, 1]. */
  lemma ShininessInRange(host: Host, w: string)
    ensures Convert(host, Shininess, [w]).Some?
            <==> host.parseFloat(w).Some? && 0.0 <= host.parseFloat(w).value <= 1.0
    ensures Convert(host, Shininess, [w]).Some?
            ==> Convert(host, Shininess, [w]) == Some(Num(host.parseFloat(w).value))
  {
  }

  /** A plain float keyword (opacity, the intensities, the scattering
      scales) takes any value `float()` accepts: there is no range check, so
      `opacity 2` or a negative intensity is accepted as written. */
  lemma PlainFloatUnchecked(host: Host, kw: Keyword, w: string)
    requires EntryOf(kw).convert == AsFloat
    ensures Convert(host, kw, [w]).Some? <==> host.parseFloat(w).Some?
    ensures Convert(host, kw, [w]).Some? ==> Convert(host, kw, [w]) == Some(Num(host.parseFloat(w).value))
  {
  }

  /** A three-token colour comes back as four components ending in 1. */
  lemma ColourGetsAlpha(host: Host, r: string, g: string, b: string)
    requires host.parseFloat(r).Some? && host.parseFloat(g).Some? && host.parseFloat(b).Some?
    ensures Convert(host, DiffuseColor, [r, g, b])
            == Some(Colour([host.parseFloat(r).value, host.parseFloat(g).value, host.parseFloat(b).value, 1.0]))
    ensures Convert(host, EmissiveColor, [r, g, b]) == Convert(host, DiffuseColor, [r, g, b])
  {
    var ws := [r, g, b];
    var c := ConvertColour(host, ws).value;
    assert Some(c[0]) == host.parseFloat(ws[0]);
    assert Some(c[1]) == host.parseFloat(ws[1]);
    assert Some(c[2]) == host.parseFloat(ws[2]);
    assert c == [c[0], c[1], c[2], 1.0];
  }

  /** `sssEnabled` is true for any single token, `False` and `0` included. */
  lemma SssEnabledAnyToken(host: Host, w: string)
    ensures Convert(host, SssEnabled, [w]) == Some(Flag(true))
  {
  }

  /** A texture keyword loads the one file it names; the image is linear for
      every map except the diffuse and specular ones. */
  lemma TextureColourSpaces(host: Host, kw: Keyword, w: string)
    requires EntryOf(kw).convert.AsImage?
    ensures Convert(host, kw, [w])
            == Some(Texture(Some(Image(w, host.imageChannels(w), kw != DiffuseTexture && kw != SpecularmapTexture))))
  {
  }
}
