/**
 * The `MAP` enum: the texture maps a material can carry, each naming the
 * Principled BSDF input it feeds, the settings field holding its texture
 * and the settings field holding its intensity (none for the diffuse map).
 */
module Maps {
  import opened Wrappers
  import opened Keywords

  datatype MapKind = Alpha | Bump | Diffuse | Displacement | Normal | Specular

  /** `principled_bsdf_input_name`: the first value of the map's enum
      member. For every map but displacement it names the Principled BSDF
      input the map ends up in; the displacement map's "Displacement" is an
      input of the material output instead, which the BSDF does not have. */
  function BsdfInputName(m: MapKind): (name: string)
    ensures m != Displacement ==> name in {"Alpha", "Normal", "Base Color", "Specular"}
    ensures name == "Displacement" <==> m == Displacement
  {
    match m
    case Alpha => "Alpha"
    case Bump => "Normal"
    case Diffuse => "Base Color"
    case Displacement => "Displacement"
    case Normal => "Normal"
    case Specular => "Specular"
  }

  /** `map_name`: the settings field holding the map's texture. */
  function MapName(m: MapKind): (k: Keyword)
    ensures EntryOf(k).convert.AsImage?
  {
    match m
    case Alpha => TransparencymapTexture
    case Bump => BumpmapTexture
    case Diffuse => DiffuseTexture
    case Displacement => DisplacementmapTexture
    case Normal => NormalmapTexture
    case Specular => SpecularmapTexture
  }

  /** `intensity_name`: the settings field holding the map's intensity,
      a plain float; the diffuse map has none. */
  function IntensityName(m: MapKind): (k: Option<Keyword>)
    ensures k.None? <==> m == Diffuse
    ensures k.Some? ==> EntryOf(k.value).convert == AsFloat
  {
    match m
    case Alpha => Some(TransparencymapIntensity)
    case Bump => Some(BumpmapIntensity)
    case Diffuse => None
    case Displacement => Some(DisplacementmapIntensity)
    case Normal => Some(NormalmapIntensity)
    case Specular => Some(SpecularmapIntensity)
  }

  /** The maps the loop walks, in the order of the shader's inputs. */
  const LoopOrder: seq<MapKind> := [Diffuse, Specular, Alpha, Normal, Bump]

  /** The table's texture attributes are pairwise distinct, so each
      texture line feeds exactly one map. */
  lemma MapNameInjective(m1: MapKind, m2: MapKind)
    ensures MapName(m1) == MapName(m2) <==> m1 == m2
  {
  }

  /** The two maps that feed the shader's Normal input are the only two
      sharing an input name. */
  lemma SharedBsdfInput(m1: MapKind, m2: MapKind)
    requires m1 != m2
    ensures BsdfInputName(m1) == BsdfInputName(m2) <==> {m1, m2} == {Bump, Normal}
  {
    if {m1, m2} == {Bump, Normal} {
      assert m1 in {Bump, Normal} && m2 in {Bump, Normal};
    } else if m1 == Bump || m1 == Normal {
      assert m2 != Bump && m2 != Normal;
    }
  }

  /** The loop visits every map except displacement, each once. */
  lemma LoopOrderCovers(m: MapKind)
    ensures m in LoopOrder <==> m != Displacement
    ensures forall i, j :: 0 <= i < j < |LoopOrder| ==> LoopOrder[i] != LoopOrder[j]
  {
  }
}
