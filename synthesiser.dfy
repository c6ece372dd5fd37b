/**
 * The synthesiser as the importer runs it: a builder that holds the
 * settings, the material's node tree, `map_location`, `got_transparency`
 * and `diffuse_map_node`, and drives the tree through `nodes.new`,
 * `links.new` and `default_value` one call at a time. Each method is
 * proved to move the builder's state exactly as the matching function of
 * `Synthesis` says, so everything proved about `Synthesize` holds of the
 * material the builder leaves behind.
 */
module Synthesiser {
  import opened Wrappers
  import opened Keywords
  import opened Parser
  import opened Maps
  import opened NodeGraph
  import opened Synthesis
  import opened SynthesisFacts

  class Builder {
    const settings: Settings
    const tree: NodeTree
    var mapLocation: Location
    var gotTransparency: bool
    var diffuseMapNode: Option<nat>

    /** The builder's state as a value. */
    function State(): Synth
      reads this, tree
    {
      Synth(tree.Snapshot(), mapLocation, gotTransparency, diffuseMapNode)
    }

    /** The fixed nodes and links, the shader's defaults, the cursor at
        (-100, 0) and transparency from the opacity alone. */
    constructor (s: Settings, tree: NodeTree)
      requires WellFormed(s) && tree.nodes == [] && tree.links == []
      modifies tree
      ensures settings == s && this.tree == tree
      ensures State() == Start(s)
    {
      settings := s;
      this.tree := tree;
      mapLocation := Location(-100, 0);
      gotTransparency := s.fields[Opacity].x < 1.0;
      diffuseMapNode := None;
      new;
      AddSkeleton(tree);
      SetShaderInputs(tree, s);
    }

    /** `new_image_texture_node`: an image node for the map's texture at
        `map_location`, fed by the fan-out, and `map_location` one slot
        lower. Returns the new node's number. */
    method NewImageTextureNode(m: MapKind) returns (t: nat)
      requires WellFormed(settings) && TextureOf(settings, m).Some?
      modifies this, tree
      ensures t == |old(tree.nodes)|
      ensures State() == AddTexture(old(State()), TextureOf(settings, m).value)
    {
      t := tree.NewNode(TexImageNode(settings.fields[MapName(m)].image.value), mapLocation);
      tree.NewLink(Terminal(FanoutIx, At(0)), Terminal(t, At(0)));
      mapLocation := Location(mapLocation.x, mapLocation.y - 300);
    }

    /** `add_intensity_nodes`: a multiply node by the map's intensity when
        it has one other than 1. */
    method AddIntensityNodes(m: MapKind, input: Terminal, extra: Location) returns (out: Terminal)
      requires WellFormed(settings)
      modifies tree
      ensures Chained(tree.Snapshot(), out) == IntensityNodes(settings, old(tree.Snapshot()), m, input, extra)
    {
      out := input;
      if IntensityName(m).Some? {
        var intensity := settings.fields[IntensityName(m).value].x;
        if intensity != 1.0 {
          var intensify := tree.NewNode(MultiplyNode, extra);
          tree.SetDefault(intensify, At(0), Scalar(1.0));
          tree.SetDefault(intensify, At(1), Scalar(intensity));
          tree.NewLink(input, Terminal(intensify, At(0)));
          out := Terminal(intensify, At(0));
        }
      }
    }

    /** `add_bump_convert_nodes`: a bump node fed at its Height, with its
        Strength set when the bump intensity is not 1. */
    method AddBumpConvertNodes(input: Terminal, extra: Location) returns (out: Terminal)
      requires WellFormed(settings)
      modifies tree
      ensures Chained(tree.Snapshot(), out) == BumpConvertNodes(settings, old(tree.Snapshot()), input, extra)
    {
      var bumpConvert := tree.NewNode(BumpNode, extra);
      var intensity := settings.fields[BumpmapIntensity].x;
      if intensity != 1.0 {
        tree.SetDefault(bumpConvert, Named("Strength"), Scalar(intensity));
      }
      tree.NewLink(input, Terminal(bumpConvert, Named("Height")));
      out := Terminal(bumpConvert, Named("Normal"));
    }

    /** `add_normal_mapping_nodes`: a normal-map node fed at its Color, with
        its Strength set when the normal-map intensity is not 1. */
    method AddNormalMappingNodes(input: Terminal, extra: Location) returns (out: Terminal)
      requires WellFormed(settings)
      modifies tree
      ensures Chained(tree.Snapshot(), out) == NormalMappingNodes(settings, old(tree.Snapshot()), input, extra)
    {
      var normalMap := tree.NewNode(NormalMapNode, extra);
      var intensity := settings.fields[NormalmapIntensity].x;
      if intensity != 1.0 {
        tree.SetDefault(normalMap, Named("Strength"), Scalar(intensity));
      }
      tree.NewLink(input, Terminal(normalMap, Named("Color")));
      out := Terminal(normalMap, Named("Normal"));
    }

    /** One pass of the map loop: when the map's texture is set, its image
        node, the transparency flags, its special or intensity nodes and the
        link into the shader. */
    method ImportMap(m: MapKind)
      requires WellFormed(settings)
      modifies this, tree
      ensures State() == MapStep(settings, old(State()), m)
    {
      if settings.fields[MapName(m)].image.Some? {
        var extra := Location(mapLocation.x + 300, mapLocation.y);
        var texImage := NewImageTextureNode(m);
        NoteTransparency(m, texImage);
        var out := AddSpecialNodes(m, Terminal(texImage, Named("Color")), extra);
        tree.NewLink(out, Terminal(ShaderIx, Named(BsdfInputName(m))));
        MapStepParts(settings, old(State()), m);
      }
    }

    /** The transparency check on a placed texture: the alpha map, or a
        diffuse image with more than 3 channels, sets `got_transparency`,
        and the diffuse one is remembered as `diffuse_map_node`. */
    method NoteTransparency(m: MapKind, texImage: nat)
      requires WellFormed(settings) && TextureOf(settings, m).Some?
      modifies this
      ensures mapLocation == old(mapLocation)
      ensures gotTransparency == (old(gotTransparency) || FlagsTransparency(m, TextureOf(settings, m).value))
      ensures diffuseMapNode ==
              if m == Diffuse && FlagsTransparency(m, TextureOf(settings, m).value)
              then Some(texImage) else old(diffuseMapNode)
    {
      var img := settings.fields[MapName(m)].image.value;
      if m == Alpha || (m == Diffuse && img.channels > 3) {
        gotTransparency := true;
        if m == Diffuse {
          diffuseMapNode := Some(texImage);
        }
      }
    }

    /** `add_special_nodes_for.get(map)`: the bump or normal-map nodes for
        those two maps, the intensity nodes for every other. */
    method AddSpecialNodes(m: MapKind, input: Terminal, extra: Location) returns (out: Terminal)
      requires WellFormed(settings)
      modifies tree
      ensures Chained(tree.Snapshot(), out) == SpecialNodes(settings, old(tree.Snapshot()), m, input, extra)
    {
      if m == Bump {
        out := AddBumpConvertNodes(input, extra);
      } else if m == Normal {
        out := AddNormalMappingNodes(input, extra);
      } else {
        out := AddIntensityNodes(m, input, extra);
      }
    }

    /** The map loop: diffuse, specular, alpha, normal, bump. */
    method ImportMaps()
      requires WellFormed(settings) && State() == MapsPrefix(settings, 0)
      modifies this, tree
      ensures State() == MapsPrefix(settings, |LoopOrder|)
    {
      for i := 0 to |LoopOrder|
        invariant State() == MapsPrefix(settings, i)
      {
        ImportMap(LoopOrder[i]);
      }
    }

    /** The diffuse texture's Alpha into the shader's Alpha, when
        transparency was seen, no transparency map is set, and a diffuse
        node was recorded. */
    method LinkDiffuseAlpha()
      requires WellFormed(settings)
      modifies tree
      ensures State() == AlphaFallback(settings, old(State()))
    {
      if gotTransparency && settings.fields[TransparencymapTexture].image.None? && diffuseMapNode.Some? {
        tree.NewLink(Terminal(diffuseMapNode.value, Named("Alpha")), Terminal(ShaderIx, Named("Alpha")));
      }
    }

    /** The displacement texture: its image node, transparency when it has
        more than 3 channels, its intensity nodes at the moved cursor, and
        the link into the material output's Displacement. */
    method ImportDisplacement()
      requires WellFormed(settings)
      modifies this, tree
      ensures State() == DisplacementStep(settings, old(State()))
    {
      if settings.fields[DisplacementmapTexture].image.Some? {
        var texImage := NewImageTextureNode(Displacement);
        if settings.fields[DisplacementmapTexture].image.value.channels > 3 {
          gotTransparency := true;
        }
        var extra := Location(mapLocation.x + 300, mapLocation.y);
        var out := AddIntensityNodes(Displacement, Terminal(texImage, Named("Color")), extra);
        tree.NewLink(out, Terminal(OutputIx, Named("Displacement")));
      }
    }
  }

  /** The fixed nodes in the order the importer makes them (texture
      coordinates, mapping, fan-out, Principled BSDF, material output) and
      their three links, on an empty tree. */
  method AddSkeleton(tree: NodeTree)
    requires tree.nodes == [] && tree.links == []
    modifies tree
    ensures tree.Snapshot() == Graph(SkeletonNodes(map[]), SkeletonLinks)
  {
    var texCoords := tree.NewNode(TexCoordNode, Location(-600, 0));
    var texMapping := tree.NewNode(MappingNode, Location(-400, 0));
    tree.NewLink(Terminal(texCoords, Named("UV")), Terminal(texMapping, Named("Vector")));
    var fanout := tree.NewNode(RerouteNode, Location(-200, -150));
    tree.NewLink(Terminal(texMapping, Named("Vector")), Terminal(fanout, At(0)));
    var mainShader := tree.NewNode(PrincipledBsdfNode, Location(500, 0));
    var materialOutput := tree.NewNode(OutputMaterialNode, Location(850, 0));
    tree.NewLink(Terminal(mainShader, At(0)), Terminal(materialOutput, At(0)));
  }

  /** The shader's input defaults: the colour, emission and opacity
      inputs, then the subsurface and roughness ones. */
  method SetShaderInputs(tree: NodeTree, s: Settings)
    requires WellFormed(s) && tree.nodes == SkeletonNodes(map[])
    modifies tree
    ensures tree.nodes == SkeletonNodes(ShaderInputs(s)) && tree.links == old(tree.links)
  {
    SetColourInputs(tree, s);
    SetSubsurfaceInputs(tree, s);
  }

  /** The loop over (`diffuseColor`, Base Color), (`emissiveColor`,
      Emission) and (`opacity`, Alpha). */
  method SetColourInputs(tree: NodeTree, s: Settings)
    requires WellFormed(s) && tree.nodes == SkeletonNodes(map[])
    modifies tree
    ensures tree.nodes == SkeletonNodes(ColourInputs(s)) && tree.links == old(tree.links)
  {
    tree.SetDefault(ShaderIx, Named("Base Color"), Vector(Rgba(s, DiffuseColor)));
    tree.SetDefault(ShaderIx, Named("Emission"), Vector(Rgba(s, EmissiveColor)));
    tree.SetDefault(ShaderIx, Named("Alpha"), Scalar(Real(s, Opacity)));
  }

  /** Subsurface 1 or 0 by the subsurface flag, the three scattering
      scales, and Roughness 1 - shininess. */
  method SetSubsurfaceInputs(tree: NodeTree, s: Settings)
    requires WellFormed(s) && tree.nodes == SkeletonNodes(ColourInputs(s))
    modifies tree
    ensures tree.nodes == SkeletonNodes(ShaderInputs(s)) && tree.links == old(tree.links)
  {
    tree.SetDefault(ShaderIx, Named("Subsurface"), Scalar(if s.fields[SssEnabled].on then 1.0 else 0.0));
    tree.SetDefault(ShaderIx, Named("Subsurface Radius"),
                    Vector([Real(s, SssRScale), Real(s, SssGScale), Real(s, SssBScale)]));
    tree.SetDefault(ShaderIx, Named("Roughness"), Scalar(1.0 - Real(s, Shininess)));
  }

  /** The material `execute` makes from parsed settings: named after the
      file, with the tree and blend mode `Synthesize` describes. */
  method BuildMaterial(s: Settings) returns (material: Material)
    requires WellFormed(s)
    ensures fresh(material) && fresh(material.tree)
    ensures material.name == s.name
    ensures material.tree.Snapshot() == Synthesize(s).graph
    ensures material.blendMethod == Synthesize(s).blend
  {
    material := new Material(s.name);
    var builder := new Builder(s, material.tree);
    builder.ImportMaps();
    builder.LinkDiffuseAlpha();
    builder.ImportDisplacement();
    ghost var st := builder.State();
    SynthesizeOf(s, st);
    if builder.gotTransparency {
      material.blendMethod := Blend;
    }
    material.tree.DeselectAll();
  }

  /** `Synthesize` from the finished state. */
  lemma SynthesizeOf(s: Settings, st: Synth)
    requires WellFormed(s) && st == DisplacementStep(s, AlphaFallback(s, MapsPrefix(s, |LoopOrder|)))
    ensures Synthesize(s) == Built(Graph(Deselected(st.graph.nodes), st.graph.links), if st.transparent then Blend else Opaque)
  {
  }
}
