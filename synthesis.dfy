/**
 * What the shader-graph synthesiser builds from a settings record, as
 * functions on `Graph`: the fixed skeleton, one step per texture map in
 * loop order, the diffuse-alpha fallback link, displacement, and the final
 * blend mode and deselection. The imperative builder is proved to produce
 * exactly `Synthesize(s)`; the lemmas below say what that graph is.
 */
module Synthesis {
  import opened Wrappers
  import opened Keywords
  import opened Parser
  import opened Maps
  import opened NodeGraph

  /** The fixed nodes, numbered in creation order. */
  const TexCoordIx: nat := 0
  const MappingIx: nat := 1
  const FanoutIx: nat := 2
  const ShaderIx: nat := 3
  const OutputIx: nat := 4

  /** A float field of the settings. */
  function Real(s: Settings, k: Keyword): real
    requires WellFormed(s) && EntryOf(k).convert in {AsFloat, AsFloatUpto(1.0)}
  {
    s.fields[k].x
  }

  /** A colour field of the settings, alpha included. */
  function Rgba(s: Settings, k: Keyword): (c: seq<real>)
    requires WellFormed(s) && EntryOf(k).convert == AsColour
    ensures |c| == 4 && c[3] == 1.0
  {
    s.fields[k].rgba
  }

  /** The image a map's texture field holds, if one was given. */
  function TextureOf(s: Settings, m: MapKind): Option<Image>
    requires WellFormed(s)
  {
    s.fields[MapName(m)].image
  }

  /** The intensity of a map that has one. */
  function Intensity(s: Settings, m: MapKind): real
    requires WellFormed(s) && m != Diffuse
  {
    Real(s, IntensityName(m).value)
  }

  /** The shader defaults set from the colour, emission and opacity
      fields. */
  function ColourInputs(s: Settings): map<Socket, Param>
    requires WellFormed(s)
  {
    map[
      Named("Base Color") := Vector(Rgba(s, DiffuseColor)),
      Named("Emission") := Vector(Rgba(s, EmissiveColor)),
      Named("Alpha") := Scalar(Real(s, Opacity))
    ]
  }

  /** The Principled BSDF input defaults taken from the settings. */
  function ShaderInputs(s: Settings): map<Socket, Param>
    requires WellFormed(s)
  {
    ColourInputs(s)[Named("Subsurface") := Scalar(if s.fields[SssEnabled].on then 1.0 else 0.0)]
                   [Named("Subsurface Radius") := Vector([Real(s, SssRScale), Real(s, SssGScale), Real(s, SssBScale)])]
                   [Named("Roughness") := Scalar(1.0 - Real(s, Shininess))]
  }

  /** The fixed nodes: texture coordinates, mapping, the fan-out reroute,
      the shader with `inputs` as its defaults, and the material output. */
  function SkeletonNodes(inputs: map<Socket, Param>): seq<Node>
  {
    [ Node(TexCoordNode, Location(-600, 0), map[], true),
      Node(MappingNode, Location(-400, 0), map[], true),
      Node(RerouteNode, Location(-200, -150), map[], true),
      Node(PrincipledBsdfNode, Location(500, 0), inputs, true),
      Node(OutputMaterialNode, Location(850, 0), map[], true) ]
  }

  /** The fixed links: texture coordinates into the mapping node into the
      fan-out, and the shader into the material output. */
  const SkeletonLinks: seq<Link> :=
    [ Link(Terminal(TexCoordIx, Named("UV")), Terminal(MappingIx, Named("Vector"))),
      Link(Terminal(MappingIx, Named("Vector")), Terminal(FanoutIx, At(0))),
      Link(Terminal(ShaderIx, At(0)), Terminal(OutputIx, At(0))) ]

  /** The fixed part of the tree, the shader's defaults taken from the
      settings. */
  function Skeleton(s: Settings): Graph
    requires WellFormed(s)
  {
    Graph(SkeletonNodes(ShaderInputs(s)), SkeletonLinks)
  }

  /** The builder's state: the tree so far, the layout cursor where the
      next texture node goes, whether transparency has been seen, and the
      diffuse texture node whose alpha may feed the shader. */
  datatype Synth = Synth(graph: Graph, cursor: Location, transparent: bool, diffuseNode: Option<nat>)

  /** Before the map loop: the skeleton, the cursor at (-100, 0), and
      transparency from the opacity alone. */
  function Start(s: Settings): Synth
    requires WellFormed(s)
  {
    Synth(Skeleton(s), Location(-100, 0), Real(s, Opacity) < 1.0, None)
  }

  /** `new_image_texture_node`: an image node at the cursor, fed by the
      fan-out, and the cursor one slot (300) lower. */
  function AddTexture(st: Synth, img: Image): (r: Synth)
    ensures Extends(st.graph, r.graph)
    ensures |r.graph.nodes| == |st.graph.nodes| + 1
    ensures r.graph.nodes[|st.graph.nodes|] == Node(TexImageNode(img), st.cursor, map[], true)
    ensures r.graph.links == st.graph.links + [Link(Terminal(FanoutIx, At(0)), Terminal(|st.graph.nodes|, At(0)))]
    ensures r.cursor == Location(st.cursor.x, st.cursor.y - 300)
    ensures r.transparent == st.transparent && r.diffuseNode == st.diffuseNode
  {
    var t := |st.graph.nodes|;
    var g := AddNode(st.graph, TexImageNode(img), st.cursor, map[]);
    Synth(AddLink(g, Terminal(FanoutIx, At(0)), Terminal(t, At(0))),
          Location(st.cursor.x, st.cursor.y - 300), st.transparent, st.diffuseNode)
  }

  /** A tree with the output terminal its added nodes end in. */
  datatype Chained = Chained(graph: Graph, out: Terminal)

  /** The nodes that may sit between a texture and the socket it feeds:
      none, or one node of `kind` whose `input` the texture's colour feeds,
      whose `output` feeds on, and whose input defaults are `inputs`. */
  datatype Chain =
    | Direct
    | Through(kind: NodeKind, input: Socket, output: Socket, inputs: map<Socket, Param>)

  /** The Strength default of a bump or normal-map node: set only when the
      intensity is not 1. */
  function StrengthInputs(x: real): map<Socket, Param>
  {
    if x != 1.0 then map[Named("Strength") := Scalar(x)] else map[]
  }

  /** Which chain each map gets: a bump node for the bump map, a normal-map
      node for the normal map, and for the others a multiply node by the
      intensity when there is one and it is not 1. */
  function ChainOf(s: Settings, m: MapKind): Chain
    requires WellFormed(s)
  {
    match m
    case Bump => Through(BumpNode, Named("Height"), Named("Normal"), StrengthInputs(Real(s, BumpmapIntensity)))
    case Normal => Through(NormalMapNode, Named("Color"), Named("Normal"), StrengthInputs(Real(s, NormalmapIntensity)))
    case Diffuse => Direct
    case _ =>
      if Intensity(s, m) != 1.0
      then Through(MultiplyNode, At(0), At(0), map[At(0) := Scalar(1.0), At(1) := Scalar(Intensity(s, m))])
      else Direct
  }

  /** `add_intensity_nodes`: a multiply node when the map has an intensity
      that is not 1, fed by `input`; otherwise `input` itself. */
  function IntensityNodes(s: Settings, g: Graph, m: MapKind, input: Terminal, extra: Location): Chained
    requires WellFormed(s)
  {
    match IntensityName(m)
    case None => Chained(g, input)
    case Some(k) =>
      if Real(s, k) != 1.0 then
        var c := |g.nodes|;
        var g1 := AddNode(g, MultiplyNode, extra, map[At(0) := Scalar(1.0), At(1) := Scalar(Real(s, k))]);
        Chained(AddLink(g1, input, Terminal(c, At(0))), Terminal(c, At(0)))
      else Chained(g, input)
  }

  /** `add_bump_convert_nodes`: a bump node whose Height the texture feeds. */
  function BumpConvertNodes(s: Settings, g: Graph, input: Terminal, extra: Location): Chained
    requires WellFormed(s)
  {
    var c := |g.nodes|;
    var g1 := AddNode(g, BumpNode, extra, StrengthInputs(Real(s, BumpmapIntensity)));
    Chained(AddLink(g1, input, Terminal(c, Named("Height"))), Terminal(c, Named("Normal")))
  }

  /** `add_normal_mapping_nodes`: a normal-map node whose Color the texture
      feeds. */
  function NormalMappingNodes(s: Settings, g: Graph, input: Terminal, extra: Location): Chained
    requires WellFormed(s)
  {
    var c := |g.nodes|;
    var g1 := AddNode(g, NormalMapNode, extra, StrengthInputs(Real(s, NormalmapIntensity)));
    Chained(AddLink(g1, input, Terminal(c, Named("Color"))), Terminal(c, Named("Normal")))
  }

  /** `add_special_nodes_for.get(map)`, falling back to the intensity
      nodes. */
  function SpecialNodes(s: Settings, g: Graph, m: MapKind, input: Terminal, extra: Location): Chained
    requires WellFormed(s)
  {
    match m
    case Bump => BumpConvertNodes(s, g, input, extra)
    case Normal => NormalMappingNodes(s, g, input, extra)
    case _ => IntensityNodes(s, g, m, input, extra)
  }

  /** Whether a map's texture, once placed, flags transparency: the alpha
      map always, the diffuse map when its image has more than 3 channels. */
  predicate FlagsTransparency(m: MapKind, img: Image)
  {
    m == Alpha || (m == Diffuse && img.channels > 3)
  }

  /** The chain a map's texture goes through: the texture node is the
      next node, and the extra node goes one column right of the cursor. */
  function MapChain(s: Settings, st: Synth, m: MapKind, img: Image): Chained
    requires WellFormed(s)
  {
    SpecialNodes(s, AddTexture(st, img).graph, m, Terminal(|st.graph.nodes|, Named("Color")),
                 Location(st.cursor.x + 300, st.cursor.y))
  }

  /** One pass of the map loop: nothing for a map without a texture;
      otherwise its image node, its chain, and a link into the shader. */
  function MapStep(s: Settings, st: Synth, m: MapKind): (r: Synth)
    requires WellFormed(s)
    ensures Extends(st.graph, r.graph)
    ensures r.transparent == (st.transparent || (TextureOf(s, m).Some? && FlagsTransparency(m, TextureOf(s, m).value)))
    ensures r.diffuseNode ==
            if m == Diffuse && TextureOf(s, m).Some? && TextureOf(s, m).value.channels > 3
            then Some(|st.graph.nodes|) else st.diffuseNode
  {
    match TextureOf(s, m)
    case None => st
    case Some(img) =>
      var ch := MapChain(s, st, m, img);
      var flagged := FlagsTransparency(m, img);
      Synth(AddLink(ch.graph, ch.out, Terminal(ShaderIx, Named(BsdfInputName(m)))),
            AddTexture(st, img).cursor,
            st.transparent || flagged,
            if m == Diffuse && flagged then Some(|st.graph.nodes|) else st.diffuseNode)
  }

  /** The state after the first `n` maps of the loop. */
  function MapsPrefix(s: Settings, n: nat): Synth
    requires WellFormed(s) && n <= |LoopOrder|
  {
    if n == 0 then Start(s) else MapStep(s, MapsPrefix(s, n - 1), LoopOrder[n - 1])
  }

  /** The diffuse image's alpha into the shader's Alpha, when transparency
      was flagged, there is no transparency map, and a diffuse node with
      more than 3 channels was recorded. */
  function AlphaFallback(s: Settings, st: Synth): (r: Synth)
    requires WellFormed(s)
    ensures Extends(st.graph, r.graph)
    ensures r.cursor == st.cursor && r.transparent == st.transparent && r.diffuseNode == st.diffuseNode
  {
    if st.transparent && TextureOf(s, Alpha).None? && st.diffuseNode.Some? then
      st.(graph := AddLink(st.graph, Terminal(st.diffuseNode.value, Named("Alpha")), Terminal(ShaderIx, Named("Alpha"))))
    else st
  }

  /** The chain after the displacement image: a multiply node by its
      intensity, placed one slot below the image, since the cursor has
      already moved when its location is taken. */
  function DisplacementChain(s: Settings, st: Synth, img: Image): Chained
    requires WellFormed(s)
  {
    var moved := AddTexture(st, img).cursor;
    IntensityNodes(s, AddTexture(st, img).graph, Displacement, Terminal(|st.graph.nodes|, Named("Color")),
                   Location(moved.x + 300, moved.y))
  }

  /** The displacement map: its image node and chain, linked into the
      material output's Displacement; an image with more than 3 channels
      flags transparency. */
  function DisplacementStep(s: Settings, st: Synth): (r: Synth)
    requires WellFormed(s)
    ensures Extends(st.graph, r.graph)
    ensures r.transparent == (st.transparent || (TextureOf(s, Displacement).Some? && TextureOf(s, Displacement).value.channels > 3))
  {
    match TextureOf(s, Displacement)
    case None => st
    case Some(img) =>
      var ch := DisplacementChain(s, st, img);
      Synth(AddLink(ch.graph, ch.out, Terminal(OutputIx, Named("Displacement"))),
            AddTexture(st, img).cursor, st.transparent || img.channels > 3, st.diffuseNode)
  }

  /** The finished material: its node tree and blend mode. */
  datatype Built = Built(graph: Graph, blend: BlendMethod)

  /** The state once every map, the fallback and displacement are done. */
  function Finished(s: Settings): Synth
    requires WellFormed(s)
  {
    DisplacementStep(s, AlphaFallback(s, MapsPrefix(s, |LoopOrder|)))
  }

  /** The whole synthesis: blend when transparency was seen, and every
      node deselected. */
  function Synthesize(s: Settings): Built
    requires WellFormed(s)
  {
    var st := Finished(s);
    Built(Graph(Deselected(st.graph.nodes), st.graph.links), if st.transparent then Blend else Opaque)
  }
}
