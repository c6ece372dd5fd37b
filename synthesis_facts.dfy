/**
 * What the synthesised node tree is: the skeleton kept, one image node per
 * texture at its layout slot, each texture wired through the right chain
 * into the right shader input, the blend mode and the diffuse-alpha
 * fallback exactly when the importer flags transparency, every link
 * between existing nodes, and nothing left selected.
 */
module SynthesisFacts {
  import opened Wrappers
  import opened Keywords
  import opened Parser
  import opened Maps
  import opened NodeGraph
  import opened Synthesis

  /** Every image node is fed by the fan-out's output. */
  predicate FedByFanout(g: Graph)
  {
    forall i :: 0 <= i < |g.nodes| && g.nodes[i].kind.TexImageNode? ==>
      Link(Terminal(FanoutIx, At(0)), Terminal(i, At(0))) in g.links
  }

  /** No link leaves a socket named "Alpha". */
  predicate NoAlphaOut(g: Graph)
  {
    forall l :: l in g.links ==> l.from.socket != Named("Alpha")
  }

  /** The invariant of the tree under construction. */
  predicate Sound(g: Graph)
  {
    5 <= |g.nodes| && Closed(g) && FedByFanout(g)
  }

  /** Nodes the helpers below add are never image nodes, the links they
      add leave `input`, and they end at `input` or at an output of the one
      node they add, which is not named "Alpha". */
  predicate Tame(g: Graph, r: Chained, input: Terminal)
  {
    && Extends(g, r.graph)
    && |g.nodes| <= |r.graph.nodes| <= |g.nodes| + 1
    && (forall i :: |g.nodes| <= i < |r.graph.nodes| ==> !r.graph.nodes[i].kind.TexImageNode?)
    && (forall l :: l in r.graph.links ==> l in g.links || l.from == input)
    && (r.out == input || (r.out.node == |g.nodes| && r.out.socket != Named("Alpha")))
    && (Closed(g) && input.node < |g.nodes| ==> Closed(r.graph) && r.out.node < |r.graph.nodes|)
  }

  /** `add_intensity_nodes` adds at most a multiply node, fed by `input`. */
  lemma IntensityTame(s: Settings, g: Graph, m: MapKind, input: Terminal, extra: Location)
    requires WellFormed(s)
    ensures Tame(g, IntensityNodes(s, g, m, input, extra), input)
  {
  }

  /** `add_bump_convert_nodes` and `add_normal_mapping_nodes` add one node,
      fed by `input`; so do the intensity nodes they fall back to. */
  lemma SpecialTame(s: Settings, g: Graph, m: MapKind, input: Terminal, extra: Location)
    requires WellFormed(s)
    ensures Tame(g, SpecialNodes(s, g, m, input, extra), input)
  {
    if m != Bump && m != Normal {
      IntensityTame(s, g, m, input, extra);
    }
  }

  /** A map's chain after its image node is tame. */
  lemma MapChainTame(s: Settings, st: Synth, m: MapKind, img: Image)
    requires WellFormed(s)
    ensures Tame(AddTexture(st, img).graph, MapChain(s, st, m, img), Terminal(|st.graph.nodes|, Named("Color")))
  {
    SpecialTame(s, AddTexture(st, img).graph, m, Terminal(|st.graph.nodes|, Named("Color")),
                Location(st.cursor.x + 300, st.cursor.y));
  }

  /** A map step with a texture is its image node, its chain and the link
      from the chain's end into the shader. */
  lemma MapStepParts(s: Settings, st: Synth, m: MapKind)
    requires WellFormed(s) && TextureOf(s, m).Some?
    ensures MapStep(s, st, m).graph ==
            AddLink(MapChain(s, st, m, TextureOf(s, m).value).graph, MapChain(s, st, m, TextureOf(s, m).value).out,
                    Terminal(ShaderIx, Named(BsdfInputName(m))))
    ensures MapStep(s, st, m).cursor == Location(st.cursor.x, st.cursor.y - 300)
  {
  }

  /** Adding an image node keeps the invariant and adds no "Alpha" link. */
  lemma AddTextureSound(st: Synth, img: Image)
    requires Sound(st.graph)
    ensures Sound(AddTexture(st, img).graph)
    ensures NoAlphaOut(st.graph) ==> NoAlphaOut(AddTexture(st, img).graph)
  {
    var g := AddTexture(st, img).graph;
    var t := |st.graph.nodes|;
    forall i | 0 <= i < |g.nodes| && g.nodes[i].kind.TexImageNode?
      ensures Link(Terminal(FanoutIx, At(0)), Terminal(i, At(0))) in g.links
    {
      if i < t {
        assert g.nodes[i] == st.graph.nodes[i];
      }
    }
  }

  /** A chain added after a texture keeps the invariant. */
  lemma ChainSound(g: Graph, r: Chained, input: Terminal)
    requires Sound(g) && Tame(g, r, input) && input.node < |g.nodes|
    ensures Sound(r.graph) && r.out.node < |r.graph.nodes|
    ensures NoAlphaOut(g) && input.socket != Named("Alpha") ==> NoAlphaOut(r.graph)
  {
    forall i | 0 <= i < |r.graph.nodes| && r.graph.nodes[i].kind.TexImageNode?
      ensures Link(Terminal(FanoutIx, At(0)), Terminal(i, At(0))) in r.graph.links
    {
      assert i < |g.nodes| && r.graph.nodes[i] == g.nodes[i];
    }
  }

  /** A link between existing nodes keeps the invariant. */
  lemma LinkSound(g: Graph, from: Terminal, to: Terminal)
    requires Sound(g) && from.node < |g.nodes| && to.node < |g.nodes|
    ensures Sound(AddLink(g, from, to))
    ensures NoAlphaOut(g) && from.socket != Named("Alpha") ==> NoAlphaOut(AddLink(g, from, to))
  {
    var r := AddLink(g, from, to);
    forall i | 0 <= i < |r.nodes| && r.nodes[i].kind.TexImageNode?
      ensures Link(Terminal(FanoutIx, At(0)), Terminal(i, At(0))) in r.links
    {
    }
  }

  /** An image node, a chain after it and a link on keep the invariant. */
  lemma PlaceSound(st: Synth, img: Image, ch: Chained, to: Terminal)
    requires Sound(st.graph) && to.node < 5
    requires Tame(AddTexture(st, img).graph, ch, Terminal(|st.graph.nodes|, Named("Color")))
    ensures Sound(AddLink(ch.graph, ch.out, to))
    ensures NoAlphaOut(st.graph) ==> NoAlphaOut(AddLink(ch.graph, ch.out, to))
    ensures forall l :: l in AddLink(ch.graph, ch.out, to).links && l.from.socket == Named("Alpha") ==> l in st.graph.links
  {
    var st1 := AddTexture(st, img);
    AddTextureSound(st, img);
    ChainSound(st1.graph, ch, Terminal(|st.graph.nodes|, Named("Color")));
    LinkSound(ch.graph, ch.out, to);
    forall l | l in AddLink(ch.graph, ch.out, to).links && l.from.socket == Named("Alpha")
      ensures l in st.graph.links
    {
      assert l in ch.graph.links;
      assert l in st1.graph.links;
    }
  }

  /** One map step keeps the invariant and adds no "Alpha" link. */
  lemma StepSound(s: Settings, st: Synth, m: MapKind)
    requires WellFormed(s) && Sound(st.graph)
    ensures Sound(MapStep(s, st, m).graph)
    ensures NoAlphaOut(st.graph) ==> NoAlphaOut(MapStep(s, st, m).graph)
  {
    if TextureOf(s, m).Some? {
      MapChainTame(s, st, m, TextureOf(s, m).value);
      MapStepParts(s, st, m);
      PlaceSound(st, TextureOf(s, m).value, MapChain(s, st, m, TextureOf(s, m).value),
                 Terminal(ShaderIx, Named(BsdfInputName(m))));
    }
  }

  /** The skeleton satisfies the invariant and has no "Alpha" link. */
  lemma SkeletonSound(s: Settings)
    requires WellFormed(s)
    ensures Sound(Skeleton(s)) && NoAlphaOut(Skeleton(s))
  {
  }

  /** Every prefix of the map loop keeps the invariant and adds no "Alpha"
      link. */
  lemma {:induction false} PrefixSound(s: Settings, n: nat)
    requires WellFormed(s) && n <= |LoopOrder|
    ensures Sound(MapsPrefix(s, n).graph) && NoAlphaOut(MapsPrefix(s, n).graph)
  {
    if n == 0 {
      SkeletonSound(s);
    } else {
      PrefixSound(s, n - 1);
      StepSound(s, MapsPrefix(s, n - 1), LoopOrder[n - 1]);
    }
  }

  /** Later prefixes of the map loop extend earlier ones. */
  lemma {:induction false} PrefixExtends(s: Settings, n: nat, m: nat)
    requires WellFormed(s) && n <= m <= |LoopOrder|
    ensures Extends(MapsPrefix(s, n).graph, MapsPrefix(s, m).graph)
    decreases m - n
  {
    if n < m {
      PrefixExtends(s, n, m - 1);
    }
  }

  /** A map's image and where it was placed. */
  datatype Placement = Placement(image: Image, location: Location)

  /** The image nodes among `nodes`, in creation order, with their
      locations. */
  function Placements(nodes: seq<Node>): seq<Placement>
  {
    if nodes == [] then []
    else
      var last := nodes[|nodes| - 1];
      Placements(nodes[..|nodes| - 1]) +
        match last.kind
        case TexImageNode(img) => [Placement(img, last.location)]
        case _ => []
  }

  /** The images set for the maps in `ms`, in that order. */
  function SetImages(s: Settings, ms: seq<MapKind>): seq<Image>
    requires WellFormed(s)
  {
    if ms == [] then []
    else
      SetImages(s, ms[..|ms| - 1]) +
        match TextureOf(s, ms[|ms| - 1])
        case Some(img) => [img]
        case None => []
  }

  /** The layout slots: x = -100 and y = 0, -300, -600, ... in turn. */
  function Slots(images: seq<Image>): (r: seq<Placement>)
    ensures |r| == |images|
    ensures forall i :: 0 <= i < |r| ==> r[i] == Placement(images[i], Location(-100, -300 * i))
  {
    seq(|images|, i requires 0 <= i < |images| => Placement(images[i], Location(-100, -300 * i)))
  }

  lemma PlacementsAppend(nodes: seq<Node>, n: Node)
    ensures Placements(nodes + [n]) == Placements(nodes) +
              match n.kind
              case TexImageNode(img) => [Placement(img, n.location)]
              case _ => []
  {
    assert (nodes + [n])[..|nodes|] == nodes;
  }

  lemma {:induction false} NoPlacements(nodes: seq<Node>)
    requires forall i :: 0 <= i < |nodes| ==> !nodes[i].kind.TexImageNode?
    ensures Placements(nodes) == []
  {
    if nodes != [] {
      NoPlacements(nodes[..|nodes| - 1]);
    }
  }

  lemma {:induction false} PlacementsDeselected(nodes: seq<Node>)
    ensures Placements(Deselected(nodes)) == Placements(nodes)
  {
    if nodes != [] {
      var init := nodes[..|nodes| - 1];
      assert Deselected(nodes)[..|nodes| - 1] == Deselected(init);
      PlacementsDeselected(init);
    }
  }

  lemma SlotsAppend(images: seq<Image>, img: Image)
    ensures Slots(images + [img]) == Slots(images) + [Placement(img, Location(-100, -300 * |images|))]
  {
  }

  lemma SkeletonHasNoImages(s: Settings)
    requires WellFormed(s)
    ensures Placements(Skeleton(s).nodes) == []
  {
    NoPlacements(Skeleton(s).nodes);
  }

  /** An image node with a chain after it and a link on adds exactly one
      placement: the image at the cursor. */
  lemma PlaceAddsOneImage(st: Synth, img: Image, ch: Chained, input: Terminal, to: Terminal)
    requires Tame(AddTexture(st, img).graph, ch, input)
    ensures Placements(AddLink(ch.graph, ch.out, to).nodes) == Placements(st.graph.nodes) + [Placement(img, st.cursor)]
  {
    var nodes1 := AddTexture(st, img).graph.nodes;
    assert nodes1 == st.graph.nodes + [Node(TexImageNode(img), st.cursor, map[], true)];
    PlacementsAppend(st.graph.nodes, Node(TexImageNode(img), st.cursor, map[], true));
    PlacementsGrow(nodes1, ch.graph.nodes);
  }

  /** Appending at most one node that is not an image node adds no
      placement. */
  lemma PlacementsGrow(nodes: seq<Node>, more: seq<Node>)
    requires nodes <= more && |more| <= |nodes| + 1
    requires forall i :: |nodes| <= i < |more| ==> !more[i].kind.TexImageNode?
    ensures Placements(more) == Placements(nodes)
  {
    if |more| > |nodes| {
      assert more == nodes + [more[|nodes|]];
      PlacementsAppend(nodes, more[|nodes|]);
    } else {
      assert more == nodes;
    }
  }

  /** A map step places the map's image, if set, at the cursor and moves
      the cursor one slot down; otherwise it changes neither. */
  lemma StepPlaces(s: Settings, st: Synth, m: MapKind)
    requires WellFormed(s)
    ensures Placements(MapStep(s, st, m).graph.nodes) == Placements(st.graph.nodes) +
              match TextureOf(s, m)
              case Some(img) => [Placement(img, st.cursor)]
              case None => []
    ensures MapStep(s, st, m).cursor ==
              if TextureOf(s, m).Some? then Location(st.cursor.x, st.cursor.y - 300) else st.cursor
  {
    if TextureOf(s, m).Some? {
      MapChainTame(s, st, m, TextureOf(s, m).value);
      MapStepParts(s, st, m);
      PlaceAddsOneImage(st, TextureOf(s, m).value, MapChain(s, st, m, TextureOf(s, m).value),
                        Terminal(|st.graph.nodes|, Named("Color")), Terminal(ShaderIx, Named(BsdfInputName(m))));
    }
  }

  /** After the first `n` maps, the image nodes are the set textures among
      them in loop order, in consecutive slots, and the cursor is at the
      next slot. */
  lemma {:induction false} PrefixPlaces(s: Settings, n: nat)
    requires WellFormed(s) && n <= |LoopOrder|
    ensures Placements(MapsPrefix(s, n).graph.nodes) == Slots(SetImages(s, LoopOrder[..n]))
    ensures MapsPrefix(s, n).cursor == Location(-100, -300 * |SetImages(s, LoopOrder[..n])|)
  {
    if n == 0 {
      SkeletonHasNoImages(s);
    } else {
      PrefixPlaces(s, n - 1);
      SetImagesStep(s, n);
      SlotStep(s, MapsPrefix(s, n - 1), LoopOrder[n - 1], SetImages(s, LoopOrder[..n - 1]));
    }
  }

  /** The images of the first `n` maps are those of the first `n - 1`
      followed by the `n`th map's, if set. */
  lemma SetImagesStep(s: Settings, n: nat)
    requires WellFormed(s) && 0 < n <= |LoopOrder|
    ensures SetImages(s, LoopOrder[..n]) == SetImages(s, LoopOrder[..n - 1]) +
              match TextureOf(s, LoopOrder[n - 1]) case Some(img) => [img] case None => []
  {
    assert LoopOrder[..n][..n - 1] == LoopOrder[..n - 1];
  }

  /** A map step on images in consecutive slots, with the cursor at the
      next slot, keeps them so with the map's image, if set, appended. */
  lemma SlotStep(s: Settings, st: Synth, m: MapKind, images: seq<Image>)
    requires WellFormed(s)
    requires Placements(st.graph.nodes) == Slots(images) && st.cursor == Location(-100, -300 * |images|)
    ensures var more := match TextureOf(s, m) case Some(img) => [img] case None => [];
            && Placements(MapStep(s, st, m).graph.nodes) == Slots(images + more)
            && MapStep(s, st, m).cursor == Location(-100, -300 * |images + more|)
  {
    StepPlaces(s, st, m);
    if TextureOf(s, m).Some? {
      SlotsAppend(images, TextureOf(s, m).value);
    } else {
      assert images + [] == images;
    }
  }

  /** The displacement step places its image, if set, at the cursor. */
  lemma DisplacementPlaces(s: Settings, st: Synth)
    requires WellFormed(s)
    ensures Placements(DisplacementStep(s, st).graph.nodes) == Placements(st.graph.nodes) +
              match TextureOf(s, Displacement)
              case Some(img) => [Placement(img, st.cursor)]
              case None => []
  {
    if TextureOf(s, Displacement).Some? {
      PlaceAddsOneImage(st, TextureOf(s, Displacement).value, DisplacementChain(s, st, TextureOf(s, Displacement).value),
                        Terminal(|st.graph.nodes|, Named("Color")), Terminal(OutputIx, Named("Displacement")));
    }
  }

  /** The displacement texture comes after the loop's. */
  lemma SetImagesWithDisplacement(s: Settings)
    requires WellFormed(s)
    ensures SetImages(s, LoopOrder + [Displacement]) == SetImages(s, LoopOrder) +
              match TextureOf(s, Displacement)
              case Some(img) => [img]
              case None => []
  {
    assert (LoopOrder + [Displacement])[..|LoopOrder|] == LoopOrder;
  }

  /** The image nodes of the finished tree, before deselection. */
  lemma FinishedPlaces(s: Settings)
    requires WellFormed(s)
    ensures Placements(Finished(s).graph.nodes) == Slots(SetImages(s, LoopOrder + [Displacement]))
  {
    PrefixPlaces(s, |LoopOrder|);
    assert LoopOrder[..|LoopOrder|] == LoopOrder;
    DisplacementPlaces(s, AlphaFallback(s, MapsPrefix(s, |LoopOrder|)));
    SetImagesWithDisplacement(s);
    if TextureOf(s, Displacement).Some? {
      SlotsAppend(SetImages(s, LoopOrder), TextureOf(s, Displacement).value);
    }
  }

  /** Each set texture gets exactly one image node: diffuse, specular,
      alpha, normal, bump, then displacement, at x = -100 and y = 0, -300,
      -600, ... with no gap for a map left unset. */
  lemma TexturesPlaced(s: Settings)
    requires WellFormed(s)
    ensures Placements(Synthesize(s).graph.nodes) == Slots(SetImages(s, LoopOrder + [Displacement]))
  {
    FinishedPlaces(s);
    PlacementsDeselected(Finished(s).graph.nodes);
  }

  /** Where a map's chain ends: the shader input the enum names, except
      that displacement goes to the material output. */
  function Destination(m: MapKind): Terminal
  {
    if m == Displacement then Terminal(OutputIx, Named("Displacement"))
    else Terminal(ShaderIx, Named(BsdfInputName(m)))
  }

  /** Image node `t` feeds `dst` through `chain`: its Color straight into
      `dst`, or into the chain node's input, whose output feeds `dst`; the
      chain node sits one column (300) right of the image and `dy` lower. */
  predicate Feeds(g: Graph, t: nat, chain: Chain, dst: Terminal, dy: int)
    requires t < |g.nodes|
  {
    match chain
    case Direct => Link(Terminal(t, Named("Color")), dst) in g.links
    case Through(kind, input, output, inputs) =>
      exists c :: 0 <= c < |g.nodes| && g.nodes[c].kind == kind && g.nodes[c].inputs == inputs
        && g.nodes[c].location == Location(g.nodes[t].location.x + 300, g.nodes[t].location.y + dy)
        && Link(Terminal(t, Named("Color")), Terminal(c, input)) in g.links
        && Link(Terminal(c, output), dst) in g.links
  }

  /** Some image node of `img` feeds `dst` through `chain`. */
  predicate Wired(g: Graph, img: Image, chain: Chain, dst: Terminal, dy: int)
  {
    exists t :: 0 <= t < |g.nodes| && g.nodes[t].kind == TexImageNode(img) && Feeds(g, t, chain, dst, dy)
  }

  /** The node a chain adds at `at`: none when it is direct. */
  function ChainNodes(chain: Chain, at: Location): seq<Node>
  {
    match chain
    case Direct => []
    case Through(kind, _, _, inputs) => [Node(kind, at, inputs, true)]
  }

  /** The link a chain adds from image node `t` into its node `c`: none
      when it is direct. */
  function ChainLinks(chain: Chain, t: nat, c: nat): seq<Link>
  {
    match chain
    case Direct => []
    case Through(_, input, _, _) => [Link(Terminal(t, Named("Color")), Terminal(c, input))]
  }

  /** Where a chain from image node `t` through node `c` ends. */
  function ChainEnd(chain: Chain, t: nat, c: nat): Terminal
  {
    match chain
    case Direct => Terminal(t, Named("Color"))
    case Through(_, _, output, _) => Terminal(c, output)
  }

  /** The helpers' result follows `chain` from image node `t`: they add
      the chain's node after the existing ones, its one link, and nothing
      else. */
  predicate Follows(g: Graph, r: Chained, t: nat, chain: Chain, extra: Location)
  {
    && r.graph.nodes == g.nodes + ChainNodes(chain, extra)
    && r.graph.links == g.links + ChainLinks(chain, t, |g.nodes|)
    && r.out == ChainEnd(chain, t, |g.nodes|)
  }

  /** `add_intensity_nodes` builds the chain `ChainOf` names. */
  lemma IntensityFollows(s: Settings, g: Graph, m: MapKind, t: nat, extra: Location)
    requires WellFormed(s) && m != Bump && m != Normal
    ensures Follows(g, IntensityNodes(s, g, m, Terminal(t, Named("Color")), extra), t, ChainOf(s, m), extra)
  {
  }

  /** The special nodes, or the intensity nodes, build the chain `ChainOf`
      names. */
  lemma SpecialFollows(s: Settings, g: Graph, m: MapKind, t: nat, extra: Location)
    requires WellFormed(s)
    ensures Follows(g, SpecialNodes(s, g, m, Terminal(t, Named("Color")), extra), t, ChainOf(s, m), extra)
  {
    if m != Bump && m != Normal {
      IntensityFollows(s, g, m, t, extra);
    }
  }

  /** An image node, a chain after it following `chain`, and a link from
      its end into `to` wire the image into `to`. */
  lemma PlaceWires(st: Synth, img: Image, ch: Chained, chain: Chain, to: Terminal, dy: int)
    requires Extends(AddTexture(st, img).graph, ch.graph)
    requires Follows(AddTexture(st, img).graph, ch, |st.graph.nodes|, chain,
                     Location(st.cursor.x + 300, st.cursor.y + dy))
    ensures Wired(AddLink(ch.graph, ch.out, to), img, chain, to, dy)
  {
    var g1 := AddTexture(st, img).graph;
    var g := AddLink(ch.graph, ch.out, to);
    var t := |st.graph.nodes|;
    assert g.nodes[t] == g1.nodes[t];
    match chain
    case Direct =>
      assert Feeds(g, t, chain, to, dy);
    case Through(kind, input, output, inputs) =>
      var c := |g1.nodes|;
      assert g.nodes[c] == Node(kind, Location(st.cursor.x + 300, st.cursor.y + dy), inputs, true);
      assert Feeds(g, t, chain, to, dy);
  }

  /** A map step with the map's texture set wires it into its shader
      input. */
  lemma StepWires(s: Settings, st: Synth, m: MapKind)
    requires WellFormed(s) && m != Displacement && TextureOf(s, m).Some?
    ensures Wired(MapStep(s, st, m).graph, TextureOf(s, m).value, ChainOf(s, m), Destination(m), 0)
  {
    SpecialFollows(s, AddTexture(st, TextureOf(s, m).value).graph, m, |st.graph.nodes|,
                   Location(st.cursor.x + 300, st.cursor.y));
    PlaceWires(st, TextureOf(s, m).value, MapChain(s, st, m, TextureOf(s, m).value), ChainOf(s, m),
               Terminal(ShaderIx, Named(BsdfInputName(m))), 0);
  }

  /** The displacement step wires its texture into the material output,
      its chain node one slot below the image. */
  lemma DisplacementWires(s: Settings, st: Synth)
    requires WellFormed(s) && TextureOf(s, Displacement).Some?
    ensures Wired(DisplacementStep(s, st).graph, TextureOf(s, Displacement).value, ChainOf(s, Displacement),
                  Destination(Displacement), -300)
  {
    IntensityFollows(s, AddTexture(st, TextureOf(s, Displacement).value).graph, Displacement, |st.graph.nodes|,
                     Location(st.cursor.x + 300, st.cursor.y - 300));
    PlaceWires(st, TextureOf(s, Displacement).value, DisplacementChain(s, st, TextureOf(s, Displacement).value),
               ChainOf(s, Displacement), Terminal(OutputIx, Named("Displacement")), -300);
  }

  /** Adding nodes and links keeps a wiring. */
  lemma WiredExtends(g: Graph, r: Graph, img: Image, chain: Chain, dst: Terminal, dy: int)
    requires Extends(g, r) && Wired(g, img, chain, dst, dy)
    ensures Wired(r, img, chain, dst, dy)
  {
    var t :| 0 <= t < |g.nodes| && g.nodes[t].kind == TexImageNode(img) && Feeds(g, t, chain, dst, dy);
    assert r.nodes[t] == g.nodes[t];
    match chain
    case Direct =>
      assert Feeds(r, t, chain, dst, dy);
    case Through(kind, input, output, inputs) =>
      var c :| 0 <= c < |g.nodes| && g.nodes[c].kind == kind && g.nodes[c].inputs == inputs
        && g.nodes[c].location == Location(g.nodes[t].location.x + 300, g.nodes[t].location.y + dy)
        && Link(Terminal(t, Named("Color")), Terminal(c, input)) in g.links
        && Link(Terminal(c, output), dst) in g.links;
      assert r.nodes[c] == g.nodes[c];
      assert Feeds(r, t, chain, dst, dy);
  }

  /** Clearing the selection keeps a wiring. */
  lemma WiredDeselected(g: Graph, img: Image, chain: Chain, dst: Terminal, dy: int)
    requires Wired(g, img, chain, dst, dy)
    ensures Wired(Graph(Deselected(g.nodes), g.links), img, chain, dst, dy)
  {
    var r := Graph(Deselected(g.nodes), g.links);
    var t :| 0 <= t < |g.nodes| && g.nodes[t].kind == TexImageNode(img) && Feeds(g, t, chain, dst, dy);
    match chain
    case Direct =>
      assert Feeds(r, t, chain, dst, dy);
    case Through(kind, input, output, inputs) =>
      var c :| 0 <= c < |g.nodes| && g.nodes[c].kind == kind && g.nodes[c].inputs == inputs
        && g.nodes[c].location == Location(g.nodes[t].location.x + 300, g.nodes[t].location.y + dy)
        && Link(Terminal(t, Named("Color")), Terminal(c, input)) in g.links
        && Link(Terminal(c, output), dst) in g.links;
      assert Feeds(r, t, chain, dst, dy);
  }

  /** The position of a loop map in the loop. */
  function LoopIndex(m: MapKind): (i: nat)
    requires m != Displacement
    ensures i < |LoopOrder| && LoopOrder[i] == m
  {
    match m
    case Diffuse => 0
    case Specular => 1
    case Alpha => 2
    case Normal => 3
    case Bump => 4
  }

  /** The tree after the loop, fallback and displacement extends every
      prefix of the loop. */
  lemma FinishedExtendsPrefix(s: Settings, n: nat)
    requires WellFormed(s) && n <= |LoopOrder|
    ensures Extends(MapsPrefix(s, n).graph, Finished(s).graph)
  {
    PrefixExtends(s, n, |LoopOrder|);
  }

  /** In the finished tree, before deselection, every set texture is wired. */
  lemma FinishedWired(s: Settings, m: MapKind)
    requires WellFormed(s) && TextureOf(s, m).Some?
    ensures Wired(Finished(s).graph, TextureOf(s, m).value, ChainOf(s, m), Destination(m),
                  if m == Displacement then -300 else 0)
  {
    if m == Displacement {
      DisplacementWires(s, AlphaFallback(s, MapsPrefix(s, |LoopOrder|)));
    } else {
      StepWires(s, MapsPrefix(s, LoopIndex(m)), m);
      FinishedExtendsPrefix(s, LoopIndex(m) + 1);
      WiredExtends(MapsPrefix(s, LoopIndex(m) + 1).graph, Finished(s).graph,
                   TextureOf(s, m).value, ChainOf(s, m), Destination(m), 0);
    }
  }

  /** Every set texture reaches its destination through the chain its map
      calls for: bump through a bump node's Height, normal through a
      normal-map node's Color, the others straight or through a multiply
      node by their intensity when it is not 1. */
  lemma EveryTextureWired(s: Settings, m: MapKind)
    requires WellFormed(s) && TextureOf(s, m).Some?
    ensures Wired(Synthesize(s).graph, TextureOf(s, m).value, ChainOf(s, m), Destination(m),
                  if m == Displacement then -300 else 0)
  {
    FinishedWired(s, m);
    WiredDeselected(Finished(s).graph, TextureOf(s, m).value, ChainOf(s, m), Destination(m),
                    if m == Displacement then -300 else 0);
  }

  /** A map step with its texture set adds exactly the image node at the
      cursor and its chain's node one column right, the fan-out link, the
      chain's link, and the link from the chain's end into the map's
      destination: a map adds nothing else. */
  lemma StepAddsOnlyChain(s: Settings, st: Synth, m: MapKind)
    requires WellFormed(s) && m != Displacement && TextureOf(s, m).Some?
    ensures var t := |st.graph.nodes|;
            && MapStep(s, st, m).graph.nodes ==
               st.graph.nodes + [Node(TexImageNode(TextureOf(s, m).value), st.cursor, map[], true)]
               + ChainNodes(ChainOf(s, m), Location(st.cursor.x + 300, st.cursor.y))
            && MapStep(s, st, m).graph.links ==
               st.graph.links + [Link(Terminal(FanoutIx, At(0)), Terminal(t, At(0)))]
               + ChainLinks(ChainOf(s, m), t, t + 1) + [Link(ChainEnd(ChainOf(s, m), t, t + 1), Destination(m))]
  {
    SpecialFollows(s, AddTexture(st, TextureOf(s, m).value).graph, m, |st.graph.nodes|,
                   Location(st.cursor.x + 300, st.cursor.y));
    MapStepParts(s, st, m);
  }

  /** The displacement step with its texture set adds exactly the image
      node, its chain's node one column right and one slot lower, the
      fan-out link, the chain's link, and the link into the material
      output's Displacement. */
  lemma DisplacementAddsOnlyChain(s: Settings, st: Synth)
    requires WellFormed(s) && TextureOf(s, Displacement).Some?
    ensures var t := |st.graph.nodes|;
            && DisplacementStep(s, st).graph.nodes ==
               st.graph.nodes + [Node(TexImageNode(TextureOf(s, Displacement).value), st.cursor, map[], true)]
               + ChainNodes(ChainOf(s, Displacement), Location(st.cursor.x + 300, st.cursor.y - 300))
            && DisplacementStep(s, st).graph.links ==
               st.graph.links + [Link(Terminal(FanoutIx, At(0)), Terminal(t, At(0)))]
               + ChainLinks(ChainOf(s, Displacement), t, t + 1)
               + [Link(ChainEnd(ChainOf(s, Displacement), t, t + 1), Destination(Displacement))]
  {
    IntensityFollows(s, AddTexture(st, TextureOf(s, Displacement).value).graph, Displacement, |st.graph.nodes|,
                     Location(st.cursor.x + 300, st.cursor.y - 300));
  }

  /** What a map with its texture set contributes: its image, and the
      chain after it. */
  datatype Plan = Plan(image: Image, chain: Chain)

  /** The plan of every map whose texture is set. */
  function Plans(s: Settings): map<MapKind, Plan>
    requires WellFormed(s)
  {
    map m | m in {Alpha, Bump, Diffuse, Displacement, Normal, Specular} && TextureOf(s, m).Some? ::
      Plan(TextureOf(s, m).value, ChainOf(s, m))
  }

  /** A map has a plan exactly when its texture is set, and the plan is
      that texture and the chain its map calls for. */
  lemma PlanOf(s: Settings, m: MapKind)
    requires WellFormed(s)
    ensures m in Plans(s) <==> TextureOf(s, m).Some?
    ensures m in Plans(s) ==> Plans(s)[m] == Plan(TextureOf(s, m).value, ChainOf(s, m))
  {
    assert m in {Alpha, Bump, Diffuse, Displacement, Normal, Specular};
  }

  /** `from` is the end of the chain `p` plans in `g`: the Color of an
      image node of its image when the chain is direct, otherwise the
      output of a node of the chain's kind that the image node just before
      it feeds. */
  predicate EndsChain(g: Graph, from: Terminal, p: Plan)
  {
    && from.node < |g.nodes|
    && match p.chain
       case Direct =>
         from.socket == Named("Color") && g.nodes[from.node].kind == TexImageNode(p.image)
       case Through(kind, input, output, _) =>
         && 1 <= from.node && from.socket == output && g.nodes[from.node].kind == kind
         && g.nodes[from.node - 1].kind == TexImageNode(p.image)
         && Link(Terminal(from.node - 1, Named("Color")), Terminal(from.node, input)) in g.links
  }

  /** Every link into a fixed node is a skeleton link, leaves an "Alpha"
      socket, or runs from the end of some planned map's chain into that
      map's destination. */
  predicate OnlyChainsIntoFixed(plans: map<MapKind, Plan>, g: Graph)
  {
    forall l :: l in g.links && l.to.node < 5 ==>
      l in SkeletonLinks || l.from.socket == Named("Alpha")
      || exists m :: m in plans && l.to == Destination(m) && EndsChain(g, l.from, plans[m])
  }

  /** Adding nodes and links, or clearing the selection, keeps a chain's
      end. */
  lemma EndsChainExtends(g: Graph, r: Graph, from: Terminal, p: Plan)
    requires EndsChain(g, from, p)
    requires Extends(g, r) || r == Graph(Deselected(g.nodes), g.links)
    ensures EndsChain(r, from, p)
  {
    assert r.nodes[from.node].kind == g.nodes[from.node].kind;
    if p.chain.Through? {
      assert r.nodes[from.node - 1].kind == g.nodes[from.node - 1].kind;
    }
  }

  /** Adding nodes and links, or clearing the selection, keeps the
      invariant for the links already there. */
  lemma OnlyChainsKept(plans: map<MapKind, Plan>, g: Graph, r: Graph, l: Link)
    requires OnlyChainsIntoFixed(plans, g) && l in g.links && l.to.node < 5
    requires Extends(g, r) || r == Graph(Deselected(g.nodes), g.links)
    ensures l in SkeletonLinks || l.from.socket == Named("Alpha")
            || exists m :: m in plans && l.to == Destination(m) && EndsChain(r, l.from, plans[m])
  {
    if !(l in SkeletonLinks || l.from.socket == Named("Alpha")) {
      var m :| m in plans && l.to == Destination(m) && EndsChain(g, l.from, plans[m]);
      EndsChainExtends(g, r, l.from, plans[m]);
    }
  }

  /** The link a step adds into a map's destination leaves the end of its
      chain. */
  lemma NewChainEnds(g: Graph, p: Plan, t: nat)
    requires t + 1 <= |g.nodes| && g.nodes[t].kind == TexImageNode(p.image)
    requires p.chain.Through? ==>
               t + 2 <= |g.nodes| && g.nodes[t + 1].kind == p.chain.kind
               && Link(Terminal(t, Named("Color")), Terminal(t + 1, p.chain.input)) in g.links
    ensures EndsChain(g, ChainEnd(p.chain, t, t + 1), p)
  {
  }

  /** A step given as the exact nodes and links it adds extends the tree,
      and the link it adds last leaves the end of the chain `p` plans. */
  lemma AddedChainEnds(g: Graph, r: Graph, p: Plan, at: Location, extra: Location, last: Terminal)
    requires r.nodes == g.nodes + [Node(TexImageNode(p.image), at, map[], true)] + ChainNodes(p.chain, extra)
    requires r.links == g.links + [Link(Terminal(FanoutIx, At(0)), Terminal(|g.nodes|, At(0)))]
               + ChainLinks(p.chain, |g.nodes|, |g.nodes| + 1) + [Link(ChainEnd(p.chain, |g.nodes|, |g.nodes| + 1), last)]
    ensures Extends(g, r)
    ensures EndsChain(r, ChainEnd(p.chain, |g.nodes|, |g.nodes| + 1), p)
  {
    var t := |g.nodes|;
    assert r.nodes[t].kind == TexImageNode(p.image);
    if p.chain.Through? {
      assert r.nodes[t + 1].kind == p.chain.kind;
      assert r.links[|g.links| + 1] == Link(Terminal(t, Named("Color")), Terminal(t + 1, p.chain.input));
    }
    NewChainEnds(r, p, t);
  }

  /** One step, the map's or displacement's, given as the exact nodes and
      links it adds, keeps the invariant. */
  lemma AddedChainKeeps(plans: map<MapKind, Plan>, g: Graph, r: Graph, m: MapKind, p: Plan, at: Location, extra: Location)
    requires 5 <= |g.nodes| && OnlyChainsIntoFixed(plans, g) && m in plans && plans[m] == p
    requires r.nodes == g.nodes + [Node(TexImageNode(p.image), at, map[], true)] + ChainNodes(p.chain, extra)
    requires r.links == g.links + [Link(Terminal(FanoutIx, At(0)), Terminal(|g.nodes|, At(0)))]
               + ChainLinks(p.chain, |g.nodes|, |g.nodes| + 1)
               + [Link(ChainEnd(p.chain, |g.nodes|, |g.nodes| + 1), Destination(m))]
    ensures OnlyChainsIntoFixed(plans, r)
  {
    var t := |g.nodes|;
    AddedChainEnds(g, r, p, at, extra, Destination(m));
    var last := Link(ChainEnd(p.chain, t, t + 1), Destination(m));
    NewLinksIntoFixed(g.links, r.links, ChainLinks(p.chain, t, t + 1), t, last);
    forall l | l in r.links && l.to.node < 5
      ensures l in SkeletonLinks || l.from.socket == Named("Alpha")
              || exists m' :: m' in plans && l.to == Destination(m') && EndsChain(r, l.from, plans[m'])
    {
      if l in g.links {
        OnlyChainsKept(plans, g, r, l);
      } else {
        assert l == last;
      }
    }
  }

  /** Of the links a step adds, only the last can end in a fixed node: the
      others end at the new image node or the chain's node. */
  lemma NewLinksIntoFixed(before: seq<Link>, links: seq<Link>, chainLinks: seq<Link>, t: nat, last: Link)
    requires 5 <= t && forall l :: l in chainLinks ==> l.to.node == t + 1
    requires links == before + [Link(Terminal(FanoutIx, At(0)), Terminal(t, At(0)))] + chainLinks + [last]
    ensures forall l :: l in links && l.to.node < 5 ==> l in before || l == last
  {
  }

  /** A map step keeps the invariant. */
  lemma StepOnlyChains(s: Settings, st: Synth, m: MapKind)
    requires WellFormed(s) && m != Displacement && 5 <= |st.graph.nodes| && OnlyChainsIntoFixed(Plans(s), st.graph)
    ensures OnlyChainsIntoFixed(Plans(s), MapStep(s, st, m).graph)
  {
    if TextureOf(s, m).Some? {
      StepAddsOnlyChain(s, st, m);
      PlanOf(s, m);
      AddedChainKeeps(Plans(s), st.graph, MapStep(s, st, m).graph, m, Plan(TextureOf(s, m).value, ChainOf(s, m)),
                      st.cursor, Location(st.cursor.x + 300, st.cursor.y));
    }
  }

  /** Every prefix of the loop keeps the invariant. */
  lemma {:induction false} PrefixOnlyChains(s: Settings, n: nat)
    requires WellFormed(s) && n <= |LoopOrder|
    ensures OnlyChainsIntoFixed(Plans(s), MapsPrefix(s, n).graph)
  {
    if n > 0 {
      PrefixOnlyChains(s, n - 1);
      PrefixSound(s, n - 1);
      assert MapsPrefix(s, n).graph == MapStep(s, MapsPrefix(s, n - 1), LoopOrder[n - 1]).graph;
      StepOnlyChains(s, MapsPrefix(s, n - 1), LoopOrder[n - 1]);
    }
  }

  /** The tree after the loop and the fallback keeps the invariant: the
      fallback's link leaves "Alpha". */
  lemma FallbackOnlyChains(s: Settings)
    requires WellFormed(s)
    ensures OnlyChainsIntoFixed(Plans(s), AlphaFallback(s, MapsPrefix(s, |LoopOrder|)).graph)
    ensures 5 <= |AlphaFallback(s, MapsPrefix(s, |LoopOrder|)).graph.nodes|
  {
    var loop := MapsPrefix(s, |LoopOrder|);
    var st := AlphaFallback(s, loop);
    PrefixOnlyChains(s, |LoopOrder|);
    LoopSound(s);
    FallbackKeeps(s, loop);
    forall l | l in st.graph.links && l.to.node < 5
      ensures l in SkeletonLinks || l.from.socket == Named("Alpha")
              || exists m :: m in Plans(s) && l.to == Destination(m) && EndsChain(st.graph, l.from, Plans(s)[m])
    {
      if l in loop.graph.links {
        OnlyChainsKept(Plans(s), loop.graph, st.graph, l);
      }
    }
  }

  /** The displacement step keeps the invariant. */
  lemma DisplacementOnlyChains(s: Settings, st: Synth)
    requires WellFormed(s) && 5 <= |st.graph.nodes| && OnlyChainsIntoFixed(Plans(s), st.graph)
    ensures OnlyChainsIntoFixed(Plans(s), DisplacementStep(s, st).graph)
  {
    if TextureOf(s, Displacement).Some? {
      DisplacementAddsOnlyChain(s, st);
      PlanOf(s, Displacement);
      AddedChainKeeps(Plans(s), st.graph, DisplacementStep(s, st).graph, Displacement,
                      Plan(TextureOf(s, Displacement).value, ChainOf(s, Displacement)),
                      st.cursor, Location(st.cursor.x + 300, st.cursor.y - 300));
    }
  }

  /** The finished tree keeps the invariant: displacement is one more
      chain. */
  lemma FinishedOnlyChains(s: Settings)
    requires WellFormed(s)
    ensures OnlyChainsIntoFixed(Plans(s), Finished(s).graph)
  {
    FallbackOnlyChains(s);
    DisplacementOnlyChains(s, AlphaFallback(s, MapsPrefix(s, |LoopOrder|)));
  }

  /** Every link into a map's destination in the finished tree leaves the
      end of that map's chain, of the other map's chain when bump and
      normal share the shader's Normal, or, for the alpha map, is the
      diffuse-alpha fallback when there is no transparency map: no map
      adds links anywhere else. */
  lemma OnlyChainsReachDestination(s: Settings, m: MapKind)
    requires WellFormed(s)
    ensures forall l :: l in Synthesize(s).graph.links && l.to == Destination(m) ==>
              || (m in Plans(s) && EndsChain(Synthesize(s).graph, l.from, Plans(s)[m]))
              || (m == Normal && Bump in Plans(s) && EndsChain(Synthesize(s).graph, l.from, Plans(s)[Bump]))
              || (m == Bump && Normal in Plans(s) && EndsChain(Synthesize(s).graph, l.from, Plans(s)[Normal]))
              || (m == Alpha && TextureOf(s, Alpha).None? && l.from == Terminal(5, Named("Alpha")))
  {
    var g := Finished(s).graph;
    var r := Synthesize(s).graph;
    FinishedOnlyChains(s);
    FallbackSound(s);
    forall l | l in r.links && l.to == Destination(m)
      ensures || (m in Plans(s) && EndsChain(r, l.from, Plans(s)[m]))
              || (m == Normal && Bump in Plans(s) && EndsChain(r, l.from, Plans(s)[Bump]))
              || (m == Bump && Normal in Plans(s) && EndsChain(r, l.from, Plans(s)[Normal]))
              || (m == Alpha && TextureOf(s, Alpha).None? && l.from == Terminal(5, Named("Alpha")))
    {
      OnlyChainsKept(Plans(s), g, r, l);
      if l.from.socket == Named("Alpha") {
        assert BsdfInputName(m) == "Alpha";
      } else {
        SharedDestination(Plans(s), r, l, m);
      }
    }
  }

  /** A link into `m`'s destination from the end of some planned map's
      chain leaves the end of `m`'s chain, or of the other map's chain
      when bump and normal share the shader's Normal. */
  lemma SharedDestination(plans: map<MapKind, Plan>, g: Graph, l: Link, m: MapKind)
    requires l.to == Destination(m)
    requires l in SkeletonLinks || exists m' :: m' in plans && l.to == Destination(m') && EndsChain(g, l.from, plans[m'])
    ensures || (m in plans && EndsChain(g, l.from, plans[m]))
            || (m == Normal && Bump in plans && EndsChain(g, l.from, plans[Bump]))
            || (m == Bump && Normal in plans && EndsChain(g, l.from, plans[Normal]))
  {
    if l !in SkeletonLinks {
      var m' :| m' in plans && l.to == Destination(m') && EndsChain(g, l.from, plans[m']);
      if m' != m {
        SharedBsdfInput(m', m);
      }
    }
  }

  /** The displacement step keeps the invariant, and every link it adds
      leaves a socket other than "Alpha". */
  lemma DisplacementSound(s: Settings, st: Synth)
    requires WellFormed(s) && Sound(st.graph)
    ensures Sound(DisplacementStep(s, st).graph)
    ensures forall l :: l in DisplacementStep(s, st).graph.links && l.from.socket == Named("Alpha") ==> l in st.graph.links
  {
    if TextureOf(s, Displacement).Some? {
      PlaceSound(st, TextureOf(s, Displacement).value, DisplacementChain(s, st, TextureOf(s, Displacement).value),
                 Terminal(OutputIx, Named("Displacement")));
    }
  }

  /** After the loop, transparency has been flagged exactly when the
      opacity is below 1, the alpha map is set, or the diffuse image has
      more than 3 channels. */
  lemma LoopTransparency(s: Settings)
    requires WellFormed(s)
    ensures MapsPrefix(s, |LoopOrder|).transparent <==>
            Real(s, Opacity) < 1.0 || TextureOf(s, Alpha).Some?
            || (TextureOf(s, Diffuse).Some? && TextureOf(s, Diffuse).value.channels > 3)
  {
    assert MapsPrefix(s, 1).transparent <==>
           Real(s, Opacity) < 1.0 || (TextureOf(s, Diffuse).Some? && TextureOf(s, Diffuse).value.channels > 3);
    assert MapsPrefix(s, 2).transparent == MapsPrefix(s, 1).transparent;
    assert MapsPrefix(s, 3).transparent == (MapsPrefix(s, 2).transparent || TextureOf(s, Alpha).Some?);
    assert MapsPrefix(s, 4).transparent == MapsPrefix(s, 3).transparent;
  }

  /** The material is set to BLEND exactly when the opacity is below 1, a
      transparency map is set, or the diffuse or displacement image has
      more than 3 channels. */
  lemma BlendWhenTransparent(s: Settings)
    requires WellFormed(s)
    ensures Synthesize(s).blend == Blend <==>
            Real(s, Opacity) < 1.0 || TextureOf(s, Alpha).Some?
            || (TextureOf(s, Diffuse).Some? && TextureOf(s, Diffuse).value.channels > 3)
            || (TextureOf(s, Displacement).Some? && TextureOf(s, Displacement).value.channels > 3)
  {
    LoopTransparency(s);
  }

  /** A map step with its texture set makes its image the next node. */
  lemma StepImageNode(s: Settings, st: Synth, m: MapKind)
    requires WellFormed(s) && TextureOf(s, m).Some?
    ensures |st.graph.nodes| < |MapStep(s, st, m).graph.nodes|
    ensures MapStep(s, st, m).graph.nodes[|st.graph.nodes|].kind == TexImageNode(TextureOf(s, m).value)
  {
    assert Extends(AddTexture(st, TextureOf(s, m).value).graph, MapChain(s, st, m, TextureOf(s, m).value).graph);
  }

  /** The first pass of the loop records the diffuse image, node 5, when
      it has more than 3 channels. */
  lemma FirstStepDiffuse(s: Settings)
    requires WellFormed(s)
    ensures MapsPrefix(s, 1).diffuseNode ==
            if TextureOf(s, Diffuse).Some? && TextureOf(s, Diffuse).value.channels > 3 then Some(5) else None
    ensures TextureOf(s, Diffuse).Some? ==>
            5 < |MapsPrefix(s, 1).graph.nodes| && MapsPrefix(s, 1).graph.nodes[5].kind == TexImageNode(TextureOf(s, Diffuse).value)
  {
    assert MapsPrefix(s, 1) == MapStep(s, Start(s), Diffuse);
    assert |Start(s).graph.nodes| == 5;
    if TextureOf(s, Diffuse).Some? {
      StepImageNode(s, Start(s), Diffuse);
    }
  }

  /** Later passes leave the recorded diffuse node alone. */
  lemma {:induction false} DiffuseNodeSettles(s: Settings, n: nat)
    requires WellFormed(s) && 1 <= n <= |LoopOrder|
    ensures MapsPrefix(s, n).diffuseNode ==
            if TextureOf(s, Diffuse).Some? && TextureOf(s, Diffuse).value.channels > 3 then Some(5) else None
  {
    if n == 1 {
      FirstStepDiffuse(s);
    } else {
      DiffuseNodeSettles(s, n - 1);
      assert LoopOrder[n - 1] != Diffuse;
    }
  }

  /** After the loop the recorded diffuse node is node 5, the diffuse
      image's node, exactly when that image has more than 3 channels. */
  lemma LoopDiffuseNode(s: Settings)
    requires WellFormed(s)
    ensures MapsPrefix(s, |LoopOrder|).diffuseNode ==
            if TextureOf(s, Diffuse).Some? && TextureOf(s, Diffuse).value.channels > 3 then Some(5) else None
  {
    DiffuseNodeSettles(s, |LoopOrder|);
  }

  /** The fallback adds at most its one link, between existing nodes. */
  lemma FallbackKeeps(s: Settings, st: Synth)
    requires WellFormed(s) && Sound(st.graph)
    requires st.diffuseNode.Some? ==> st.diffuseNode.value < |st.graph.nodes|
    ensures Sound(AlphaFallback(s, st).graph)
    ensures forall l :: l in AlphaFallback(s, st).graph.links ==>
              l in st.graph.links
              || (st.transparent && TextureOf(s, Alpha).None? && st.diffuseNode.Some?
                  && l == Link(Terminal(st.diffuseNode.value, Named("Alpha")), Terminal(ShaderIx, Named("Alpha"))))
    ensures st.transparent && TextureOf(s, Alpha).None? && st.diffuseNode.Some? ==>
              Link(Terminal(st.diffuseNode.value, Named("Alpha")), Terminal(ShaderIx, Named("Alpha")))
                in AlphaFallback(s, st).graph.links
  {
    if st.transparent && TextureOf(s, Alpha).None? && st.diffuseNode.Some? {
      LinkSound(st.graph, Terminal(st.diffuseNode.value, Named("Alpha")), Terminal(ShaderIx, Named("Alpha")));
    }
  }

  /** The state after the loop: sound, no "Alpha" link yet, and node 5 the
      diffuse image whenever a diffuse node was recorded. */
  lemma LoopSound(s: Settings)
    requires WellFormed(s)
    ensures Sound(MapsPrefix(s, |LoopOrder|).graph) && NoAlphaOut(MapsPrefix(s, |LoopOrder|).graph)
    ensures MapsPrefix(s, |LoopOrder|).diffuseNode ==
            if TextureOf(s, Diffuse).Some? && TextureOf(s, Diffuse).value.channels > 3 then Some(5) else None
    ensures TextureOf(s, Diffuse).Some? ==>
            5 < |Finished(s).graph.nodes| && Finished(s).graph.nodes[5].kind == TexImageNode(TextureOf(s, Diffuse).value)
    ensures TextureOf(s, Diffuse).Some? ==> 5 < |MapsPrefix(s, |LoopOrder|).graph.nodes|
  {
    PrefixSound(s, |LoopOrder|);
    LoopDiffuseNode(s);
    FirstStepDiffuse(s);
    PrefixExtends(s, 1, |LoopOrder|);
    FinishedExtendsPrefix(s, 1);
  }

  /** The tree after the fallback, and after displacement: sound, and every
      link leaving an "Alpha" socket is the fallback link. */
  lemma FallbackSound(s: Settings)
    requires WellFormed(s)
    ensures Sound(AlphaFallback(s, MapsPrefix(s, |LoopOrder|)).graph)
    ensures Sound(Finished(s).graph)
    ensures forall l :: l in Finished(s).graph.links && l.from.socket == Named("Alpha") ==>
              TextureOf(s, Alpha).None? && TextureOf(s, Diffuse).Some? && TextureOf(s, Diffuse).value.channels > 3
              && l == Link(Terminal(5, Named("Alpha")), Terminal(ShaderIx, Named("Alpha")))
  {
    LoopSound(s);
    LoopTransparency(s);
    FallbackKeeps(s, MapsPrefix(s, |LoopOrder|));
    DisplacementSound(s, AlphaFallback(s, MapsPrefix(s, |LoopOrder|)));
  }

  /** The alpha fallback: some link leaves an "Alpha" socket exactly when
      there is no transparency map and the diffuse image has more than 3
      channels, and then it is the diffuse node's Alpha into the shader's
      Alpha. */
  lemma AlphaFallbackExactly(s: Settings)
    requires WellFormed(s)
    ensures (exists l :: l in Synthesize(s).graph.links && l.from.socket == Named("Alpha")) <==>
            TextureOf(s, Alpha).None? && TextureOf(s, Diffuse).Some? && TextureOf(s, Diffuse).value.channels > 3
    ensures TextureOf(s, Alpha).None? && TextureOf(s, Diffuse).Some? && TextureOf(s, Diffuse).value.channels > 3 ==>
            && 5 < |Synthesize(s).graph.nodes|
            && Synthesize(s).graph.nodes[5].kind == TexImageNode(TextureOf(s, Diffuse).value)
            && Link(Terminal(5, Named("Alpha")), Terminal(ShaderIx, Named("Alpha"))) in Synthesize(s).graph.links
  {
    FallbackSound(s);
    if TextureOf(s, Alpha).None? && TextureOf(s, Diffuse).Some? && TextureOf(s, Diffuse).value.channels > 3 {
      LoopSound(s);
      LoopTransparency(s);
      FallbackKeeps(s, MapsPrefix(s, |LoopOrder|));
      assert Link(Terminal(5, Named("Alpha")), Terminal(ShaderIx, Named("Alpha"))) in Finished(s).graph.links;
    }
  }

  /** The finished tree: every link joins existing nodes, every image node
      is fed by the fan-out, and no node is left selected. */
  lemma TreeClosedAndDeselected(s: Settings)
    requires WellFormed(s)
    ensures Closed(Synthesize(s).graph) && FedByFanout(Synthesize(s).graph)
    ensures forall i :: 0 <= i < |Synthesize(s).graph.nodes| ==> !Synthesize(s).graph.nodes[i].selected
  {
    FallbackSound(s);
    var g := Finished(s).graph;
    var r := Synthesize(s).graph;
    forall i | 0 <= i < |r.nodes| && r.nodes[i].kind.TexImageNode?
      ensures Link(Terminal(FanoutIx, At(0)), Terminal(i, At(0))) in r.links
    {
      assert g.nodes[i].kind == r.nodes[i].kind;
    }
  }

  /** The skeleton survives: the first five nodes are the skeleton's,
      deselected, and its three links come first. */
  lemma SkeletonKept(s: Settings)
    requires WellFormed(s)
    ensures 5 <= |Synthesize(s).graph.nodes|
    ensures forall i :: 0 <= i < 5 ==> Synthesize(s).graph.nodes[i] == Skeleton(s).nodes[i].(selected := false)
    ensures Skeleton(s).links <= Synthesize(s).graph.links
  {
    FinishedExtendsPrefix(s, 0);
  }

  /** The finished shader node carries the defaults `ShaderInputs` sets. */
  lemma ShaderDefaults(s: Settings)
    requires WellFormed(s)
    ensures ShaderIx < |Synthesize(s).graph.nodes|
    ensures Synthesize(s).graph.nodes[ShaderIx].kind == PrincipledBsdfNode
    ensures Synthesize(s).graph.nodes[ShaderIx].inputs == ShaderInputs(s)
  {
    SkeletonKept(s);
  }

  /** The shader's defaults: exactly six inputs set, the two colours as
      RGBA tuples with alpha 1, the opacity, Subsurface 1 exactly when the
      subsurface flag is on (else 0), the three scattering scales, and a
      Roughness of 1 - shininess, which lies in [0, 1]. */
  lemma ShaderInputsMeaning(s: Settings)
    requires WellFormed(s)
    ensures ShaderInputs(s).Keys == {Named("Base Color"), Named("Emission"), Named("Alpha"), Named("Subsurface"),
                                     Named("Subsurface Radius"), Named("Roughness")}
    ensures var inputs := ShaderInputs(s);
            && inputs[Named("Base Color")] == Vector(s.fields[DiffuseColor].rgba)
            && |s.fields[DiffuseColor].rgba| == 4 && s.fields[DiffuseColor].rgba[3] == 1.0
            && inputs[Named("Emission")] == Vector(s.fields[EmissiveColor].rgba)
            && |s.fields[EmissiveColor].rgba| == 4 && s.fields[EmissiveColor].rgba[3] == 1.0
            && inputs[Named("Alpha")] == Scalar(s.fields[Opacity].x)
            && (inputs[Named("Subsurface")] == Scalar(1.0) <==> s.fields[SssEnabled].on)
            && inputs[Named("Subsurface")] in {Scalar(0.0), Scalar(1.0)}
            && inputs[Named("Subsurface Radius")] ==
               Vector([s.fields[SssRScale].x, s.fields[SssGScale].x, s.fields[SssBScale].x])
            && inputs[Named("Roughness")] == Scalar(1.0 - s.fields[Shininess].x)
            && 0.0 <= 1.0 - s.fields[Shininess].x <= 1.0
  {
    assert Fits(EntryOf(Shininess), s.fields[Shininess]);
  }
}
